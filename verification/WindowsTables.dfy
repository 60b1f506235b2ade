/**
 * Which back references are made: the tables hold the first ten different names and the first ten
 * different types written so far, and whatever is in a table is written as its position there.
 */
module WindowsTables {
  import opened Wrappers
  import opened Positions
  import opened WindowsMangle

  /** The different strings of a list, in the order in which they first occur. */
  function Distinct(ss: seq<string>): seq<string> {
    if ss == [] then []
    else
      var d, s := Distinct(ss[..|ss| - 1]), ss[|ss| - 1];
      if s in ss[..|ss| - 1] then d else d + [s]
  }

  /** The first ten of them. */
  function FirstTen(ss: seq<string>): seq<string> {
    var d := Distinct(ss);
    if |d| <= 10 then d else d[..10]
  }

  lemma {:induction false} DistinctSame(ss: seq<string>)
    ensures forall s :: s in Distinct(ss) <==> s in ss
    ensures forall i, j :: 0 <= i < j < |Distinct(ss)| ==> Distinct(ss)[i] != Distinct(ss)[j]
  {
    if ss != [] {
      DistinctSame(ss[..|ss| - 1]);
      assert ss == ss[..|ss| - 1] + [ss[|ss| - 1]];
    }
  }

  lemma {:induction false} FirstTenSnoc(ss: seq<string>, s: string)
    ensures FirstTen(ss + [s]) == Entered(FirstTen(ss), s)
  {
    assert (ss + [s])[..|ss|] == ss;
    DistinctSame(ss);
    var d := Distinct(ss);
    if |d| > 10 {
      if s !in ss { assert (d + [s])[..10] == d[..10]; }
    } else if |d| == 10 && s !in ss {
      assert (d + [s])[..10] == d;
    }
  }

  lemma {:induction false} AfterConcat(list: seq<string>, a: seq<string>, b: seq<string>)
    ensures NamesAfter(list, a + b) == NamesAfter(NamesAfter(list, a), b)
    decreases a
  {
    if a == [] {
      assert a + b == b;
    } else {
      assert (a + b)[1..] == a[1..] + b;
      AfterConcat(Entered(list, a[0]), a[1..], b);
    }
  }

  /** The name table holds the first ten different names. */
  lemma {:induction false} TableIsFirstTen(parts: seq<string>)
    ensures NamesAfter([], parts) == FirstTen(parts)
  {
    if parts != [] {
      var n := |parts| - 1;
      var last := [parts[n]];
      assert parts == parts[..n] + last;
      AfterConcat([], parts[..n], last);
      TableIsFirstTen(parts[..n]);
      FirstTenSnoc(parts[..n], parts[n]);
      assert last[1..] == [];
      var list := NamesAfter([], parts[..n]);
      assert NamesAfter(list, last) == NamesAfter(Entered(list, parts[n]), last[1..]);
    }
  }

  /** How a name is written after the names in `seen`. */
  predicate Writes(tok: NameTok, seen: seq<string>, s: string) {
    var table := FirstTen(seen);
    if s in table then tok.NameRef? && tok.ref < |table| && table[tok.ref] == s else tok == NameLit(s)
  }

  predicate WritesAll(toks: seq<NameTok>, seen: seq<string>, parts: seq<string>) {
    |toks| == |parts| && forall i :: 0 <= i < |parts| ==> Writes(toks[i], seen + parts[..i], parts[i])
  }

  lemma {:induction false} EncodedAt(seen: seq<string>, parts: seq<string>, i: nat)
    requires i < |parts|
    ensures var list := NamesAfter([], seen);
      |EncodeNames(list, parts)| == |parts|
        && EncodeNames(list, parts)[i] == EncodeName(FirstTen(seen + parts[..i]), parts[i])
    decreases parts
  {
    var list := NamesAfter([], seen);
    TableIsFirstTen(seen);
    assert seen + parts[..0] == seen;
    if |parts| == 1 {
      assert EncodeNames(Entered(list, parts[0]), parts[1..]) == [];
    } else {
      var next := seen + [parts[0]];
      AfterConcat([], seen, [parts[0]]);
      assert ([parts[0]])[1..] == [];
      assert NamesAfter([], next) == Entered(list, parts[0]);
      EncodedAt(next, parts[1..], if i == 0 then 0 else i - 1);
      if i > 0 { assert next + parts[1..][..i - 1] == seen + parts[..i]; }
    }
  }

  /** A list of names, written after the names in `seen`. */
  lemma {:induction false} NamesAreWritten(seen: seq<string>, parts: seq<string>)
    ensures WritesAll(EncodeNames(NamesAfter([], seen), parts), seen, parts)
  {
    var toks := EncodeNames(NamesAfter([], seen), parts);
    if parts != [] { EncodedAt(seen, parts, 0); }
    forall i | 0 <= i < |parts| ensures Writes(toks[i], seen + parts[..i], parts[i]) {
      EncodedAt(seen, parts, i);
      var table := FirstTen(seen + parts[..i]);
      if parts[i] in table { IndexOfIn(table, parts[i]); }
    }
  }

  // ---- types ----

  /** The names written by a list of types, whether or not a type is a back reference. */
  function AllNames(ts: seq<TypeName>): seq<string> {
    if ts == [] then [] else AllNames(ts[..|ts| - 1]) + TypeNames(ts[|ts| - 1])
  }

  /** The full forms that can be referred back to. */
  function Referable(ts: seq<TypeName>): seq<string> {
    if ts == [] then []
    else
      var t := ts[|ts| - 1];
      Referable(ts[..|ts| - 1]) + if |Full(t)| < 2 then [] else [Full(t)]
  }

  /** How a type is written after the function's names and the types in `before`. */
  predicate WritesType(tok: TypeTok, names: seq<string>, before: seq<TypeName>, t: TypeName) {
    var table := FirstTen(Referable(before));
    if Full(t) in table then tok.TypeRef? && tok.ref < |table| && table[tok.ref] == Full(t)
    else if t.Plain? then tok == PlainTok(t.text)
    else
      && tok.NamedTok? && tok.quals == t.quals && tok.code == t.code
      && WritesAll(tok.names, names + AllNames(before), t.parts)
  }

  lemma {:induction false} ReferableLong(ts: seq<TypeName>)
    ensures forall s :: s in Referable(ts) ==> |s| >= 2
  {
    if ts != [] { ReferableLong(ts[..|ts| - 1]); }
  }

  lemma {:induction false} FirstTenIn(ss: seq<string>, s: string)
    requires s in FirstTen(ss)
    ensures s in ss
  {
    DistinctSame(ss);
  }

  /** The two tables after the function's names and some types. */
  predicate Tables(types: seq<string>, list: seq<string>, names: seq<string>, before: seq<TypeName>) {
    types == FirstTen(Referable(before)) && list == NamesAfter([], names + AllNames(before))
  }

  lemma {:induction false} ReferableSnoc(before: seq<TypeName>, t: TypeName)
    ensures FirstTen(Referable(before + [t])) == TypesAfter(FirstTen(Referable(before)), t)
  {
    assert (before + [t])[..|before|] == before;
    if |Full(t)| >= 2 {
      FirstTenSnoc(Referable(before), Full(t));
    } else {
      assert Referable(before) + [] == Referable(before);
    }
  }

  lemma {:induction false} AllNamesSnoc(names: seq<string>, before: seq<TypeName>, t: TypeName)
    ensures names + AllNames(before + [t]) == names + AllNames(before) + TypeNames(t)
  {
    assert (before + [t])[..|before|] == before;
  }

  lemma {:induction false} TablesNext(types: seq<string>, list: seq<string>, names: seq<string>,
                                      before: seq<TypeName>, t: TypeName)
    requires Tables(types, list, names, before)
    ensures Tables(TypesAfter(types, t), NamesAfter(list, TypeNames(t)), names, before + [t])
  {
    ReferableSnoc(before, t);
    AllNamesSnoc(names, before, t);
    AfterConcat([], names + AllNames(before), TypeNames(t));
  }

  lemma {:induction false} TypeIsWritten(types: seq<string>, list: seq<string>, names: seq<string>,
                                         before: seq<TypeName>, t: TypeName)
    requires Tables(types, list, names, before)
    ensures WritesType(EncodeType(types, list, t), names, before, t)
  {
    if Full(t) in types {
      FirstTenIn(Referable(before), Full(t));
      ReferableLong(before);
      IndexOfIn(types, Full(t));
    } else if t.Named? {
      NamesAreWritten(names + AllNames(before), t.parts);
    }
  }

  lemma {:induction false} OneTokenEach(types: seq<string>, list: seq<string>, ts: seq<TypeName>)
    ensures |EncodeTypes(types, list, ts)| == |ts|
    decreases ts
  {
    if ts != [] {
      EncodeNextType(types, list, ts);
      OneTokenEach(TypesAfter(types, ts[0]), NamesAfter(list, TypeNames(ts[0])), ts[1..]);
    }
  }

  lemma {:induction false} Regroup<T>(before: seq<T>, ts: seq<T>, i: nat)
    requires 0 < i < |ts|
    ensures before + [ts[0]] + ts[1..][..i - 1] == before + ts[..i] && ts[1..][i - 1] == ts[i]
  {
  }

  lemma {:induction false} TokenAfter(types: seq<string>, list: seq<string>, ts: seq<TypeName>, i: nat)
    requires 0 < i < |ts|
    ensures |EncodeTypes(types, list, ts)| == |ts|
    ensures var rest := EncodeTypes(TypesAfter(types, ts[0]), NamesAfter(list, TypeNames(ts[0])), ts[1..]);
      |rest| == |ts| - 1 && EncodeTypes(types, list, ts)[i] == rest[i - 1]
  {
    EncodeNextType(types, list, ts);
    OneTokenEach(types, list, ts);
  }

  /** The tables that one of a list of types meets. */
  lemma {:induction false} TypeMeets(types: seq<string>, list: seq<string>, names: seq<string>, before: seq<TypeName>,
                                     ts: seq<TypeName>, i: nat) returns (met: seq<string>, known: seq<string>)
    requires Tables(types, list, names, before) && i < |ts| == |EncodeTypes(types, list, ts)|
    ensures Tables(met, known, names, before + ts[..i])
    ensures EncodeTypes(types, list, ts)[i] == EncodeType(met, known, ts[i])
    decreases i
  {
    if i == 0 {
      EncodeNextType(types, list, ts);
      assert before + ts[..0] == before;
      met, known := types, list;
    } else {
      TablesNext(types, list, names, before, ts[0]);
      TokenAfter(types, list, ts, i);
      Regroup(before, ts, i);
      met, known := TypeMeets(TypesAfter(types, ts[0]), NamesAfter(list, TypeNames(ts[0])), names, before + [ts[0]],
                              ts[1..], i - 1);
    }
  }

  lemma {:induction false} TypesAreWritten(types: seq<string>, list: seq<string>, names: seq<string>,
                                           before: seq<TypeName>, ts: seq<TypeName>, i: nat)
    requires Tables(types, list, names, before) && i < |ts| == |EncodeTypes(types, list, ts)|
    ensures WritesType(EncodeTypes(types, list, ts)[i], names, before + ts[..i], ts[i])
  {
    var met, known := TypeMeets(types, list, names, before, ts, i);
    TypeIsWritten(met, known, names, before + ts[..i], ts[i]);
  }

  /**
   * The mangled signature: each name of the function, and each type, is a back reference if and only if
   * it is among the first ten different ones before it.
   */
  lemma {:induction false} SignatureIsWritten(sig: Signature)
    ensures WritesAll(Encode(sig).names, [], sig.names)
    ensures |Encode(sig).types| == |sig.types|
    ensures forall i :: 0 <= i < |sig.types| ==>
      WritesType(Encode(sig).types[i], sig.names, sig.types[..i], sig.types[i])
  {
    NamesAreWritten([], sig.names);
    var list := NamesAfter([], sig.names);
    assert sig.names + AllNames([]) == sig.names;
    assert Tables([], list, sig.names, []);
    OneTokenEach([], list, sig.types);
    forall i | 0 <= i < |sig.types|
      ensures WritesType(Encode(sig).types[i], sig.names, sig.types[..i], sig.types[i])
    {
      TypesAreWritten([], list, sig.names, [], sig.types, i);
      assert [] + sig.types[..i] == sig.types[..i];
    }
  }
}
