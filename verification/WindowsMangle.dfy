/**
 * Microsoft-style name mangling: back references into a table of names and a table of
 * types, each of at most ten entries, and a decoder that replays the tables.
 */
module WindowsMangle {
  import opened Wrappers
  import opened Positions

  // ---- strings ----

  /** Names, innermost first, each ended by an at sign. */
  function Join(parts: seq<string>): string {
    if parts == [] then "" else parts[0] + "@" + Join(parts[1..])
  }

  predicate IsId(s: string) { s != "" && '@' !in s }

  predicate AllIds(parts: seq<string>) { forall i :: 0 <= i < |parts| ==> IsId(parts[i]) }

  predicate IsKind(c: char) { c == 'U' || c == 'V' || c == 'T' || c == 'W' }

  predicate NoKind(s: string) { forall i :: 0 <= i < |s| ==> !IsKind(s[i]) }

  /** The code of a struct, class, union or enum. */
  predicate IsCode(s: string) { s in ["U", "V", "T", "W4"] }

  /**
   * A type as the mangler sees it: qualifiers and a letter code, or qualifiers, a kind and the
   * names of the type, its enclosing types and namespaces.  Qualifiers use none of the kind letters.
   */
  datatype TypeName = Plain(text: string) | Named(quals: string, code: string, parts: seq<string>)

  predicate WellFormed(t: TypeName) {
    match t
    case Plain(text) => NoKind(text)
    case Named(q, c, ps) => NoKind(q) && IsCode(c) && ps != [] && AllIds(ps)
  }

  /** The mangled type without back references. */
  function Full(t: TypeName): string {
    match t
    case Plain(text) => text
    case Named(q, c, ps) => q + c + Join(ps) + "@"
  }

  // ---- the full form determines the type ----

  lemma {:induction false} IdSplit(a: string, b: string, x: string, y: string)
    requires '@' !in a && '@' !in b && a + "@" + x == b + "@" + y
    ensures a == b && x == y
  {
    var s, r := a + "@" + x, b + "@" + y;
    assert s[|a|] == '@' && r[|b|] == '@';
    assert |a| == |b|;
    assert s[..|a|] == a && r[..|b|] == b;
    assert s[|a| + 1..] == x && r[|b| + 1..] == y;
  }

  lemma {:induction false} JoinInjective(ps: seq<string>, qs: seq<string>)
    requires AllIds(ps) && AllIds(qs) && Join(ps) + "@" == Join(qs) + "@"
    ensures ps == qs
  {
    if ps == [] || qs == [] {
      if ps != [] { JoinNotEmpty(ps); }
      if qs != [] { JoinNotEmpty(qs); }
    } else {
      assert Join(ps) + "@" == ps[0] + "@" + (Join(ps[1..]) + "@");
      assert Join(qs) + "@" == qs[0] + "@" + (Join(qs[1..]) + "@");
      assert IsId(ps[0]) && IsId(qs[0]);
      IdSplit(ps[0], qs[0], Join(ps[1..]) + "@", Join(qs[1..]) + "@");
      JoinInjective(ps[1..], qs[1..]);
      assert ps == [ps[0]] + ps[1..] && qs == [qs[0]] + qs[1..];
    }
  }

  lemma {:induction false} JoinNotEmpty(ps: seq<string>)
    requires ps != [] && AllIds(ps)
    ensures |Join(ps) + "@"| > 1
  {
    assert IsId(ps[0]);
  }

  /** The kind letter is the first one in the string. */
  lemma {:induction false} KindSplit(q: string, x: string, r: string, y: string)
    requires NoKind(q) && NoKind(r) && x != "" && y != "" && IsKind(x[0]) && IsKind(y[0]) && q + x == r + y
    ensures q == r && x == y
  {
    var s, t := q + x, r + y;
    assert s[|q|] == x[0] && t[|r|] == y[0];
    assert |q| == |r|;
    assert s[..|q|] == q && t[..|r|] == r;
    assert s[|q|..] == x && t[|r|..] == y;
  }

  lemma {:induction false} CodeSplit(c: string, x: string, d: string, y: string)
    requires IsCode(c) && IsCode(d) && c + x == d + y
    ensures c == d && x == y
  {
    assert (c + x)[0] == c[0] && (d + y)[0] == d[0];
    assert c == d;
    assert (c + x)[|c|..] == x && (d + y)[|d|..] == y;
  }

  /** Two types have the same full form exactly when they are the same type. */
  lemma {:induction false} FullInjective(t: TypeName, u: TypeName)
    requires WellFormed(t) && WellFormed(u)
    ensures Full(t) == Full(u) <==> t == u
  {
    if Full(t) == Full(u) {
      if t.Named? { HasKind(t); }
      if u.Named? { HasKind(u); }
      if t.Named? && u.Named? { NamedInjective(t, u); }
    }
  }

  lemma {:induction false} NamedInjective(t: TypeName, u: TypeName)
    requires WellFormed(t) && WellFormed(u) && t.Named? && u.Named? && Full(t) == Full(u)
    ensures t == u
  {
    var x, y := t.code + (Join(t.parts) + "@"), u.code + (Join(u.parts) + "@");
    assert Full(t) == t.quals + x && Full(u) == u.quals + y;
    KindSplit(t.quals, x, u.quals, y);
    CodeSplit(t.code, Join(t.parts) + "@", u.code, Join(u.parts) + "@");
    JoinInjective(t.parts, u.parts);
  }

  lemma {:induction false} HasKind(t: TypeName)
    requires WellFormed(t) && t.Named?
    ensures !NoKind(Full(t))
  {
    assert Full(t)[|t.quals|] == t.code[0];
  }

  // ---- tables ----

  type Table = map<string, nat>

  /** A table holds the entries of a list, numbered in order of entry. */
  ghost predicate Lists(table: Table, list: seq<string>) {
    && |list| == |table| && |list| <= 10
    && (forall i :: 0 <= i < |list| ==> list[i] in table && table[list[i]] == i)
    && (forall s :: s in table ==> table[s] < |list| && list[table[s]] == s)
  }

  /** The list after `s` is looked up or entered. */
  function Entered(list: seq<string>, s: string): seq<string> {
    if s in list || |list| >= 10 then list else list + [s]
  }

  lemma {:induction false} EnterLists(table: Table, list: seq<string>, s: string)
    requires Lists(table, list)
    ensures s in table <==> s in list
    ensures s !in table && |table| < 10 ==> Lists(table[s := |table|], list + [s])
  {
    if s !in table && |table| < 10 {
      assert |table[s := |table|]| == |table| + 1;
    }
  }

  // ---- what is written ----

  datatype NameTok = NameRef(ref: nat) | NameLit(name: string)

  datatype TypeTok = TypeRef(ref: nat) | PlainTok(text: string) | NamedTok(quals: string, code: string,
    names: seq<NameTok>)

  /** A mangled signature: the function's name and namespaces, and its return and argument types. */
  datatype Signature = Signature(names: seq<string>, types: seq<TypeName>)

  datatype Mangled = Mangled(names: seq<NameTok>, types: seq<TypeTok>)

  // ---- the characters of a list of names ----

  predicate IsDigit(c: char) { '0' <= c <= '9' }

  function DigitChar(k: nat): char
    requires k < 10
  {
    ('0' as int + k) as char
  }

  /** A back reference is one digit; a name is ended by an at sign. */
  function TokText(t: NameTok): string {
    match t
    case NameRef(k) => if k < 10 then [DigitChar(k)] else ""
    case NameLit(n) => n + "@"
  }

  function Text(toks: seq<NameTok>): string { if toks == [] then "" else TokText(toks[0]) + Text(toks[1..]) }

  predicate Writable(t: NameTok) {
    match t
    case NameRef(k) => k < 10
    case NameLit(n) => IsId(n) && !IsDigit(n[0])
  }

  function UpToAt(s: string): string { if s == "" || s[0] == '@' then "" else [s[0]] + UpToAt(s[1..]) }

  lemma {:induction false} UpToAtIs(n: string, rest: string)
    requires '@' !in n
    ensures UpToAt(n + "@" + rest) == n
  {
    var s := n + "@" + rest;
    if n != "" {
      assert n[0] in n && s[0] == n[0] && s[1..] == n[1..] + "@" + rest;
      UpToAtIs(n[1..], rest);
    }
  }

  /** Read name tokens up to the closing at sign. */
  function Scan(s: string): Option<(seq<NameTok>, string)>
    decreases |s|
  {
    if s == "" then None
    else if s[0] == '@' then Some(([], s[1..]))
    else if IsDigit(s[0]) then
      var r := Scan(s[1..]);
      if r.None? then None else Some(([NameRef(s[0] as int - '0' as int)] + r.value.0, r.value.1))
    else
      var n := UpToAt(s);
      if |n| + 1 > |s| then None
      else
        var r := Scan(s[|n| + 1..]);
        if r.None? then None else Some(([NameLit(n)] + r.value.0, r.value.1))
  }

  /** The characters of a list of names determine it and where it ends. */
  lemma {:induction false} ScanReads(toks: seq<NameTok>, rest: string)
    requires forall i :: 0 <= i < |toks| ==> Writable(toks[i])
    ensures Scan(Text(toks) + "@" + rest) == Some((toks, rest))
    decreases toks
  {
    var s := Text(toks) + "@" + rest;
    if toks == [] {
      assert s[0] == '@' && s[1..] == rest;
    } else {
      var more := Text(toks[1..]) + "@" + rest;
      assert s == TokText(toks[0]) + more;
      assert toks == [toks[0]] + toks[1..];
      assert Writable(toks[0]);
      ScanReads(toks[1..], rest);
      match toks[0]
      case NameRef(k) =>
        assert s[0] == DigitChar(k) && s[1..] == more;
      case NameLit(n) =>
        assert s == n + "@" + more;
        UpToAtIs(n, more);
        assert s[0] == n[0] && n[0] in n && s[|n| + 1..] == more;
    }
  }

  // ---- the tables as lists: what the encoder does, in terms of the lists ----

  lemma {:induction false} IndexOfTable(table: Table, list: seq<string>, s: string)
    requires Lists(table, list) && s in table
    ensures s in list && IndexOf(list, s) == table[s]
  {
    assert list[table[s]] == s;
    IndexOfIn(list, s);
    assert table[list[IndexOf(list, s)]] == IndexOf(list, s);
  }

  function EncodeName(list: seq<string>, s: string): NameTok {
    if s in list then NameRef(IndexOf(list, s)) else NameLit(s)
  }

  function NamesAfter(list: seq<string>, parts: seq<string>): seq<string>
    decreases parts
  {
    if parts == [] then list else NamesAfter(Entered(list, parts[0]), parts[1..])
  }

  function EncodeNames(list: seq<string>, parts: seq<string>): seq<NameTok>
    decreases parts
  {
    if parts == [] then [] else [EncodeName(list, parts[0])] + EncodeNames(Entered(list, parts[0]), parts[1..])
  }

  function TypeNames(t: TypeName): seq<string> { if t.Named? then t.parts else [] }

  function EncodeType(types: seq<string>, names: seq<string>, t: TypeName): TypeTok {
    if |Full(t)| >= 2 && Full(t) in types then TypeRef(IndexOf(types, Full(t)))
    else if t.Plain? then PlainTok(t.text)
    else NamedTok(t.quals, t.code, EncodeNames(names, t.parts))
  }

  function TypesAfter(types: seq<string>, t: TypeName): seq<string> {
    if |Full(t)| < 2 then types else Entered(types, Full(t))
  }

  function EncodeTypes(types: seq<string>, names: seq<string>, ts: seq<TypeName>): seq<TypeTok>
    decreases ts
  {
    if ts == [] then []
    else
      [EncodeType(types, names, ts[0])]
      + EncodeTypes(TypesAfter(types, ts[0]), NamesAfter(names, TypeNames(ts[0])), ts[1..])
  }

  function Encode(sig: Signature): Mangled {
    Mangled(EncodeNames([], sig.names), EncodeTypes([], NamesAfter([], sig.names), sig.types))
  }

  // ---- the decoder ----

  datatype Decoded = Decoded(texts: seq<string>, names: seq<string>)

  /** Read names back, replaying the name table. */
  function DecodeNames(list: seq<string>, toks: seq<NameTok>): Option<Decoded>
    decreases toks
  {
    if toks == [] then Some(Decoded([], list))
    else
      match toks[0]
      case NameRef(k) =>
        if k >= |list| then None
        else
          var rest := DecodeNames(list, toks[1..]);
          if rest.None? then None else Some(Decoded([list[k]] + rest.value.texts, rest.value.names))
      case NameLit(s) =>
        var rest := DecodeNames(Entered(list, s), toks[1..]);
        if rest.None? then None else Some(Decoded([s] + rest.value.texts, rest.value.names))
  }

  /** One type, with the name table after it; a back-referenced type leaves that table alone. */
  function DecodeType(types: seq<string>, names: seq<string>, tok: TypeTok): Option<(string, seq<string>)> {
    match tok
    case TypeRef(k) => if k < |types| then Some((types[k], names)) else None
    case PlainTok(text) => Some((text, names))
    case NamedTok(q, c, toks) =>
      var r := DecodeNames(names, toks);
      if r.None? then None else Some((q + c + Join(r.value.texts) + "@", r.value.names))
  }

  function DecodeTypes(types: seq<string>, names: seq<string>, toks: seq<TypeTok>): Option<seq<string>>
    decreases toks
  {
    if toks == [] then Some([])
    else
      var r := DecodeType(types, names, toks[0]);
      if r.None? then None
      else
        var s := r.value.0;
        var rest := DecodeTypes(if |s| < 2 then types else Entered(types, s), r.value.1, toks[1..]);
        if rest.None? then None else Some([s] + rest.value)
  }

  function Decode(m: Mangled): Option<(seq<string>, seq<string>)> {
    var r := DecodeNames([], m.names);
    if r.None? then None
    else
      var ts := DecodeTypes([], r.value.names, m.types);
      if ts.None? then None else Some((r.value.texts, ts.value))
  }

  // ---- nothing is lost ----

  lemma {:induction false} NamesRoundTrip(list: seq<string>, parts: seq<string>)
    ensures DecodeNames(list, EncodeNames(list, parts)) == Some(Decoded(parts, NamesAfter(list, parts)))
    decreases parts
  {
    if parts != [] {
      var toks := EncodeNames(list, parts);
      assert toks[1..] == EncodeNames(Entered(list, parts[0]), parts[1..]);
      NamesRoundTrip(Entered(list, parts[0]), parts[1..]);
      if parts[0] in list { IndexOfIn(list, parts[0]); }
      assert [parts[0]] + parts[1..] == parts;
    }
  }

  /** The table already knows all these names, or is full. */
  predicate Settled(list: seq<string>, parts: seq<string>) {
    |list| >= 10 || forall i :: 0 <= i < |parts| ==> parts[i] in list
  }

  lemma {:induction false} SettledStays(list: seq<string>, parts: seq<string>)
    requires Settled(list, parts)
    ensures NamesAfter(list, parts) == list
  {
    if parts != [] {
      assert Entered(list, parts[0]) == list;
      SettledStays(list, parts[1..]);
    }
  }

  lemma {:induction false} NamesGrow(list: seq<string>, parts: seq<string>)
    ensures list <= NamesAfter(list, parts) && Settled(NamesAfter(list, parts), parts)
    decreases parts
  {
    if parts != [] {
      NamesGrow(Entered(list, parts[0]), parts[1..]);
      var after := NamesAfter(list, parts);
      assert Entered(list, parts[0]) <= after;
      if |after| < 10 {
        assert parts[0] in Entered(list, parts[0]);
        assert parts[0] in after;
        forall i | 0 <= i < |parts| ensures parts[i] in after {
          if i > 0 { assert parts[i] == parts[1..][i - 1]; }
        }
      }
    }
  }

  lemma {:induction false} SettledGrows(list: seq<string>, longer: seq<string>, parts: seq<string>)
    requires Settled(list, parts) && list <= longer
    ensures Settled(longer, parts)
  {
    if |longer| < 10 {
      forall i | 0 <= i < |parts| ensures parts[i] in longer { assert parts[i] in list; }
    }
  }

  /** Every type in the table has had its names entered. */
  ghost predicate TypesSettled(types: seq<string>, names: seq<string>) {
    forall t {:trigger Full(t)} :: WellFormed(t) && Full(t) in types ==> Settled(names, TypeNames(t))
  }

  lemma {:induction false} SettleType(types: seq<string>, names: seq<string>, t: TypeName)
    requires WellFormed(t) && TypesSettled(types, names)
    ensures TypesSettled(TypesAfter(types, t), NamesAfter(names, TypeNames(t)))
  {
    var after := NamesAfter(names, TypeNames(t));
    NamesGrow(names, TypeNames(t));
    forall u | WellFormed(u) && Full(u) in TypesAfter(types, t) ensures Settled(after, TypeNames(u)) {
      if Full(u) in types {
        SettledGrows(names, after, TypeNames(u));
      } else {
        FullInjective(u, t);
      }
    }
  }

  lemma {:induction false} TypeRoundTrip(types: seq<string>, names: seq<string>, t: TypeName)
    requires WellFormed(t) && TypesSettled(types, names)
    ensures DecodeType(types, names, EncodeType(types, names, t)) == Some((Full(t), NamesAfter(names, TypeNames(t))))
  {
    if |Full(t)| >= 2 && Full(t) in types {
      IndexOfIn(types, Full(t));
      SettledStays(names, TypeNames(t));
    } else if t.Named? {
      NamesRoundTrip(names, t.parts);
    }
  }

  function Fulls(ts: seq<TypeName>): seq<string> { if ts == [] then [] else [Full(ts[0])] + Fulls(ts[1..]) }

  lemma {:induction false} TypesRoundTrip(types: seq<string>, names: seq<string>, ts: seq<TypeName>)
    requires TypesSettled(types, names) && forall i :: 0 <= i < |ts| ==> WellFormed(ts[i])
    ensures DecodeTypes(types, names, EncodeTypes(types, names, ts)) == Some(Fulls(ts))
    decreases ts
  {
    if ts != [] {
      var t := ts[0];
      TypeRoundTrip(types, names, t);
      SettleType(types, names, t);
      TypesRoundTrip(TypesAfter(types, t), NamesAfter(names, TypeNames(t)), ts[1..]);
      var toks := EncodeTypes(types, names, ts);
      assert toks[0] == EncodeType(types, names, t);
      assert toks[1..] == EncodeTypes(TypesAfter(types, t), NamesAfter(names, TypeNames(t)), ts[1..]);
    }
  }

  /** A decoder that replays the two tables recovers the names and the full form of every type. */
  lemma {:induction false} RoundTrip(sig: Signature)
    requires forall i :: 0 <= i < |sig.types| ==> WellFormed(sig.types[i])
    ensures Decode(Encode(sig)) == Some((sig.names, Fulls(sig.types)))
  {
    NamesRoundTrip([], sig.names);
    assert TypesSettled([], NamesAfter([], sig.names));
    TypesRoundTrip([], NamesAfter([], sig.names), sig.types);
  }

  // ---- the mangler ----

  lemma {:induction false} EncodeNext(list: seq<string>, parts: seq<string>)
    requires parts != []
    ensures EncodeNames(list, parts) == [EncodeName(list, parts[0])] + EncodeNames(Entered(list, parts[0]), parts[1..])
    ensures NamesAfter(list, parts) == NamesAfter(Entered(list, parts[0]), parts[1..])
  {
  }

  lemma {:induction false} EncodeNextType(types: seq<string>, names: seq<string>, ts: seq<TypeName>)
    requires ts != []
    ensures EncodeTypes(types, names, ts)
         == [EncodeType(types, names, ts[0])]
           + EncodeTypes(TypesAfter(types, ts[0]), NamesAfter(names, TypeNames(ts[0])), ts[1..])
  {
  }

  class PreviousDeclarations {
    var prevTypes: Table
    var prevNames: Table
    ghost var types: seq<string>
    ghost var names: seq<string>

    ghost predicate Valid() reads this { Lists(prevTypes, types) && Lists(prevNames, names) }

    constructor ()
      ensures Valid() && types == [] && names == []
    {
      prevTypes, prevNames, types, names := map[], map[], [], [];
    }

    method CheckAndEnterName(s: string) returns (tok: NameTok)
      requires Valid()
      modifies this`prevNames, this`names
      ensures Valid() && tok == EncodeName(old(names), s) && names == Entered(old(names), s)
    {
      EnterLists(prevNames, names, s);
      if |prevNames| >= 10 {
        if s in prevNames {
          IndexOfTable(prevNames, names, s);
          return NameRef(prevNames[s]);
        }
      } else if s in prevNames {
        IndexOfTable(prevNames, names, s);
        return NameRef(prevNames[s]);
      } else {
        prevNames := prevNames[s := |prevNames|];
        names := names + [s];
      }
      tok := NameLit(s);
    }

    method EnterNames(parts: seq<string>) returns (toks: seq<NameTok>)
      requires Valid()
      modifies this`prevNames, this`names
      ensures Valid() && toks == EncodeNames(old(names), parts) && names == NamesAfter(old(names), parts)
    {
      toks := [];
      var i := 0;
      while i < |parts|
        invariant i <= |parts| && Valid()
        invariant toks + EncodeNames(names, parts[i..]) == EncodeNames(old(names), parts)
        invariant NamesAfter(names, parts[i..]) == NamesAfter(old(names), parts)
      {
        EncodeNext(names, parts[i..]);
        assert parts[i..][1..] == parts[i + 1..];
        ghost var done := toks;
        var tok := CheckAndEnterName(parts[i]);
        toks := toks + [tok];
        assert toks + EncodeNames(names, parts[i + 1..]) == done + ([tok] + EncodeNames(names, parts[i + 1..]));
        i := i + 1;
      }
    }

    /** The type's names are entered before it is known whether the type itself is a back reference. */
    method MangleType(t: TypeName) returns (tok: TypeTok)
      requires Valid()
      modifies this
      ensures Valid() && tok == EncodeType(old(types), old(names), t)
      ensures types == TypesAfter(old(types), t) && names == NamesAfter(old(names), TypeNames(t))
    {
      var written := PlainTok("");
      if t.Plain? {
        written := PlainTok(t.text);
      } else {
        var toks := EnterNames(t.parts);
        written := NamedTok(t.quals, t.code, toks);
      }
      var full := Full(t);
      if |full| < 2 { return written; }
      EnterLists(prevTypes, types, full);
      if full in prevTypes {
        IndexOfTable(prevTypes, types, full);
        return TypeRef(prevTypes[full]);
      }
      if |prevTypes| < 10 {
        prevTypes := prevTypes[full := |prevTypes|];
        types := types + [full];
      }
      tok := written;
    }
  }

  method MangleFunction(sig: Signature) returns (m: Mangled)
    ensures m == Encode(sig)
  {
    var prev := new PreviousDeclarations();
    var names := prev.EnterNames(sig.names);
    var toks, i := [], 0;
    while i < |sig.types|
      invariant i <= |sig.types| && prev.Valid() && fresh(prev)
      invariant toks + EncodeTypes(prev.types, prev.names, sig.types[i..])
        == EncodeTypes([], NamesAfter([], sig.names), sig.types)
    {
      EncodeNextType(prev.types, prev.names, sig.types[i..]);
      assert sig.types[i..][1..] == sig.types[i + 1..];
      ghost var done := toks;
      var tok := prev.MangleType(sig.types[i]);
      toks := toks + [tok];
      ghost var rest := EncodeTypes(prev.types, prev.names, sig.types[i + 1..]);
      assert toks + rest == done + ([tok] + rest);
      i := i + 1;
    }
    m := Mangled(names, toks);
  }
}
