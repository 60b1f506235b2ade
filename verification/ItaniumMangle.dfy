/**
 * Itanium-style substitutions (section 5.1 of the Itanium C++ ABI, "External Names", the
 * compression rules): every component of a mangled name gets a sequence id in base 36, and
 * is replaced by it when it comes again.
 */
module ItaniumMangle {
  import opened Positions

  // ---- base-36 sequence ids ----

  function Digit36(d: nat): char
    requires d < 36
  {
    if d < 10 then ('0' as int + d) as char else ('A' as int + (d - 10)) as char
  }

  function Value36(c: char): nat {
    if '0' <= c <= '9' then c as int - '0' as int else if 'A' <= c <= 'Z' then c as int - 'A' as int + 10 else 0
  }

  /** At least one digit, most significant first. */
  function Base36(n: nat): (s: string)
    ensures s != "" && forall i :: 0 <= i < |s| ==> IsDigit36(s[i])
  {
    if n < 36 then [Digit36(n)] else Base36(n / 36) + [Digit36(n % 36)]
  }

  predicate IsDigit36(c: char) { '0' <= c <= '9' || 'A' <= c <= 'Z' }

  function Read36(s: string): nat {
    if s == "" then 0 else 36 * Read36(s[..|s| - 1]) + Value36(s[|s| - 1])
  }

  lemma {:induction false} Base36Reads(n: nat)
    ensures Read36(Base36(n)) == n
  {
    var s := Base36(n);
    if n < 36 {
      assert s[..0] == "";
    } else {
      Base36Reads(n / 36);
      assert s[..|s| - 1] == Base36(n / 36);
    }
  }

  /** The digits as the loop makes them, least significant first. */
  method MakeBase36(n: nat) returns (s: string)
    ensures s == Base36(n)
  {
    s := [Digit36(n % 36)];
    var left: nat := n / 36;
    while left > 0
      invariant if left == 0 then s == Base36(n) else Base36(left) + s == Base36(n)
      decreases left
    {
      ghost var low := s;
      s := [Digit36(left % 36)] + s;
      if left < 36 {
        assert left % 36 == left;
      } else {
        assert Base36(left) + low == Base36(left / 36) + ([Digit36(left % 36)] + low);
      }
      left := left / 36;
    }
  }

  /** What stands for the k-th component. */
  function SubText(k: nat): string { if k == 0 then "S_" else "S" + Base36(k - 1) + "_" }

  function Id36(k: nat): string { if k == 0 then "" else Base36(k - 1) }

  lemma SubTextParts(k: nat)
    ensures SubText(k) == "S" + Id36(k) + "_" && '_' !in Id36(k)
    ensures |SubText(k)| >= 2 && SubText(k)[0] == 'S' && (SubText(k)[1] == '_' || IsDigit36(SubText(k)[1]))
  {
    if k > 0 {
      var d := Base36(k - 1);
      forall i | 0 <= i < |d| ensures d[i] != '_' { assert IsDigit36(d[i]); }
      assert SubText(k)[1] == d[0];
    }
  }

  lemma {:induction false} Id36Injective(j: nat, k: nat)
    requires Id36(j) == Id36(k)
    ensures j == k
  {
    if j > 0 && k > 0 {
      Base36Reads(j - 1);
      Base36Reads(k - 1);
    }
  }

  lemma {:induction false} SplitAt(a: string, b: string, x: string, y: string, c: char)
    requires c !in a && c !in b && a + [c] + x == b + [c] + y
    ensures a == b && x == y
  {
    var s, r := a + [c] + x, b + [c] + y;
    assert s[|a|] == c && r[|b|] == c;
    assert |a| == |b|;
    assert s[..|a|] == a && r[..|b|] == b;
    assert s[|a| + 1..] == x && r[|b| + 1..] == y;
  }

  /** Sequence ids decode uniquely, whatever follows them. */
  lemma {:induction false} SubTextSplit(j: nat, k: nat, x: string, y: string)
    requires SubText(j) + x == SubText(k) + y
    ensures j == k && x == y
  {
    SubTextParts(j);
    SubTextParts(k);
    var a, b := "S" + Id36(j), "S" + Id36(k);
    assert SubText(j) + x == a + ['_'] + x && SubText(k) + y == b + ['_'] + y;
    assert '_' !in "S";
    SplitAt(a, b, x, y, '_');
    assert a[1..] == Id36(j) && b[1..] == Id36(k);
    Id36Injective(j, k);
  }

  // ---- components ----

  /**
   * A component of a name: a fixed text (nothing, St, Sa, Ss or a simple type's letter), a
   * further identifier in a scope, or qualifiers, a pointer or a reference in front of a type.
   */
  datatype Comp = Base(text: string) | Extend(parent: Comp, id: string) | Prepend(quals: string, child: Comp)

  predicate IsQual(c: char) { c == 'r' || c == 'V' || c == 'K' || c == 'P' || c == 'R' || c == 'O' }

  /** The letter of a simple type: a lower-case letter other than r. */
  predicate IsLetter(c: char) { 'a' <= c <= 'z' && c != 'r' }

  predicate AllQuals(q: string) { forall i :: 0 <= i < |q| ==> IsQual(q[i]) }

  predicate StartsWithDigit(s: string) { s != "" && '0' <= s[0] <= '9' }

  /** A letter code of a simple type, or one of the abbreviations of the standard library. */
  predicate TypeBase(s: string) { s == "Sa" || s == "Ss" || (|s| == 1 && IsLetter(s[0])) }

  predicate ScopeBase(s: string) { s == "" || s == "St" }

  predicate WellFormed(c: Comp) {
    match c
    case Base(t) => ScopeBase(t) || TypeBase(t)
    case Extend(p, id) => StartsWithDigit(id) && WellFormed(p) && (p.Base? ==> ScopeBase(p.text))
    case Prepend(q, ch) => q != "" && AllQuals(q) && WellFormed(ch) && (ch.Base? ==> TypeBase(ch.text))
  }

  // ---- the table ----

  /** How a component already dealt with is written from now on. */
  function Sub(comps: seq<Comp>, c: Comp): string { if c.Base? then c.text else SubText(IndexOf(comps, c)) }

  predicate Ready(comps: seq<Comp>, c: Comp) { c.Base? || c in comps }

  /** A component whose part has been dealt with, and its key in the table. */
  predicate PartReady(comps: seq<Comp>, c: Comp) {
    match c
    case Base(_) => false
    case Extend(p, _) => Ready(comps, p)
    case Prepend(_, ch) => Ready(comps, ch)
  }

  function Key(comps: seq<Comp>, c: Comp): string {
    match c
    case Base(t) => t
    case Extend(p, id) => Sub(comps, p) + id
    case Prepend(q, ch) => q + Sub(comps, ch)
  }

  /** Substitutions, the scope texts and the type texts never run into one another. */
  lemma {:induction false} SubSplit(comps: seq<Comp>, a: Comp, b: Comp, x: string, y: string)
    requires WellFormed(a) && WellFormed(b) && Ready(comps, a) && Ready(comps, b)
    requires (a.Base? ==> ScopeBase(a.text)) && (b.Base? ==> ScopeBase(b.text)) && StartsWithDigit(x)
      && StartsWithDigit(y)
    requires Sub(comps, a) + x == Sub(comps, b) + y
    ensures a == b && x == y
  {
    if !a.Base? && !b.Base? {
      SubTextSplit(IndexOf(comps, a), IndexOf(comps, b), x, y);
      IndexOfIn(comps, a);
      IndexOfIn(comps, b);
    } else if a.Base? && b.Base? {
      ScopeSplit(a.text, x, b.text, y);
    } else if a.Base? {
      ScopeIsNoSub(a.text, x, IndexOf(comps, b), y);
    } else {
      ScopeIsNoSub(b.text, y, IndexOf(comps, a), x);
    }
  }

  lemma ScopeSplit(a: string, x: string, b: string, y: string)
    requires ScopeBase(a) && ScopeBase(b) && StartsWithDigit(x) && StartsWithDigit(y) && a + x == b + y
    ensures a == b && x == y
  {
    assert a != "" ==> (a + x)[0] == 'S' && (a + x)[2..] == x;
    assert a == "" ==> (a + x)[0] == x[0];
    assert b != "" ==> (b + y)[0] == 'S' && (b + y)[2..] == y;
    assert b == "" ==> (b + y)[0] == y[0];
    assert a == "" ==> a + x == x;
    assert b == "" ==> b + y == y;
  }

  lemma ScopeIsNoSub(a: string, x: string, k: nat, y: string)
    requires ScopeBase(a) && StartsWithDigit(x)
    ensures a + x != SubText(k) + y
  {
    SubTextParts(k);
    var s := SubText(k) + y;
    assert s[0] == 'S' && s[1] == SubText(k)[1];
    if a == "" { assert (a + x)[0] == x[0]; } else { assert (a + x)[1] == 't'; }
  }

  lemma {:induction false} TypeText(comps: seq<Comp>, a: Comp)
    requires WellFormed(a) && Ready(comps, a) && (a.Base? ==> TypeBase(a.text))
    ensures Sub(comps, a) != "" && !IsQual(Sub(comps, a)[0])
  {
    if !a.Base? { SubTextParts(IndexOf(comps, a)); }
  }

  lemma {:induction false} SubInjective(comps: seq<Comp>, a: Comp, b: Comp)
    requires WellFormed(a) && WellFormed(b) && Ready(comps, a) && Ready(comps, b)
    requires (a.Base? ==> TypeBase(a.text)) && (b.Base? ==> TypeBase(b.text)) && Sub(comps, a) == Sub(comps, b)
    ensures a == b
  {
    if !a.Base? { SubTextParts(IndexOf(comps, a)); IndexOfIn(comps, a); }
    if !b.Base? { SubTextParts(IndexOf(comps, b)); IndexOfIn(comps, b); }
    if !a.Base? && !b.Base? {
      assert SubText(IndexOf(comps, a)) + "" == SubText(IndexOf(comps, b)) + "";
      SubTextSplit(IndexOf(comps, a), IndexOf(comps, b), "", "");
    }
  }

  lemma {:induction false} QualSplit(p: string, x: string, q: string, y: string)
    requires AllQuals(p) && AllQuals(q) && x != "" && y != "" && !IsQual(x[0]) && !IsQual(y[0]) && p + x == q + y
    ensures p == q && x == y
  {
    var s, t := p + x, q + y;
    assert s[|p|] == x[0] && t[|q|] == y[0];
    assert |p| == |q|;
    assert s[..|p|] == p && t[..|q|] == q;
    assert s[|p|..] == x && t[|q|..] == y;
  }

  /** Two components have the same key exactly when they are structurally equal. */
  lemma {:induction false} KeyInjective(comps: seq<Comp>, a: Comp, b: Comp)
    requires WellFormed(a) && WellFormed(b) && PartReady(comps, a) && PartReady(comps, b)
      && Key(comps, a) == Key(comps, b)
    ensures a == b
  {
    if a.Extend? && b.Extend? {
      SubSplit(comps, a.parent, b.parent, a.id, b.id);
    } else if a.Prepend? && b.Prepend? {
      TypeText(comps, a.child);
      TypeText(comps, b.child);
      QualSplit(a.quals, Sub(comps, a.child), b.quals, Sub(comps, b.child));
      SubInjective(comps, a.child, b.child);
    } else if a.Extend? {
      FirstOfKeys(comps, a, b);
    } else {
      FirstOfKeys(comps, b, a);
    }
  }

  lemma {:induction false} FirstOfKeys(comps: seq<Comp>, a: Comp, b: Comp)
    requires WellFormed(a) && WellFormed(b) && PartReady(comps, a) && PartReady(comps, b) && a.Extend? && b.Prepend?
    ensures Key(comps, a) != Key(comps, b)
  {
    assert Key(comps, b)[0] == b.quals[0];
    if a.parent.Base? {
      if a.parent.text == "" { assert Key(comps, a)[0] == a.id[0]; } else { assert Key(comps, a)[0] == 'S'; }
    } else {
      SubTextParts(IndexOf(comps, a.parent));
      assert Key(comps, a)[0] == 'S';
    }
  }

  // ---- what the table means ----

  type Table = map<string, nat>

  ghost predicate EntryAt(table: Table, comps: seq<Comp>, k: nat) {
    k < |comps| ==>
      && WellFormed(comps[k]) && PartReady(comps[..k], comps[k]) && comps[k] !in comps[..k]
      && Key(comps[..k], comps[k]) in table && table[Key(comps[..k], comps[k])] == k
  }

  /** Each key belongs to one component, whose own part is an earlier one. */
  ghost predicate TableOk(table: Table, comps: seq<Comp>) {
    && |table| == |comps|
    && (forall k: nat {:trigger EntryAt(table, comps, k)} :: EntryAt(table, comps, k))
    && (forall s {:trigger table[s]} :: s in table ==>
      table[s] < |comps| && Key(comps[..table[s]], comps[table[s]]) == s)
  }

  /** Later components do not change an earlier key. */
  lemma {:induction false} KeyGrows(comps: seq<Comp>, more: seq<Comp>, c: Comp)
    requires PartReady(comps, c)
    ensures Key(comps + more, c) == Key(comps, c) && PartReady(comps + more, c)
  {
    match c
    case Extend(p, _) => if !p.Base? { IndexOfGrows(comps, more, p); }
    case Prepend(_, ch) => if !ch.Base? { IndexOfGrows(comps, more, ch); }
  }

  lemma {:induction false} KeyOfEntry(table: Table, comps: seq<Comp>, k: nat)
    requires TableOk(table, comps) && k < |comps|
    ensures WellFormed(comps[k]) && PartReady(comps, comps[k])
    ensures Key(comps, comps[k]) == Key(comps[..k], comps[k]) && Key(comps, comps[k]) in table
      && table[Key(comps, comps[k])] == k
  {
    assert EntryAt(table, comps, k);
    assert comps[..k] + comps[k..] == comps;
    KeyGrows(comps[..k], comps[k..], comps[k]);
  }

  /** A key is in the table exactly when the component has been seen, and then leads to it. */
  lemma {:induction false} SeenIff(table: Table, comps: seq<Comp>, c: Comp)
    requires TableOk(table, comps) && WellFormed(c) && PartReady(comps, c)
    ensures Key(comps, c) in table <==> c in comps
    ensures c in comps ==> table[Key(comps, c)] == IndexOf(comps, c)
  {
    if c in comps {
      IndexOfIn(comps, c);
      KeyOfEntry(table, comps, IndexOf(comps, c));
    } else if Key(comps, c) in table {
      KeyIsNew(table, comps, c);
    }
  }

  lemma {:induction false} KeyIsNew(table: Table, comps: seq<Comp>, c: Comp)
    requires TableOk(table, comps) && WellFormed(c) && PartReady(comps, c) && Key(comps, c) in table
    ensures c in comps
  {
    var k := table[Key(comps, c)];
    KeyOfEntry(table, comps, k);
    KeyInjective(comps, c, comps[k]);
  }

  lemma {:induction false} EnterNew(table: Table, comps: seq<Comp>, c: Comp)
    requires TableOk(table, comps) && WellFormed(c) && PartReady(comps, c) && c !in comps
    ensures TableOk(table[Key(comps, c) := |table|], comps + [c]) && Key(comps, c) !in table
  {
    SeenIff(table, comps, c);
    var table', comps' := table[Key(comps, c) := |table|], comps + [c];
    forall k: nat ensures EntryAt(table', comps', k) {
      assert EntryAt(table, comps, k);
      if k < |comps'| {
        assert comps'[..k] == comps[..k];
        if k < |comps| { assert table[Key(comps[..k], comps[k])] == k; }
      }
    }
    forall s | s in table' ensures table'[s] < |comps'| && Key(comps'[..table'[s]], comps'[table'[s]]) == s {
      assert comps'[..table'[s]] == comps[..table'[s]];
      if s == Key(comps, c) { assert comps[..|comps|] == comps; }
    }
  }

  function Enter(comps: seq<Comp>, c: Comp): seq<Comp> { if c in comps then comps else comps + [c] }

  class PrevPrefixes {
    var prevSeen: Table
    ghost var comps: seq<Comp>

    ghost predicate Valid() reads this { TableOk(prevSeen, comps) }

    constructor ()
      ensures Valid() && comps == []
    {
      prevSeen, comps := map[], [];
    }

    /** The substitution of a component: an earlier one's if and only if it is structurally equal. */
    method CheckAndEnter(prefix: string, ghost c: Comp) returns (found: bool, substitute: string)
      requires Valid() && WellFormed(c) && PartReady(comps, c) && prefix == Key(comps, c)
      modifies this
      ensures Valid() && found == (c in old(comps)) && comps == Enter(old(comps), c)
      ensures substitute == Sub(comps, c)
    {
      SeenIff(prevSeen, comps, c);
      found := prefix in prevSeen;
      var id := |prevSeen|;
      if found {
        id := prevSeen[prefix];
      } else {
        EnterNew(prevSeen, comps, c);
        IndexOfNew(comps, c);
        prevSeen := prevSeen[prefix := id];
        comps := comps + [c];
      }
      if id == 0 {
        substitute := "S_";
      } else {
        var digits := MakeBase36(id - 1);
        substitute := "S" + digits + "_";
      }
    }
  }

  // ---- types ----

  /** A class or simple type under qualifiers, pointers and references, outermost last. */
  datatype CppType = CppType(base: string, ids: seq<string>, indirections: seq<string>)

  predicate TypeOk(t: CppType) {
    && (if t.ids == [] then TypeBase(t.base) else ScopeBase(t.base))
    && (forall i :: 0 <= i < |t.ids| ==> StartsWithDigit(t.ids[i]))
    && (forall i :: 0 <= i < |t.indirections| ==> t.indirections[i] != "" && AllQuals(t.indirections[i]))
  }

  function Named(base: string, ids: seq<string>): Comp {
    if ids == [] then Base(base) else Extend(Named(base, ids[..|ids| - 1]), ids[|ids| - 1])
  }

  function Indirect(c: Comp, qs: seq<string>): Comp {
    if qs == [] then c else Prepend(qs[|qs| - 1], Indirect(c, qs[..|qs| - 1]))
  }

  function CompOf(t: CppType): Comp { Indirect(Named(t.base, t.ids), t.indirections) }

  lemma {:induction false} NamedOk(base: string, ids: seq<string>)
    requires ScopeBase(base) || TypeBase(base)
    requires ids != [] ==> ScopeBase(base)
    requires forall i :: 0 <= i < |ids| ==> StartsWithDigit(ids[i])
    ensures WellFormed(Named(base, ids)) && (Named(base, ids).Base? <==> ids == [])
  {
    if ids != [] { NamedOk(base, ids[..|ids| - 1]); }
  }

  lemma {:induction false} IndirectOk(c: Comp, qs: seq<string>)
    requires WellFormed(c) && (c.Base? ==> TypeBase(c.text))
    requires forall i :: 0 <= i < |qs| ==> qs[i] != "" && AllQuals(qs[i])
    ensures WellFormed(Indirect(c, qs)) && (Indirect(c, qs).Base? ==> TypeBase(Indirect(c, qs).text))
  {
    if qs != [] { IndirectOk(c, qs[..|qs| - 1]); }
  }

  /** The scopes and the name, each entered in turn. */
  method MangleName(prevs: PrevPrefixes, base: string, ids: seq<string>) returns (substitute: string)
    requires prevs.Valid() && (ScopeBase(base) || TypeBase(base)) && (ids != [] ==> ScopeBase(base))
    requires forall i :: 0 <= i < |ids| ==> StartsWithDigit(ids[i])
    modifies prevs
    ensures prevs.Valid() && old(prevs.comps) <= prevs.comps
    ensures Ready(prevs.comps, Named(base, ids)) && substitute == Sub(prevs.comps, Named(base, ids))
  {
    substitute := base;
    var i := 0;
    while i < |ids|
      invariant i <= |ids| && prevs.Valid() && old(prevs.comps) <= prevs.comps
      invariant Ready(prevs.comps, Named(base, ids[..i])) && substitute == Sub(prevs.comps, Named(base, ids[..i]))
    {
      NamedOk(base, ids[..i + 1]);
      assert ids[..i + 1][..i] == ids[..i];
      ghost var c := Named(base, ids[..i + 1]);
      var found, s := prevs.CheckAndEnter(substitute + ids[i], c);
      substitute := s;
      i := i + 1;
    }
    assert ids[..i] == ids;
  }

  /** Qualifiers, pointers and references, each entered in turn. */
  method MangleIndirections(prevs: PrevPrefixes, name: string, ghost c: Comp,
                            qs: seq<string>) returns (substitute: string)
    requires prevs.Valid() && WellFormed(c) && (c.Base? ==> TypeBase(c.text)) && Ready(prevs.comps, c)
      && name == Sub(prevs.comps, c)
    requires forall i :: 0 <= i < |qs| ==> qs[i] != "" && AllQuals(qs[i])
    modifies prevs
    ensures prevs.Valid() && old(prevs.comps) <= prevs.comps
    ensures Ready(prevs.comps, Indirect(c, qs)) && substitute == Sub(prevs.comps, Indirect(c, qs))
  {
    substitute := name;
    var i := 0;
    while i < |qs|
      invariant i <= |qs| && prevs.Valid() && old(prevs.comps) <= prevs.comps
      invariant Ready(prevs.comps, Indirect(c, qs[..i])) && substitute == Sub(prevs.comps, Indirect(c, qs[..i]))
    {
      IndirectOk(c, qs[..i + 1]);
      assert qs[..i + 1][..i] == qs[..i];
      ghost var d := Indirect(c, qs[..i + 1]);
      var found, s := prevs.CheckAndEnter(qs[i] + substitute, d);
      substitute := s;
      i := i + 1;
    }
    assert qs[..i] == qs;
  }

  /** All components of the type are entered in turn; its substitution stands for its structure. */
  method MangleType(prevs: PrevPrefixes, t: CppType) returns (substitute: string)
    requires prevs.Valid() && TypeOk(t)
    modifies prevs
    ensures prevs.Valid() && old(prevs.comps) <= prevs.comps
    ensures Ready(prevs.comps, CompOf(t)) && substitute == Sub(prevs.comps, CompOf(t))
  {
    var name := MangleName(prevs, t.base, t.ids);
    NamedOk(t.base, t.ids);
    substitute := MangleIndirections(prevs, name, Named(t.base, t.ids), t.indirections);
  }

  /** In one run two types have the same substitution exactly when they are structurally equal. */
  lemma {:induction false} SameSubstitutionIff(comps: seq<Comp>, a: Comp, b: Comp)
    requires WellFormed(a) && WellFormed(b) && Ready(comps, a) && Ready(comps, b)
    requires (a.Base? ==> TypeBase(a.text)) && (b.Base? ==> TypeBase(b.text))
    ensures Sub(comps, a) == Sub(comps, b) <==> a == b
  {
    if Sub(comps, a) == Sub(comps, b) { SubInjective(comps, a, b); }
  }
}
