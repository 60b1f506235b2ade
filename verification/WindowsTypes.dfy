/**
 * From types to their mangled spelling: the modifier list of a handle type becomes pointer and
 * reference qualifiers, by the state machine of the mangler.
 */
module WindowsTypes {
  import opened Wrappers
  import opened WindowsMangle
  import opened WindowsText

  datatype Modifier = Modifier(pointer: bool, isConst: bool, isVolatile: bool, isRestrict: bool)

  datatype Reference = NotReference | LValue | RValue

  const NONE := Modifier(false, false, false, false)

  function BaseMode(wide: bool): string { if wide then "E" else "" }

  /** one_qualifier_set, for a pointer. */
  function PointerText(wide: bool, m: Modifier): string {
    if m.isConst && m.isVolatile then "S" + BaseMode(wide)
    else if m.isConst then "Q" + BaseMode(wide)
    else if m.isVolatile then "R" + BaseMode(wide)
    else if m.isRestrict then "P" + BaseMode(wide) + "I"
    else "P" + BaseMode(wide)
  }

  /** one_qualifier_set, for what is pointed to. */
  function TargetText(m: Modifier): string {
    if m.isConst && m.isVolatile then "D" else if m.isConst then "B" else if m.isVolatile then "C" else "A"
  }

  function ReferenceText(wide: bool, r: Reference): string {
    match r
    case NotReference => ""
    case LValue => "A" + BaseMode(wide)
    case RValue => "$$Q" + BaseMode(wide)
  }

  // ---- what the qualifiers say ----

  /** The pointers at the front of a modifier list, innermost first. */
  function Pointers(ms: seq<Modifier>): seq<Modifier> {
    if ms == [] || !ms[0].pointer then [] else [ms[0]] + Pointers(ms[1..])
  }

  /** The first modifier that is not a pointer qualifies the outermost one; the rest are ignored. */
  function Outermost(ms: seq<Modifier>): Modifier {
    if ms == [] then NONE else if !ms[0].pointer then ms[0] else Outermost(ms[1..])
  }

  /** What the outermost of these pointers points to, and so on inwards. */
  function Below(wide: bool, ps: seq<Modifier>): string
    decreases |ps|, 0
  {
    if ps == [] then ""
    else TargetText(ps[|ps| - 1]) + Through(wide, ps[|ps| - 1], ps[..|ps| - 1])
  }

  /** A pointer qualified by `m` to what lies below, if there is one. */
  function Through(wide: bool, m: Modifier, ps: seq<Modifier>): string
    decreases |ps|, 1
  {
    if ps == [] then "" else PointerText(wide, m) + Below(wide, ps)
  }

  /** The qualifiers of a type: its reference, then its pointers from the outermost in. */
  function QualsOf(wide: bool, ms: seq<Modifier>, r: Reference): string {
    var ps, m := Pointers(ms), Outermost(ms);
    if r.NotReference? then Through(wide, m, ps) else ReferenceText(wide, r) + (TargetText(m) + Through(wide, m, ps))
  }

  // ---- they can be read back ----

  lemma {:induction false} PointerGroup(wide: bool, m: Modifier, below: Modifier)
    ensures var g := PointerText(wide, m) + TargetText(below); GroupLen(wide, g) == |g| > 0
  {
    var p, t := PointerText(wide, m), TargetText(below);
    var g := p + t;
    assert g[0] == p[0] && g[|p|] == t[0] && |t| == 1;
    assert LettersLen(g) == 1;
    if wide { assert g[1] == p[1] == 'E'; }
    assert HeadLen(wide, g) == |p|;
  }

  lemma {:induction false} ReferenceGroup(wide: bool, r: Reference, below: Modifier)
    requires !r.NotReference?
    ensures var g := ReferenceText(wide, r) + TargetText(below); GroupLen(wide, g) == |g| > 0
  {
    var p, t := ReferenceText(wide, r), TargetText(below);
    var g := p + t;
    assert forall i :: 0 <= i < |p| ==> g[i] == p[i];
    assert g[|p|] == t[0] && |t| == 1;
    assert LettersLen(g) == if r.LValue? then 1 else 3;
    assert HeadLen(wide, g) == |p|;
  }

  lemma {:induction false} ThroughSplits(wide: bool, m: Modifier, ps: seq<Modifier>)
    requires ps != []
    ensures var last, inner := ps[|ps| - 1], ps[..|ps| - 1];
      Through(wide, m, ps) == PointerText(wide, m) + TargetText(last) + Through(wide, last, inner)
  {
    var p, t, rest := PointerText(wide, m), TargetText(ps[|ps| - 1]), Through(wide, ps[|ps| - 1], ps[..|ps| - 1]);
    assert p + (t + rest) == (p + t) + rest;
  }

  lemma {:induction false} ThroughIsQuals(wide: bool, m: Modifier, ps: seq<Modifier>)
    ensures IsQuals(wide, Through(wide, m, ps))
    decreases |ps|
  {
    if ps != [] {
      var last, inner := ps[|ps| - 1], ps[..|ps| - 1];
      ThroughIsQuals(wide, last, inner);
      PointerGroup(wide, m, last);
      var g := PointerText(wide, m) + TargetText(last);
      ThroughSplits(wide, m, ps);
      QualsCons(wide, g, Through(wide, last, inner));
    }
  }

  lemma {:induction false} QualsPut(wide: bool, p: string, t: string, rest: string)
    requires GroupLen(wide, p + t) == |p + t| > 0 && IsQuals(wide, rest)
    ensures IsQuals(wide, p + (t + rest))
  {
    QualsCons(wide, p + t, rest);
    assert p + (t + rest) == (p + t) + rest;
  }

  lemma {:induction false} QualsOfIsQuals(wide: bool, ms: seq<Modifier>, r: Reference)
    ensures IsQuals(wide, QualsOf(wide, ms, r))
  {
    var ps, m := Pointers(ms), Outermost(ms);
    ThroughIsQuals(wide, m, ps);
    if !r.NotReference? {
      ReferenceGroup(wide, r, m);
      QualsPut(wide, ReferenceText(wide, r), TargetText(m), Through(wide, m, ps));
    }
  }

  // ---- which modifier lists share a spelling ----

  /** One level: the letters of a pointer or reference, and the letter of what it points to. */
  datatype Level = Level(head: string, target: string)

  function PointerLevels(wide: bool, m: Modifier, ps: seq<Modifier>): seq<Level>
    decreases |ps|
  {
    if ps == [] then []
    else
      var last := ps[|ps| - 1];
      [Level(PointerText(wide, m), TargetText(last))] + PointerLevels(wide, last, ps[..|ps| - 1])
  }

  /** The levels of a type from the outside in: which letters each has follows from its const, volatile and restrict. */
  function Levels(wide: bool, ms: seq<Modifier>, r: Reference): seq<Level> {
    var m := Outermost(ms);
    (if r.NotReference? then [] else [Level(ReferenceText(wide, r), TargetText(m))])
      + PointerLevels(wide, m, Pointers(ms))
  }

  function LevelsText(ls: seq<Level>): string {
    if ls == [] then "" else (ls[0].head + ls[0].target) + LevelsText(ls[1..])
  }

  predicate ReadableLevel(wide: bool, l: Level) {
    var g := l.head + l.target;
    |l.target| == 1 && GroupLen(wide, g) == |g| > 0
  }

  predicate Readable(wide: bool, ls: seq<Level>) { forall i :: 0 <= i < |ls| ==> ReadableLevel(wide, ls[i]) }

  lemma {:induction false} PointerLevelsText(wide: bool, m: Modifier, ps: seq<Modifier>)
    ensures LevelsText(PointerLevels(wide, m, ps)) == Through(wide, m, ps) && Readable(wide, PointerLevels(wide, m, ps))
    decreases |ps|
  {
    if ps != [] {
      var last, inner := ps[|ps| - 1], ps[..|ps| - 1];
      PointerLevelsText(wide, last, inner);
      PointerGroup(wide, m, last);
      ThroughSplits(wide, m, ps);
      var ls := PointerLevels(wide, m, ps);
      assert ls[1..] == PointerLevels(wide, last, inner);
    }
  }

  lemma {:induction false} LevelsSpell(wide: bool, ms: seq<Modifier>, r: Reference)
    ensures LevelsText(Levels(wide, ms, r)) == QualsOf(wide, ms, r) && Readable(wide, Levels(wide, ms, r))
  {
    var m, ps := Outermost(ms), Pointers(ms);
    var rest := PointerLevels(wide, m, ps);
    PointerLevelsText(wide, m, ps);
    if r.NotReference? {
      assert [] + rest == rest;
    } else {
      ReferenceGroup(wide, r, m);
      var ls := [Level(ReferenceText(wide, r), TargetText(m))] + rest;
      assert ls[1..] == rest;
      Regroup(ReferenceText(wide, r), TargetText(m), LevelsText(rest));
    }
  }

  lemma {:induction false} LevelsInjective(wide: bool, a: seq<Level>, b: seq<Level>)
    requires Readable(wide, a) && Readable(wide, b) && LevelsText(a) == LevelsText(b)
    ensures a == b
    decreases |a|
  {
    if a != [] { FirstLevel(wide, a); }
    if b != [] { FirstLevel(wide, b); }
    if a != [] && b != [] {
      var g, h := a[0].head + a[0].target, b[0].head + b[0].target;
      assert LevelsText(a)[..|g|] == g && LevelsText(b)[..|h|] == h;
      assert a[0] == b[0] by { SameLevel(a[0], b[0]); }
      assert LevelsText(a)[|g|..] == LevelsText(a[1..]) && LevelsText(b)[|h|..] == LevelsText(b[1..]);
      LevelsInjective(wide, a[1..], b[1..]);
      assert a == [a[0]] + a[1..] && b == [b[0]] + b[1..];
    }
  }

  lemma {:induction false} FirstLevel(wide: bool, ls: seq<Level>)
    requires ls != [] && Readable(wide, ls)
    ensures GroupLen(wide, LevelsText(ls)) == |ls[0].head + ls[0].target| > 0
  {
    assert ReadableLevel(wide, ls[0]);
    GroupStays(wide, ls[0].head + ls[0].target, LevelsText(ls[1..]));
  }

  lemma {:induction false} SameLevel(a: Level, b: Level)
    requires |a.target| == 1 && |b.target| == 1 && a.head + a.target == b.head + b.target
    ensures a == b
  {
    var g := a.head + a.target;
    assert |a.head| == |b.head|;
    assert a.head == g[..|a.head|] && b.head == g[..|b.head|];
    assert a.target == g[|a.head|..] && b.target == g[|b.head|..];
  }

  /** Two modifier lists have the same qualifiers if and only if they have the same letters at every level. */
  lemma {:induction false} SameSpellingIff(wide: bool, ms: seq<Modifier>, r: Reference, ms': seq<Modifier>,
                                           r': Reference)
    ensures QualsOf(wide, ms, r) == QualsOf(wide, ms', r') <==> Levels(wide, ms, r) == Levels(wide, ms', r')
  {
    LevelsSpell(wide, ms, r);
    LevelsSpell(wide, ms', r');
    if QualsOf(wide, ms, r) == QualsOf(wide, ms', r') {
      LevelsInjective(wide, Levels(wide, ms, r), Levels(wide, ms', r'));
    }
  }

  // ---- the state machine ----

  lemma {:induction false} PointersSnoc(ms: seq<Modifier>, m: Modifier)
    ensures AllPointers(ms) ==> Pointers(ms) == ms && Outermost(ms) == NONE
    ensures AllPointers(ms) && m.pointer ==> Pointers(ms + [m]) == ms + [m] && Outermost(ms + [m]) == NONE
    ensures AllPointers(ms) && !m.pointer ==> Pointers(ms + [m]) == ms && Outermost(ms + [m]) == m
    ensures !AllPointers(ms) ==> Pointers(ms + [m]) == Pointers(ms) && Outermost(ms + [m]) == Outermost(ms)
    ensures AllPointers(ms + [m]) <==> AllPointers(ms) && m.pointer
  {
    if ms != [] {
      var rest, more := ms[1..], ms + [m];
      assert more[1..] == rest + [m] && more[0] == ms[0];
      AllPointersFirst(ms);
      AllPointersFirst(more);
      PointersSnoc(rest, m);
      assert [ms[0]] + rest == ms && [ms[0]] + (rest + [m]) == more;
    } else {
      assert [m][1..] == [];
    }
  }

  lemma {:induction false} BelowSnoc(wide: bool, ps: seq<Modifier>, m: Modifier)
    ensures Below(wide, ps + [m]) == TargetText(m) + Through(wide, m, ps)
  {
    assert (ps + [m])[..|ps|] == ps;
  }

  lemma {:induction false} AllPointersFirst(ms: seq<Modifier>)
    requires ms != []
    ensures AllPointers(ms) <==> ms[0].pointer && AllPointers(ms[1..])
  {
    assert forall i :: 0 < i < |ms| ==> ms[i] == ms[1..][i - 1];
  }

  predicate AllPointers(ms: seq<Modifier>) { forall i :: 0 <= i < |ms| ==> ms[i].pointer }

  class QualsState {
    const wide: bool
    const reference: Reference
    var lastIsPointer: bool
    var finished: bool
    var result: string
    ghost var seen: seq<Modifier>

    /** While only pointers were seen the text lacks its outermost pointer; after that it lacks only the reference. */
    ghost predicate Valid() reads this {
      if finished then
        && !AllPointers(seen) && !lastIsPointer
        && result == (if reference.NotReference? then "" else TargetText(Outermost(seen)))
          + Through(wide, Outermost(seen), Pointers(seen))
      else AllPointers(seen) && lastIsPointer == (seen != []) && result == Below(wide, seen)
    }

    constructor (wide: bool, reference: Reference)
      ensures Valid() && seen == [] && !finished && this.wide == wide && this.reference == reference
    {
      this.wide, this.reference := wide, reference;
      lastIsPointer, finished, result, seen := false, false, "", [];
    }

    method HandleModifier(m: Modifier)
      requires Valid()
      modifies this
      ensures Valid() && seen == old(seen) + [m] && (!m.pointer ==> finished)
    {
      ghost var before := seen;
      PointersSnoc(seen, m);
      BelowSnoc(wide, seen, m);
      seen := seen + [m];
      if finished || (!m.pointer && !lastIsPointer && reference.NotReference?) {
        finished := true;
        return;
      }
      result := (if lastIsPointer then PointerText(wide, m) else TargetText(m)) + result;
      assert result == if before == [] then TargetText(m) + "" else Through(wide, m, before);
      if lastIsPointer && (m.pointer || !reference.NotReference?) { result := TargetText(m) + result; }
      lastIsPointer := m.pointer;
      if !m.pointer { finished := true; }
    }

    method Final()
      requires Valid()
      modifies this
      ensures result == QualsOf(wide, old(seen), reference)
    {
      PointersSnoc(seen, NONE);
      if !finished { HandleModifier(NONE); }
      assert !lastIsPointer;   // so the source's last pointer letter is never written
      if !reference.NotReference? { result := ReferenceText(wide, reference) + result; }
    }
  }

  method MangleQuals(wide: bool, ms: seq<Modifier>, r: Reference) returns (q: string)
    ensures q == QualsOf(wide, ms, r) && IsQuals(wide, q)
  {
    var state := new QualsState(wide, r);
    var i := 0;
    while i < |ms|
      invariant i <= |ms| && state.Valid() && state.seen == ms[..i] && state.wide == wide && state.reference == r
      invariant fresh(state)
    {
      state.HandleModifier(ms[i]);
      i := i + 1;
    }
    assert ms[..i] == ms;
    state.Final();
    q := state.result;
    QualsOfIsQuals(wide, ms, r);
  }

  // ---- types ----

  datatype Kind = Simple | Struct | Class | Union | Enum

  datatype Handle = Handle(kind: Kind, name: string, enclosing: seq<string>, namespaces: seq<string>,
                           modifiers: seq<Modifier>, reference: Reference)

  datatype HalideType = Int(bits: nat) | UInt(bits: nat) | Float(bits: nat) | Pointer(handle: Handle) | NullHandle

  function SimpleCode(name: string): Result<string> {
    if name == "void" then Ok("X")
    else if name == "bool" then Ok("_N")
    else if name == "char" then Ok("D")
    else if name == "int8_t" then Ok("C")
    else if name == "uint8_t" then Ok("E")
    else if name == "int16_t" then Ok("F")
    else if name == "uint16_t" then Ok("G")
    else if name == "int32_t" then Ok("H")
    else if name == "uint32_t" then Ok("I")
    else if name == "int64_t" then Ok("_J")
    else if name == "uint64_t" then Ok("_K")
    else if name == "float" then Ok("M")
    else if name == "double" then Ok("N")
    else Err("Unknown type name")
  }

  function KindCode(k: Kind): string {
    match k
    case Struct => "U"
    case Class => "V"
    case Union => "T"
    case Enum => "W4"
    case Simple => ""
  }

  function Reversed(s: seq<string>): seq<string> { if s == [] then [] else [s[|s| - 1]] + Reversed(s[..|s| - 1]) }

  function HandleName(wide: bool, h: Handle): Result<TypeName> {
    var q := QualsOf(wide, h.modifiers, h.reference);
    if h.kind.Simple? then
      var c := SimpleCode(h.name);
      if c.Err? then Err(c.error) else Ok(Plain(q + c.value))
    else Ok(Named(q, KindCode(h.kind), [h.name] + Reversed(h.enclosing) + Reversed(h.namespaces)))
  }

  const VOID_STAR := Handle(Simple, "void", [], [], [NONE.(pointer := true)], NotReference)

  /** mangle_type, before the tables are consulted. */
  function NameOf(wide: bool, t: HalideType): Result<TypeName> {
    match t
    case Int(bits) =>
      if bits == 8 then Ok(Plain("C")) else if bits == 16 then Ok(Plain("F"))
      else if bits == 32 then Ok(Plain("H")) else if bits == 64 then Ok(Plain("_J")) else Err("Unexpected integer size")
    case UInt(bits) =>
      if bits == 1 then Ok(Plain("_N")) else if bits == 8 then Ok(Plain("E")) else if bits == 16 then Ok(Plain("G"))
      else if bits == 32 then Ok(Plain("I")) else if bits == 64 then Ok(Plain("_K"))
        else Err("Unexpected unsigned integer size")
    case Float(bits) =>
      if bits == 32 then Ok(Plain("M")) else if bits == 64 then Ok(Plain("N"))
        else Err("Unexpected floating-point type size")
    case Pointer(h) => HandleName(wide, h)
    case NullHandle => HandleName(wide, VOID_STAR)
  }

  /** The names of a handle type are identifiers. */
  predicate ProperNames(t: HalideType) {
    t.Pointer? && !t.handle.kind.Simple? ==>
      IsName(t.handle.name) && AllNames(t.handle.enclosing) && AllNames(t.handle.namespaces)
  }

  lemma {:induction false} ReversedNames(s: seq<string>)
    requires AllNames(s)
    ensures AllNames(Reversed(s)) && |Reversed(s)| == |s|
  {
    if s != [] { ReversedNames(s[..|s| - 1]); }
  }

  lemma {:induction false} SpelledPlain(wide: bool, q: string, b: string)
    requires IsQuals(wide, q) && b in BASES
    ensures Spelled(wide, Plain(q + b))
  {
    BasesNoKind(b);
    QualsEnd(wide, q, b);
    assert (q + b)[|q|..] == b;
  }

  lemma {:induction false} HandleSpelled(wide: bool, h: Handle)
    requires HandleName(wide, h).Ok? && ProperNames(Pointer(h))
    ensures Spelled(wide, HandleName(wide, h).value)
  {
    var q := QualsOf(wide, h.modifiers, h.reference);
    QualsOfIsQuals(wide, h.modifiers, h.reference);
    if h.kind.Simple? {
      SpelledPlain(wide, q, SimpleCode(h.name).value);
    } else {
      ReversedNames(h.enclosing);
      ReversedNames(h.namespaces);
    }
  }

  /** Every type that has a name is spelled so that the reader can take it apart. */
  lemma {:induction false} NameOfSpelled(wide: bool, t: HalideType)
    requires NameOf(wide, t).Ok? && ProperNames(t)
    ensures Spelled(wide, NameOf(wide, t).value)
  {
    match t
    case Pointer(h) => HandleSpelled(wide, h);
    case NullHandle => HandleSpelled(wide, VOID_STAR);
    case _ =>
      var text := NameOf(wide, t).value.text;
      SpelledPlain(wide, "", text);
      assert "" + text == text;
  }

  // ---- the whole name ----

  predicate AllNamed(wide: bool, ts: seq<HalideType>) { forall i :: 0 <= i < |ts| ==> NameOf(wide, ts[i]).Ok? }

  /** The spellings of a list of types. */
  function NamesOf(wide: bool, ts: seq<HalideType>): seq<TypeName>
    requires AllNamed(wide, ts)
  {
    seq(|ts|, i requires 0 <= i < |ts| => NameOf(wide, ts[i]).value)
  }

  predicate ProperSignature(name: string, namespaces: seq<string>, ts: seq<HalideType>) {
    IsName(name) && AllNames(namespaces) && ts != [] && forall i :: 0 <= i < |ts| ==> ProperNames(ts[i])
  }

  /**
   * The mangled name of a function with the given return type and arguments: an error exactly when
   * some type has no spelling, and otherwise a string that gives back names and types.
   */
  method MangleSignature(wide: bool, name: string, namespaces: seq<string>,
                         ts: seq<HalideType>) returns (r: Result<string>)
    requires ProperSignature(name, namespaces, ts)
    ensures r.Ok? <==> AllNamed(wide, ts)
    ensures r.Ok? ==> DecodeText(wide, r.value) == Some(([name] + Reversed(namespaces), Fulls(NamesOf(wide, ts))))
  {
    var types, i := [], 0;
    while i < |ts|
      invariant i <= |ts| && |types| == i
      invariant forall j :: 0 <= j < i ==> NameOf(wide, ts[j]) == Ok(types[j])
    {
      var n := NameOf(wide, ts[i]);
      if n.Err? { return Err(n.error); }
      types := types + [n.value];
      i := i + 1;
    }
    assert types == NamesOf(wide, ts);
    forall j | 0 <= j < |types| ensures Spelled(wide, types[j]) { NameOfSpelled(wide, ts[j]); }
    ReversedNames(namespaces);
    var s := MangledName(wide, Signature([name] + Reversed(namespaces), types));
    r := Ok(s);
  }
}
