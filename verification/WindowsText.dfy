/**
 * The characters of a Microsoft-style mangled name: pointer and reference qualifiers, type
 * codes, names and back references run together in one string, and a reader that takes the
 * string apart again.
 */
module WindowsText {
  import opened Wrappers
  import opened Positions
  import opened WindowsMangle

  // ---- qualifiers ----

  /** A qualifier is a pointer or reference letter, with an E on 64-bit targets, and the letter of what it points to. */
  predicate IsTarget(c: char) { c == 'A' || c == 'B' || c == 'C' || c == 'D' }

  predicate IsPointer(c: char) { c == 'P' || c == 'Q' || c == 'R' || c == 'S' }

  predicate StartsQualifier(c: char) { IsPointer(c) || c == 'A' || c == '$' }

  /** The length of the pointer or reference letters at the front of a string. */
  function LettersLen(s: string): nat {
    if s == "" then 0
    else if IsPointer(s[0]) || s[0] == 'A' then 1
    else if |s| >= 3 && s[0] == '$' && s[1] == '$' && s[2] == 'Q' then 3
    else 0
  }

  function HeadLen(wide: bool, s: string): nat {
    var n := LettersLen(s);
    var m := if wide then n + 1 else n;
    if n == 0 || m > |s| || (wide && s[n] != 'E') then 0
    else if s[0] == 'P' && m < |s| && s[m] == 'I' then m + 1
    else m
  }

  function GroupLen(wide: bool, s: string): nat {
    var h := HeadLen(wide, s);
    if 0 < h < |s| && IsTarget(s[h]) then h + 1 else 0
  }

  /** The length of the qualifiers at the front of a string. */
  function QualsLen(wide: bool, s: string): (n: nat)
    ensures n <= |s|
    decreases |s|
  {
    var g := GroupLen(wide, s);
    if g == 0 then 0 else g + QualsLen(wide, s[g..])
  }

  predicate IsQuals(wide: bool, q: string) { QualsLen(wide, q) == |q| }

  lemma {:induction false} GroupStays(wide: bool, s: string, rest: string)
    requires GroupLen(wide, s) > 0
    ensures GroupLen(wide, s + rest) == GroupLen(wide, s)
  {
    var t := s + rest;
    assert forall i :: 0 <= i < |s| ==> t[i] == s[i];
    assert LettersLen(t) == LettersLen(s);
    assert HeadLen(wide, t) == HeadLen(wide, s);
  }

  /** Qualifiers end where something else begins. */
  lemma {:induction false} QualsEnd(wide: bool, q: string, rest: string)
    requires IsQuals(wide, q) && (rest != "" ==> !StartsQualifier(rest[0]))
    ensures QualsLen(wide, q + rest) == |q|
    decreases |q|
  {
    if q == "" {
      assert q + rest == rest;
      assert LettersLen(rest) == 0;
    } else {
      var g := GroupLen(wide, q);
      GroupStays(wide, q, rest);
      assert (q + rest)[g..] == q[g..] + rest;
      QualsEnd(wide, q[g..], rest);
    }
  }

  lemma {:induction false} QualsCons(wide: bool, g: string, q: string)
    requires GroupLen(wide, g) == |g| > 0 && IsQuals(wide, q)
    ensures IsQuals(wide, g + q)
  {
    GroupStays(wide, g, q);
    assert (g + q)[|g|..] == q;
  }

  lemma {:induction false} QualsNoKind(wide: bool, q: string)
    requires IsQuals(wide, q)
    ensures NoKind(q)
    decreases |q|
  {
    if q != "" {
      var g := GroupLen(wide, q);
      GroupNoKind(wide, q);
      QualsNoKind(wide, q[g..]);
      forall i | 0 <= i < |q| ensures !IsKind(q[i]) {
        if i >= g { assert q[i] == q[g..][i - g]; }
      }
    }
  }

  lemma {:induction false} GroupNoKind(wide: bool, s: string)
    requires GroupLen(wide, s) > 0
    ensures forall i :: 0 <= i < GroupLen(wide, s) ==> !IsKind(s[i])
  {
    var n, h := LettersLen(s), HeadLen(wide, s);
    assert h <= 5;
    forall i | 0 <= i < h + 1 ensures !IsKind(s[i]) {
      if i < n { assert n == 1 || n == 3; } else if i < h { assert s[i] == 'E' || s[i] == 'I'; }
    }
  }

  // ---- types ----

  const BASES: seq<string> := ["X", "_N", "D", "C", "E", "F", "G", "H", "I", "_J", "_K", "M", "N"]

  /** The type is written with the codes the mangler has. */
  predicate Spelled(wide: bool, t: TypeName) {
    match t
    case Plain(text) => text[QualsLen(wide, text)..] in BASES
    case Named(q, c, ps) => IsQuals(wide, q) && IsCode(c) && ps != [] && AllNames(ps)
  }

  /** Identifiers: no at sign, no leading digit. */
  predicate IsName(s: string) { IsId(s) && !IsDigit(s[0]) }

  predicate AllNames(parts: seq<string>) { forall i :: 0 <= i < |parts| ==> IsName(parts[i]) }

  lemma {:induction false} PrefixQuals(wide: bool, s: string)
    ensures IsQuals(wide, s[..QualsLen(wide, s)])
    decreases |s|
  {
    var g := GroupLen(wide, s);
    if g > 0 {
      PrefixQuals(wide, s[g..]);
      var n := QualsLen(wide, s[g..]);
      assert s[..g + n] == s[..g] + s[g..][..n];
      GroupCut(wide, s);
      QualsCons(wide, s[..g], s[g..][..n]);
    }
  }

  lemma {:induction false} GroupCut(wide: bool, s: string)
    requires GroupLen(wide, s) > 0
    ensures GroupLen(wide, s[..GroupLen(wide, s)]) == GroupLen(wide, s)
  {
    var g := GroupLen(wide, s);
    var t := s[..g];
    assert forall i :: 0 <= i < g ==> t[i] == s[i];
    assert LettersLen(t) == LettersLen(s);
    assert HeadLen(wide, t) == HeadLen(wide, s);
  }

  /** The encoder's condition on types follows. */
  lemma {:induction false} SpelledIsWellFormed(wide: bool, t: TypeName)
    requires Spelled(wide, t)
    ensures WellFormed(t)
  {
    match t
    case Plain(text) =>
      var n := QualsLen(wide, text);
      PrefixQuals(wide, text);
      QualsNoKind(wide, text[..n]);
      BasesNoKind(text[n..]);
      forall i | 0 <= i < |text| ensures !IsKind(text[i]) {
        if i < n { assert text[i] == text[..n][i]; } else { assert text[i] == text[n..][i - n]; }
      }
    case Named(q, _, ps) =>
      QualsNoKind(wide, q);
      forall i | 0 <= i < |ps| ensures IsId(ps[i]) { assert IsName(ps[i]); }
  }

  lemma {:induction false} BasesNoKind(b: string)
    requires b in BASES
    ensures NoKind(b) && 1 <= |b| <= 2 && !StartsQualifier(b[0]) && !IsDigit(b[0]) && b[0] != '@' && b[0] != 'Z'
    ensures |b| == 2 <==> b[0] == '_'
  {
    var k :| 0 <= k < |BASES| && BASES[k] == b;
  }

  // ---- tokens as text ----

  function TypeText(tok: TypeTok): string {
    match tok
    case TypeRef(k) => if k < 10 then [DigitChar(k)] else ""
    case PlainTok(text) => text
    case NamedTok(q, c, names) => q + c + Text(names) + "@"
  }

  function TypesText(toks: seq<TypeTok>): string { if toks == [] then "" else TypeText(toks[0]) + TypesText(toks[1..]) }

  const PREFIX: string := [1 as char, '?']

  /** The whole name: a function's names, its convention, the return type, and arguments or a void. */
  function Render(m: Mangled): string
    requires m.types != []
  {
    PREFIX + Text(m.names) + "@" + "YA" + TypeText(m.types[0]) + ArgsText(m) + "Z"
  }

  function ArgsText(m: Mangled): string
    requires m.types != []
  {
    if |m.types| == 1 then "X" else TypesText(m.types[1..]) + "@"
  }

  // ---- reading the text ----

  predicate Starts(s: string, p: string) { |p| <= |s| && s[..|p|] == p }

  function KindLen(s: string): nat {
    if s == "" then 0
    else if s[0] == 'U' || s[0] == 'V' || s[0] == 'T' then 1
    else if s[0] == 'W' && |s| >= 2 && s[1] == '4' then 2
    else 0
  }

  function BaseLen(s: string): nat {
    if |s| >= 1 && s[..1] in BASES then 1
    else if |s| >= 2 && s[..2] in BASES then 2
    else 0
  }

  /** One type at the front of the text. */
  function ReadType(wide: bool, s: string): Option<(TypeTok, string)> {
    if s != "" && IsDigit(s[0]) then Some((TypeRef(s[0] as int - '0' as int), s[1..]))
    else
      var n := QualsLen(wide, s);
      var q, r := s[..n], s[n..];
      var k := KindLen(r);
      if k > 0 then
        var names := Scan(r[k..]);
        if names.None? then None else Some((NamedTok(q, r[..k], names.value.0), names.value.1))
      else
        var b := BaseLen(r);
        if b == 0 then None else Some((PlainTok(q + r[..b]), r[b..]))
  }

  /** Types up to the closing at sign. */
  function ReadTypes(wide: bool, s: string): Option<(seq<TypeTok>, string)>
    decreases |s|
  {
    if s == "" then None
    else if s[0] == '@' then Some(([], s[1..]))
    else
      var t := ReadType(wide, s);
      if t.None? || |t.value.1| >= |s| then None
      else
        var r := ReadTypes(wide, t.value.1);
        if r.None? then None else Some(([t.value.0] + r.value.0, r.value.1))
  }

  function Read(wide: bool, s: string): Option<Mangled> {
    if !Starts(s, PREFIX) then None
    else
      var names := Scan(s[|PREFIX|..]);
      if names.None? || !Starts(names.value.1, "YA") then None
      else
        var types := ReadTail(wide, names.value.1[2..]);
        if types.None? then None else Some(Mangled(names.value.0, types.value))
  }

  // ---- reading gives back the tokens ----

  predicate TokOk(wide: bool, tok: TypeTok) {
    match tok
    case TypeRef(k) => k < 10
    case PlainTok(text) => Spelled(wide, Plain(text))
    case NamedTok(q, c, names) => IsQuals(wide, q) && IsCode(c) && forall i :: 0 <= i < |names| ==> Writable(names[i])
  }

  lemma {:induction false} PlainSplits(wide: bool, text: string, rest: string)
    requires Spelled(wide, Plain(text))
    ensures var n, s := QualsLen(wide, text), text + rest;
      QualsLen(wide, s) == n && s[..n] == text[..n] && s[n..] == text[n..] + rest
  {
    var n := QualsLen(wide, text);
    var q, b := text[..n], text[n..];
    BasesNoKind(b);
    PrefixQuals(wide, text);
    assert text + rest == q + (b + rest) && (b + rest)[0] == b[0];
    QualsEnd(wide, q, b + rest);
  }

  lemma {:induction false} PlainFirst(wide: bool, text: string)
    requires Spelled(wide, Plain(text))
    ensures text != "" && text[0] != '@' && !IsDigit(text[0]) && text[|text| - 1] != 'Z'
  {
    var n := QualsLen(wide, text);
    var b := text[n..];
    BasesNoKind(b);
    BaseEnds(b);
    PrefixQuals(wide, text);
    FirstOfQuals(wide, text[..n]);
    if n > 0 { assert text[0] == text[..n][0]; } else { assert text == b; }
    assert text[|text| - 1] == b[|b| - 1];
  }

  lemma {:induction false} ReadPlain(wide: bool, text: string, rest: string)
    requires Spelled(wide, Plain(text))
    ensures ReadType(wide, text + rest) == Some((PlainTok(text), rest))
  {
    var n, s := QualsLen(wide, text), text + rest;
    var q, b := text[..n], text[n..];
    PlainSplits(wide, text, rest);
    PlainFirst(wide, text);
    BasesNoKind(b);
    BaseReads(b, rest);
    assert s[0] == text[0];
    assert !IsKind((b + rest)[0]) by { assert (b + rest)[0] == b[0]; }
    assert KindLen(b + rest) == 0;
    assert q + b == text;
  }

  lemma {:induction false} FirstOfQuals(wide: bool, q: string)
    requires IsQuals(wide, q)
    ensures q != "" ==> StartsQualifier(q[0])
  {
  }

  lemma {:induction false} BaseEnds(b: string)
    requires b in BASES
    ensures b[|b| - 1] != 'Z'
  {
    var k :| 0 <= k < |BASES| && BASES[k] == b;
  }

  lemma {:induction false} BaseReads(b: string, rest: string)
    requires b in BASES
    ensures BaseLen(b + rest) == |b| && (b + rest)[..|b|] == b && (b + rest)[|b|..] == rest
  {
    BasesNoKind(b);
    assert (b + rest)[..|b|] == b;
    if |b| == 2 {
      assert (b + rest)[..1][0] == '_';
      NoUnderscore((b + rest)[..1]);
    }
  }

  lemma {:induction false} NoUnderscore(c: string)
    requires |c| == 1 && c[0] == '_'
    ensures c !in BASES
  {
  }

  lemma {:induction false} NamedSplits(wide: bool, q: string, c: string, tail: string)
    requires IsQuals(wide, q) && IsCode(c)
    ensures var s := q + (c + tail);
      QualsLen(wide, s) == |q| && s[..|q|] == q && s[|q|..] == c + tail && s != "" && !IsDigit(s[0]) && s[0] != '@'
  {
    CodeReads(c, tail);
    assert (c + tail)[0] == c[0];
    QualsEnd(wide, q, c + tail);
    FirstOfQuals(wide, q);
    var s := q + (c + tail);
    if q != "" { assert s[0] == q[0]; } else { assert s[0] == c[0]; }
  }

  lemma {:induction false} ReadNamedText(wide: bool, q: string, c: string, names: seq<NameTok>, rest: string)
    requires TokOk(wide, NamedTok(q, c, names))
    ensures ReadType(wide, q + (c + (Text(names) + "@" + rest))) == Some((NamedTok(q, c, names), rest))
  {
    var tail := Text(names) + "@" + rest;
    NamedSplits(wide, q, c, tail);
    CodeReads(c, tail);
    ScanReads(names, rest);
  }

  lemma {:induction false} ReadNamed(wide: bool, tok: TypeTok, rest: string)
    requires TokOk(wide, tok) && tok.NamedTok?
    ensures ReadType(wide, TypeText(tok) + rest) == Some((tok, rest))
  {
    var q, c, text := tok.quals, tok.code, Text(tok.names);
    assert TypeText(tok) + rest == q + (c + (text + "@" + rest));
    ReadNamedText(wide, q, c, tok.names, rest);
  }

  lemma {:induction false} NamedEnds(wide: bool, tok: TypeTok)
    requires TokOk(wide, tok) && tok.NamedTok?
    ensures var t := TypeText(tok); t != "" && t[0] != '@' && t[|t| - 1] == '@'
  {
    var q, c, text := tok.quals, tok.code, Text(tok.names);
    assert TypeText(tok) == q + (c + (text + "@"));
    NamedSplits(wide, q, c, text + "@");
  }

  lemma {:induction false} CodeReads(c: string, tail: string)
    requires IsCode(c)
    ensures KindLen(c + tail) == |c| && (c + tail)[..|c|] == c && (c + tail)[|c|..] == tail && !IsDigit(c[0])
      && !StartsQualifier(c[0])
  {
    assert (c + tail)[0] == c[0];
    if |c| == 2 { assert (c + tail)[1] == c[1]; }
  }

  /** One written type is read back, whatever follows it. */
  lemma {:induction false} ReadTypeReads(wide: bool, tok: TypeTok, rest: string)
    requires TokOk(wide, tok)
    ensures ReadType(wide, TypeText(tok) + rest) == Some((tok, rest))
    ensures var t := TypeText(tok); t != "" && t[0] != '@' && t[|t| - 1] != 'Z'
  {
    match tok
    case TypeRef(k) => assert (TypeText(tok) + rest)[1..] == rest;
    case PlainTok(text) => ReadPlain(wide, text, rest); PlainFirst(wide, text);
    case NamedTok(_, _, _) => ReadNamed(wide, tok, rest); NamedEnds(wide, tok);
  }

  lemma {:induction false} ReadTypesStep(wide: bool, tok: TypeTok, more: string, toks: seq<TypeTok>, rest: string)
    requires TokOk(wide, tok) && ReadTypes(wide, more) == Some((toks, rest))
    ensures ReadTypes(wide, TypeText(tok) + more) == Some(([tok] + toks, rest))
  {
    ReadTypeReads(wide, tok, more);
    assert (TypeText(tok) + more)[0] == TypeText(tok)[0];
  }

  lemma {:induction false} Regroup(a: string, b: string, c: string)
    ensures (a + b) + c == a + (b + c)
  {
  }

  lemma {:induction false} ReadNoTypes(wide: bool, rest: string)
    ensures ReadTypes(wide, "@" + rest) == Some(([], rest))
  {
    assert ("@" + rest)[1..] == rest;
  }

  lemma {:induction false} ReadTypesReads(wide: bool, toks: seq<TypeTok>, rest: string)
    requires forall i :: 0 <= i < |toks| ==> TokOk(wide, toks[i])
    ensures ReadTypes(wide, TypesText(toks) + ("@" + rest)) == Some((toks, rest))
    decreases toks
  {
    var end := "@" + rest;
    if toks == [] {
      assert TypesText(toks) + end == end;
      ReadNoTypes(wide, rest);
    } else {
      var first, more := TypeText(toks[0]), TypesText(toks[1..]);
      Regroup(first, more, end);
      ReadTypesReads(wide, toks[1..], rest);
      ReadTypesStep(wide, toks[0], more + end, toks[1..], rest);
      assert toks == [toks[0]] + toks[1..];
    }
  }

  lemma {:induction false} TypesTextEnds(wide: bool, toks: seq<TypeTok>)
    requires toks != [] && forall i :: 0 <= i < |toks| ==> TokOk(wide, toks[i])
    ensures var s := TypesText(toks); s != "" && s[|s| - 1] != 'Z'
    decreases toks
  {
    ReadTypeReads(wide, toks[0], "");
    if toks[1..] != [] { TypesTextEnds(wide, toks[1..]); } else { assert TypesText(toks) == TypeText(toks[0]); }
  }

  /** What follows the convention letters: the return type, and arguments or a void. */
  function TypesTail(m: Mangled): string
    requires m.types != []
  {
    TypeText(m.types[0]) + if |m.types| == 1 then "XZ" else TypesText(m.types[1..]) + ("@" + "Z")
  }

  function ReadTail(wide: bool, s: string): Option<seq<TypeTok>> {
    var ret := ReadType(wide, s);
    if ret.None? then None
    else if ret.value.1 == "XZ" then Some([ret.value.0])
    else
      var args := ReadTypes(wide, ret.value.1);
      if args.None? || args.value.1 != "Z" then None else Some([ret.value.0] + args.value.0)
  }

  lemma {:induction false} ReadTailVoid(wide: bool, tok: TypeTok)
    requires TokOk(wide, tok)
    ensures ReadTail(wide, TypeText(tok) + "XZ") == Some([tok])
  {
    ReadTypeReads(wide, tok, "XZ");
  }

  lemma {:induction false} ReadTailArgs(wide: bool, tok: TypeTok, args: string, toks: seq<TypeTok>)
    requires TokOk(wide, tok) && args != "XZ" && ReadTypes(wide, args) == Some((toks, "Z"))
    ensures ReadTail(wide, TypeText(tok) + args) == Some([tok] + toks)
  {
    ReadTypeReads(wide, tok, args);
  }

  lemma {:induction false} ReadTailReads(wide: bool, m: Mangled)
    requires m.types != [] && forall i :: 0 <= i < |m.types| ==> TokOk(wide, m.types[i])
    ensures ReadTail(wide, TypesTail(m)) == Some(m.types)
  {
    var first, toks := m.types[0], m.types[1..];
    assert m.types == [first] + toks;
    if |m.types| == 1 {
      ReadTailVoid(wide, first);
      assert TypesTail(m) == TypeText(first) + "XZ" && m.types == [first];
    } else {
      ReadTypesReads(wide, toks, "Z");
      TailNotVoid(wide, toks);
      ReadTailArgs(wide, first, TypesText(toks) + ("@" + "Z"), toks);
    }
  }

  /** The characters determine the tokens. */
  lemma {:induction false} ReadReads(wide: bool, m: Mangled)
    requires m.types != [] && forall i :: 0 <= i < |m.types| ==> TokOk(wide, m.types[i])
    requires forall i :: 0 <= i < |m.names| ==> Writable(m.names[i])
    ensures Read(wide, Render(m)) == Some(m)
  {
    var s, rest := Render(m), "YA" + TypesTail(m);
    assert s == PREFIX + (Text(m.names) + "@" + rest) by { RenderSplits(m); }
    assert s[|PREFIX|..] == Text(m.names) + "@" + rest && s[..|PREFIX|] == PREFIX;
    ScanReads(m.names, rest);
    assert rest[2..] == TypesTail(m) && rest[..2] == "YA";
    ReadTailReads(wide, m);
  }

  lemma {:induction false} RenderSplits(m: Mangled)
    requires m.types != []
    ensures Render(m) == PREFIX + (Text(m.names) + "@" + ("YA" + TypesTail(m)))
  {
    var names, ret, args := Text(m.names) + "@", TypeText(m.types[0]), ArgsText(m);
    assert PREFIX + Text(m.names) + "@" == PREFIX + names;
    Regroup(PREFIX, names, "YA");
    Regroup(PREFIX, names + "YA", ret);
    Regroup(PREFIX, names + "YA" + ret, args);
    Regroup(PREFIX, names + "YA" + ret + args, "Z");
    Regroup(names, "YA", ret);
    Regroup(names, "YA" + ret, args);
    Regroup(names, "YA" + ret + args, "Z");
    Regroup("YA", ret, args);
    Regroup("YA", ret + args, "Z");
    Regroup(ret, args, "Z");
    ArgsSplit(m);
  }

  lemma {:induction false} ArgsSplit(m: Mangled)
    requires m.types != []
    ensures TypeText(m.types[0]) + (ArgsText(m) + "Z") == TypesTail(m)
  {
    if |m.types| > 1 { Regroup(TypesText(m.types[1..]), "@", "Z"); } else { assert "X" + "Z" == "XZ"; }
  }

  lemma {:induction false} TailNotVoid(wide: bool, toks: seq<TypeTok>)
    requires toks != [] && forall i :: 0 <= i < |toks| ==> TokOk(wide, toks[i])
    ensures TypesText(toks) + ("@" + "Z") != "XZ"
  {
    var s := TypesText(toks) + ("@" + "Z");
    assert s[|s| - 2] == '@';
  }

  // ---- what the mangler writes can be read ----

  lemma {:induction false} EncodeNamesOk(list: seq<string>, parts: seq<string>)
    requires AllNames(parts) && |list| <= 10
    ensures forall i :: 0 <= i < |EncodeNames(list, parts)| ==> Writable(EncodeNames(list, parts)[i])
    ensures |NamesAfter(list, parts)| <= 10
    decreases parts
  {
    if parts != [] {
      EncodeNamesOk(Entered(list, parts[0]), parts[1..]);
      if parts[0] in list { IndexOfIn(list, parts[0]); }
      assert IsName(parts[0]);
    }
  }

  lemma {:induction false} EncodeTypeOk(wide: bool, types: seq<string>, names: seq<string>, t: TypeName)
    requires Spelled(wide, t) && |types| <= 10 && |names| <= 10
    ensures TokOk(wide, EncodeType(types, names, t))
    ensures |TypesAfter(types, t)| <= 10 && |NamesAfter(names, TypeNames(t))| <= 10
  {
    if Full(t) in types { IndexOfIn(types, Full(t)); }
    if t.Named? { EncodeNamesOk(names, t.parts); }
  }

  lemma {:induction false} EncodeTypesOk(wide: bool, types: seq<string>, names: seq<string>, ts: seq<TypeName>)
    requires AllSpelled(wide, ts) && |types| <= 10 && |names| <= 10
    ensures var toks := EncodeTypes(types, names, ts); |toks| == |ts| && forall i :: 0 <= i < |toks| ==>
      TokOk(wide, toks[i])
    decreases ts
  {
    if ts != [] {
      EncodeTypeOk(wide, types, names, ts[0]);
      EncodeTypesOk(wide, TypesAfter(types, ts[0]), NamesAfter(names, TypeNames(ts[0])), ts[1..]);
    }
  }

  predicate AllSpelled(wide: bool, ts: seq<TypeName>) { forall i :: 0 <= i < |ts| ==> Spelled(wide, ts[i]) }

  /** A signature that can be mangled: proper names, and a return type first. */
  predicate Mangleable(wide: bool, sig: Signature) {
    sig.names != [] && AllNames(sig.names) && sig.types != [] && AllSpelled(wide, sig.types)
  }

  lemma {:induction false} EncodeReads(wide: bool, sig: Signature)
    requires Mangleable(wide, sig)
    ensures Encode(sig).types != [] && Read(wide, Render(Encode(sig))) == Some(Encode(sig))
  {
    EncodeNamesOk([], sig.names);
    EncodeTypesOk(wide, [], NamesAfter([], sig.names), sig.types);
    ReadReads(wide, Encode(sig));
  }

  /** Reading the string: characters to tokens, tokens to names and types. */
  function DecodeText(wide: bool, s: string): Option<(seq<string>, seq<string>)> {
    var m := Read(wide, s);
    if m.None? then None else Decode(m.value)
  }

  /** From the mangled string alone, the names and the full form of every type are recovered. */
  lemma {:induction false} TextRoundTrip(wide: bool, sig: Signature)
    requires Mangleable(wide, sig)
    ensures Encode(sig).types != [] && DecodeText(wide, Render(Encode(sig))) == Some((sig.names, Fulls(sig.types)))
  {
    EncodeReads(wide, sig);
    forall i | 0 <= i < |sig.types| ensures WellFormed(sig.types[i]) { SpelledIsWellFormed(wide, sig.types[i]); }
    RoundTrip(sig);
  }

  lemma {:induction false} FullsInjective(wide: bool, ts: seq<TypeName>, us: seq<TypeName>)
    requires AllSpelled(wide, ts) && AllSpelled(wide, us) && Fulls(ts) == Fulls(us)
    ensures ts == us
    decreases ts
  {
    if ts != [] && us != [] {
      SpelledIsWellFormed(wide, ts[0]);
      SpelledIsWellFormed(wide, us[0]);
      assert Fulls(ts)[0] == Full(ts[0]) && Fulls(us)[0] == Full(us[0]);
      FullInjective(ts[0], us[0]);
      assert Fulls(ts)[1..] == Fulls(ts[1..]) && Fulls(us)[1..] == Fulls(us[1..]);
      FullsInjective(wide, ts[1..], us[1..]);
      assert ts == [ts[0]] + ts[1..] && us == [us[0]] + us[1..];
    }
  }

  /** Two signatures have the same mangled name exactly when they are the same signature. */
  lemma {:induction false} MangledNameIff(wide: bool, a: Signature, b: Signature)
    requires Mangleable(wide, a) && Mangleable(wide, b)
    ensures Encode(a).types != [] && Encode(b).types != []
    ensures Render(Encode(a)) == Render(Encode(b)) <==> a == b
  {
    TextRoundTrip(wide, a);
    TextRoundTrip(wide, b);
    if Render(Encode(a)) == Render(Encode(b)) { FullsInjective(wide, a.types, b.types); }
  }

  // ---- building the string ----

  method ArgumentsText(toks: seq<TypeTok>) returns (s: string)
    ensures s == TypesText(toks)
  {
    s := "";
    var i := 0;
    while i < |toks|
      invariant i <= |toks| && s + TypesText(toks[i..]) == TypesText(toks)
    {
      assert toks[i..][1..] == toks[i + 1..];
      s := s + TypeText(toks[i]);
      i := i + 1;
    }
  }

  method RenderName(wide: bool, m: Mangled) returns (s: string)
    requires m.types != [] && forall i :: 0 <= i < |m.types| ==> TokOk(wide, m.types[i])
    ensures s == Render(m)
  {
    s := PREFIX + Text(m.names) + "@" + "YA" + TypeText(m.types[0]);
    if |m.types| == 1 {
      s := s + "X";
    } else {
      ghost var front := s;
      var args := ArgumentsText(m.types[1..]);
      TypesTextEnds(wide, m.types[1..]);
      s := s + args;
      if s[|s| - 1] != 'Z' { s := s + "@"; }
      assert s == front + (args + "@");
    }
    s := s + "Z";
  }

  /** cplusplus_function_mangled_name. */
  method MangledName(wide: bool, sig: Signature) returns (s: string)
    requires Mangleable(wide, sig)
    ensures Encode(sig).types != [] && s == Render(Encode(sig))
    ensures DecodeText(wide, s) == Some((sig.names, Fulls(sig.types)))
  {
    EncodeNamesOk([], sig.names);
    EncodeTypesOk(wide, [], NamesAfter([], sig.names), sig.types);
    var m := MangleFunction(sig);
    s := RenderName(wide, m);
    TextRoundTrip(wide, sig);
  }
}
