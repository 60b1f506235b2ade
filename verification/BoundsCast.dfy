/**
 * The interval rules for casts, variables and lets.
 */
module BoundsCast {
  import opened Wrappers
  import opened Ir
  import opened Intervals
  import opened BoundsArith
  import opened BoundsMulDiv
  import opened BoundsLogic

  type Scope = map<string, Interval>

  // ---- variables ----

  function Tighten(op: BinOp, base: Option<Expr>, bound: Option<Expr>): Option<Expr> {
    if bound.None? || !IsConst(bound.value) then base
    else if base.None? then bound
    else Some(Extreme(op, base.value, bound.value))
  }

  /** In constant mode a variable has its type's bounds, tightened by constant ends in the scope. */
  function VarRule(e: Expr, scope: Scope, constBound: bool): Interval
    requires e.Var?
  {
    if constBound then
      var base := TypeBounds(e.vty);
      if e.name !in scope then base
      else Interval(Tighten(Max, base.min, scope[e.name].min), Tighten(Min, base.max, scope[e.name].max))
    else if e.name in scope then scope[e.name]
    else Point(e)
  }

  lemma {:induction false} TightenHolds(t: Type, i: Interval, v: int, out: Env)
    requires InRange(t, v) && Holds(i, t, v, out)
    ensures Holds(Interval(Tighten(Max, TypeBounds(t).min, i.min), Tighten(Min, TypeBounds(t).max, i.max)), t, v, out)
  {
    TypeBoundsHold(t, v, out);
    if IsNarrow(t) && i.min.Some? { ExtremeMeans(Max, TypeBounds(t).min.value, i.min.value, t, out); }
    if IsNarrow(t) && i.max.Some? { ExtremeMeans(Min, TypeBounds(t).max.value, i.max.value, t, out); }
  }

  lemma {:induction false} VarSound(e: Expr, scope: Scope, constBound: bool, env: Env, out: Env)
    requires e.Var? && Fine(e, env)
    requires if e.name in scope then Holds(scope[e.name], e.vty, Lookup(env, e.name), out)
             else Lookup(env, e.name) == Lookup(out, e.name)
    ensures Holds(VarRule(e, scope, constBound), e.vty, Lookup(env, e.name), out)
  {
    TypeBoundsHold(e.vty, Lookup(env, e.name), out);
    if e.name in scope { TightenHolds(e.vty, scope[e.name], Lookup(env, e.name), out); }
  }

  // ---- casts ----

  function Bits(t: Type): int {
    match t
    case UInt1 => 1
    case UInt8 => 8
    case UInt16 => 16
    case Int8 => 8
    case Int16 => 16
    case Int32 => 32
    case Int64 => 64
  }

  predicate CanRepresent(to: Type, from: Type) {
    if IsUInt(to) then IsUInt(from) && Bits(from) <= Bits(to)
    else if IsUInt(from) then Bits(from) < Bits(to)
    else Bits(from) <= Bits(to)
  }

  /** Overflow is impossible or, for 32 bits and more, not allowed. */
  predicate NeverOverflows(to: Type, from: Type) { CanRepresent(to, from) || !IsNarrow(to) }

  /** Narrowing a bounded range: the bounds are analysed again for constants that fit. */
  predicate Strips(e: Expr, a: Interval)
    requires e.Cast?
  {
    !IsPoint(a) && !NeverOverflows(e.to, TypeOf(e.arg)) && IsBounded(a) && CanRepresent(TypeOf(e.arg), e.to)
  }

  function FitsTest(from: Type, to: Type, lo: Expr, hi: Expr): Expr {
    And(Cmp(EQ, Cast(from, Cast(to, lo)), lo), Cmp(EQ, Cast(from, Cast(to, hi)), hi))
  }

  predicate ConstFits(to: Type, x: Expr) { x.Const? && InRange(to, x.value) }

  function CastEnd(to: Type, x: Option<Expr>, base: Option<Expr>): Option<Expr> {
    if x.Some? then Some(Cast(to, x.value)) else if base.Some? then Some(Cast(to, base.value)) else None
  }

  function CastEnds(to: Type, from: Type, a: Interval): Interval {
    Interval(CastEnd(to, a.min, TypeBounds(from).min), CastEnd(to, a.max, TypeBounds(from).max))
  }

  /** `lo` and `hi` are what the second analysis found. */
  function CastRule(o: Oracle, e: Expr, a: Interval, lo: Option<Expr>, hi: Option<Expr>): Interval
    requires e.Cast?
  {
    var to, from := e.to, TypeOf(e.arg);
    if a == Point(e.arg) then Point(e)
    else if IsPoint(a) then Point(Cast(to, a.min.value))
    else if NeverOverflows(to, from) then CastEnds(to, from, a)
    else if !IsBounded(a) then TypeBounds(to)
    else if CanRepresent(from, to) then
      if lo.Some? && hi.Some? && o.prove(FitsTest(from, to, lo.value, hi.value)) then
        CastEnds(to, from, Interval(lo, hi))
      else TypeBounds(to)
    else
      var x, y := o.simplify(a.min.value), o.simplify(a.max.value);
      if ConstFits(to, x) && ConstFits(to, y) then CastEnds(to, from, Interval(Some(x), Some(y))) else TypeBounds(to)
  }

  lemma {:induction false} CastMeans(to: Type, x: Expr, from: Type, out: Env)
    requires End(x, from, out)
    ensures End(Cast(to, x), to, out) && Eval(Cast(to, x), out) == Wrap(to, Eval(x, out))
  {
  }

  lemma RepresentRange(to: Type, from: Type, v: int)
    requires CanRepresent(to, from) && InRange(from, v)
    ensures InRange(to, v)
  {
  }

  /** If the ends of `a` are values of the target type, casting them bounds the cast. */
  lemma {:induction false} CastEndsHold(to: Type, from: Type, a: Interval, v: int, out: Env)
    requires Holds(a, from, v, out) && InRange(from, v)
    requires NeverOverflows(to, from)
      || (IsBounded(a) && InRange(to, Eval(a.min.value, out)) && InRange(to, Eval(a.max.value, out)))
    ensures Holds(CastEnds(to, from, a), to, Wrap(to, v), out)
  {
    if CanRepresent(to, from) { RepresentRange(to, from, v); }
    CastLow(to, from, a.min, v, out);
    CastHigh(to, from, a.max, v, out);
  }

  lemma {:induction false} CastLow(to: Type, from: Type, x: Option<Expr>, v: int, out: Env)
    requires Above(x, from, v, out) && InRange(from, v) && InRange(to, v)
    requires NeverOverflows(to, from) || (x.Some? && InRange(to, Eval(x.value, out)))
    ensures Above(CastEnd(to, x, TypeBounds(from).min), to, v, out)
  {
    TypeBoundsHold(from, v, out);
    var base := TypeBounds(from).min;
    if x.Some? {
      CastMeans(to, x.value, from, out);
      FineInRange(x.value, out);
      if CanRepresent(to, from) { RepresentRange(to, from, Eval(x.value, out)); }
    } else if base.Some? {
      CastMeans(to, base.value, from, out);
      if CanRepresent(to, from) { RepresentRange(to, from, Eval(base.value, out)); }
    }
  }

  lemma {:induction false} CastHigh(to: Type, from: Type, x: Option<Expr>, v: int, out: Env)
    requires BelowMax(x, from, v, out) && InRange(from, v) && InRange(to, v)
    requires NeverOverflows(to, from) || (x.Some? && InRange(to, Eval(x.value, out)))
    ensures BelowMax(CastEnd(to, x, TypeBounds(from).max), to, v, out)
  {
    TypeBoundsHold(from, v, out);
    var base := TypeBounds(from).max;
    if x.Some? {
      CastMeans(to, x.value, from, out);
      FineInRange(x.value, out);
      if CanRepresent(to, from) { RepresentRange(to, from, Eval(x.value, out)); }
    } else if base.Some? {
      CastMeans(to, base.value, from, out);
      if CanRepresent(to, from) { RepresentRange(to, from, Eval(base.value, out)); }
    }
  }

  lemma {:induction false} RoundTripFits(from: Type, to: Type, x: Expr, out: Env)
    requires End(x, from, out)
    ensures var test := Cmp(EQ, Cast(from, Cast(to, x)), x);
      End(test, UInt1, out) && (CanRepresent(from, to) && Eval(test, out) != 0 ==> InRange(to, Eval(x, out)))
  {
    var inner := Cast(to, x);
    CastMeans(to, x, from, out);
    CastMeans(from, inner, to, out);
    CmpEnd(EQ, Cast(from, inner), x, from, out);
    if CanRepresent(from, to) { RepresentRange(from, to, Wrap(to, Eval(x, out))); }
  }

  lemma {:induction false} FitsTestMeans(o: Oracle, from: Type, to: Type, lo: Expr, hi: Expr, out: Env)
    requires OracleOk(o) && CanRepresent(from, to) && End(lo, from, out) && End(hi, from, out)
    requires o.prove(FitsTest(from, to, lo, hi))
    ensures InRange(to, Eval(lo, out)) && InRange(to, Eval(hi, out))
  {
    RoundTripFits(from, to, lo, out);
    RoundTripFits(from, to, hi, out);
    AndMeans(Cmp(EQ, Cast(from, Cast(to, lo)), lo), Cmp(EQ, Cast(from, Cast(to, hi)), hi), out);
    assert ProveOk(o, FitsTest(from, to, lo, hi), out);
  }

  lemma {:induction false} CastSound(o: Oracle, e: Expr, a: Interval, lo: Option<Expr>, hi: Option<Expr>, v: int,
                                     out: Env)
    requires OracleOk(o) && e.Cast? && Holds(a, TypeOf(e.arg), v, out) && InRange(TypeOf(e.arg), v)
    requires Strips(e, a) ==> Holds(Interval(lo, hi), TypeOf(e.arg), v, out)
    ensures Holds(CastRule(o, e, a, lo, hi), e.to, Wrap(e.to, v), out)
  {
    var to, from := e.to, TypeOf(e.arg);
    if IsPoint(a) {
      CastMeans(to, a.min.value, from, out);
    } else if NeverOverflows(to, from) {
      CastEndsHold(to, from, a, v, out);
    } else {
      TypeBoundsHold(to, Wrap(to, v), out);
      if IsBounded(a) { NarrowingSound(o, e, a, lo, hi, v, out); }
    }
  }

  lemma {:induction false} NarrowingSound(o: Oracle, e: Expr, a: Interval, lo: Option<Expr>, hi: Option<Expr>, v: int,
                                          out: Env)
    requires OracleOk(o) && e.Cast? && Holds(a, TypeOf(e.arg), v, out) && InRange(TypeOf(e.arg), v)
    requires Strips(e, a) ==> Holds(Interval(lo, hi), TypeOf(e.arg), v, out)
    requires !IsPoint(a) && IsBounded(a) && !NeverOverflows(e.to, TypeOf(e.arg))
    ensures Holds(CastRule(o, e, a, lo, hi), e.to, Wrap(e.to, v), out)
  {
    var to, from := e.to, TypeOf(e.arg);
    TypeBoundsHold(to, Wrap(to, v), out);
    if CanRepresent(from, to) {
      if lo.Some? && hi.Some? && o.prove(FitsTest(from, to, lo.value, hi.value)) {
        FitsTestMeans(o, from, to, lo.value, hi.value, out);
        CastEndsHold(to, from, Interval(lo, hi), v, out);
      }
    } else {
      var x, y := o.simplify(a.min.value), o.simplify(a.max.value);
      if ConstFits(to, x) && ConstFits(to, y) {
        assert SimplifyOk(o, a.min.value, out) && SimplifyOk(o, a.max.value, out);
        CastEndsHold(to, from, Interval(Some(x), Some(y)), v, out);
      }
    }
  }

  // ---- lets ----

  function MinName(x: string): string { x + ".min" }

  function MaxName(x: string): string { x + ".max" }

  lemma NamesDiffer(x: string)
    ensures MinName(x) != MaxName(x)
  {
    assert MinName(x)[|x| + 1] == 'm' && MinName(x)[|x| + 2] == 'i' && MaxName(x)[|x| + 2] == 'a';
  }

  /** An end that is passed into the body as a variable, with an outer let. */
  predicate Named(x: Option<Expr>) { x.Some? && !IsConst(x.value) }

  predicate NamesMin(val: Interval) { Named(val.min) }

  predicate NamesMax(val: Interval) { Named(val.max) && !IsPoint(val) }

  /** The interval of the let's variable inside the body. */
  function LetVar(x: string, t: Type, val: Interval): Interval {
    var min := if NamesMin(val) then Some(Var(t, MinName(x))) else val.min;
    Interval(min, if NamesMax(val) then Some(Var(t, MaxName(x))) else if Named(val.max) then min else val.max)
  }

  function WrapEnd(x: string, val: Interval, r: Expr): Expr {
    var r1 := if NamesMin(val) && Uses(r, MinName(x)) then Let(MinName(x), val.min.value, r) else r;
    if NamesMax(val) && Uses(r1, MaxName(x)) then Let(MaxName(x), val.max.value, r1) else r1
  }

  function WrapOption(x: string, val: Interval, r: Option<Expr>): Option<Expr> {
    if r.Some? then Some(WrapEnd(x, val, r.value)) else None
  }

  function LetRule(x: string, val: Interval, body: Interval): Interval {
    var min := WrapOption(x, val, body.min);
    Interval(min, if IsPoint(body) then min else WrapOption(x, val, body.max))
  }

  /** The environment in which the body's bounds are read. */
  function LetOut(x: string, val: Interval, out: Env): Env {
    var out1 := if NamesMax(val) then out[MaxName(x) := Eval(val.max.value, out)] else out;
    if NamesMin(val) then out1[MinName(x) := Eval(val.min.value, out)] else out1
  }

  /** The outer let for the upper bound must not capture a name in the lower one. */
  predicate NoCapture(x: string, val: Interval) {
    NamesMin(val) && NamesMax(val) ==> !Uses(val.min.value, MaxName(x))
  }

  lemma {:induction false} WrapEndMeans(x: string, val: Interval, r: Expr, t: Type, out: Env)
    requires NoCapture(x, val) && End(r, t, LetOut(x, val, out))
    requires (val.min.Some? ==> Fine(val.min.value, out)) && (val.max.Some? ==> Fine(val.max.value, out))
    ensures End(WrapEnd(x, val, r), t, out) && Eval(WrapEnd(x, val, r), out) == Eval(r, LetOut(x, val, out))
  {
    var out1 := if NamesMax(val) then out[MaxName(x) := Eval(val.max.value, out)] else out;
    var r1 := if NamesMin(val) && Uses(r, MinName(x)) then Let(MinName(x), val.min.value, r) else r;
    assert End(r1, t, out1) && Eval(r1, out1) == Eval(r, LetOut(x, val, out)) by {
      if NamesMin(val) { WrapMin(x, val, r, t, out, out1); }
    }
    if NamesMax(val) {
      if Uses(r1, MaxName(x)) {
        LetEnd(MaxName(x), val.max.value, r1, t, out);
      } else {
        UnframeEnd(r1, t, out, MaxName(x), Eval(val.max.value, out));
      }
    }
  }

  lemma {:induction false} UnframeEnd(e: Expr, t: Type, out: Env, n: string, w: int)
    requires End(e, t, out[n := w]) && !Uses(e, n)
    ensures End(e, t, out) && Eval(e, out[n := w]) == Eval(e, out)
  {
    EvalFrame(e, out, n, w);
    FineAgree(e, out[n := w], out);
  }

  lemma {:induction false} WrapMin(x: string, val: Interval, r: Expr, t: Type, out: Env, out1: Env)
    requires NamesMin(val) && NoCapture(x, val) && Fine(val.min.value, out)
    requires out1 == if NamesMax(val) then out[MaxName(x) := Eval(val.max.value, out)] else out
    requires End(r, t, out1[MinName(x) := Eval(val.min.value, out)])
    ensures var r1 := if Uses(r, MinName(x)) then Let(MinName(x), val.min.value, r) else r;
      End(r1, t, out1) && Eval(r1, out1) == Eval(r, out1[MinName(x) := Eval(val.min.value, out)])
  {
    if NamesMax(val) { FrameEnd(val.min.value, TypeOf(val.min.value), out, MaxName(x), Eval(val.max.value, out)); }
    if Uses(r, MinName(x)) {
      LetEnd(MinName(x), val.min.value, r, t, out1);
    } else {
      UnframeEnd(r, t, out1, MinName(x), Eval(val.min.value, out));
    }
  }

  lemma {:induction false} LetVarHolds(x: string, t: Type, val: Interval, v: int, out: Env)
    requires Holds(val, t, v, out)
    ensures Holds(LetVar(x, t, val), t, v, LetOut(x, val, out))
  {
    NamesDiffer(x);
    var out' := LetOut(x, val, out);
    if val.min.Some? {
      FineInRange(val.min.value, out);
      if !NamesMin(val) { ConstEnd(val.min.value, t, out, out'); }
    }
    if val.max.Some? {
      FineInRange(val.max.value, out);
      if !Named(val.max) { ConstEnd(val.max.value, t, out, out'); }
    }
  }

  lemma {:induction false} ConstEnd(e: Expr, t: Type, out: Env, out': Env)
    requires IsConst(e) && End(e, t, out)
    ensures End(e, t, out') && Eval(e, out') == Eval(e, out)
  {
    ConstEval(e, out);
    ConstEval(e, out');
    ConstFine(e, out, out');
  }

  lemma {:induction false} ConstFine(e: Expr, out: Env, out': Env)
    requires IsConst(e) && Fine(e, out)
    ensures Fine(e, out')
  {
    if e.Cast? { ConstFine(e.arg, out, out'); }
  }

  lemma {:induction false} LetSound(x: string, val: Interval, body: Interval, t: Type, tv: Type, vv: int, v: int,
                                    out: Env)
    requires NoCapture(x, val) && Holds(val, tv, vv, out) && Holds(body, t, v, LetOut(x, val, out))
    ensures Holds(LetRule(x, val, body), t, v, out)
  {
    if body.min.Some? { WrapEndMeans(x, val, body.min.value, t, out); }
    if body.max.Some? { WrapEndMeans(x, val, body.max.value, t, out); }
  }
}
