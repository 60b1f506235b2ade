/**
 * The interval rules for comparisons, boolean operators, select and cast.  A boolean's
 * lower bound is a sufficient condition and its upper bound a necessary one.
 */
module BoundsLogic {
  import opened Wrappers
  import opened Ir
  import opened Intervals
  import opened BoundsArith
  import opened BoundsMulDiv

  const FALSE := Const(UInt1, 0)
  const TRUE := Const(UInt1, 1)

  // ---- comparisons ----

  function CompareRule(op: CmpOp, a: Interval, b: Interval): Interval {
    if IsBounded(a) && IsBounded(b) then
      Interval(Some(Cmp(op, a.max.value, b.min.value)), Some(Cmp(op, a.min.value, b.max.value)))
    else TypeBounds(UInt1)
  }

  lemma {:induction false} CompareSound(op: CmpOp, a: Interval, b: Interval, t: Type, va: int, vb: int, out: Env)
    requires (op.LT? || op.LE?) && Holds(a, t, va, out) && Holds(b, t, vb, out)
    ensures Holds(CompareRule(op, a, b), UInt1, Truth(DoCmp(op, va, vb)), out)
  {
    if IsBounded(a) && IsBounded(b) {
      CmpEnd(op, a.max.value, b.min.value, t, out);
      CmpEnd(op, a.min.value, b.max.value, t, out);
    }
  }

  function EqualRule(e: Expr, a: Interval, b: Interval): Interval
    requires e.Cmp?
  {
    if a == Point(e.ca) && b == Point(e.cb) then Point(e)
    else if IsPoint(a) && IsPoint(b) then Point(Cmp(e.cop, a.min.value, b.min.value))
    else if !(IsBounded(a) && IsBounded(b)) then TypeBounds(UInt1)
    else if e.cop.EQ? then
      Interval(Some(FALSE), Some(And(Cmp(LE, a.min.value, b.max.value), Cmp(LE, b.min.value, a.max.value))))
    else
      Interval(Some(Or(Cmp(GT, a.min.value, b.max.value), Cmp(GT, b.min.value, a.max.value))), Some(TRUE))
  }

  lemma {:induction false} EqualSound(e: Expr, a: Interval, b: Interval, t: Type, va: int, vb: int, out: Env)
    requires e.Cmp? && (e.cop.EQ? || e.cop.NE?) && Holds(a, t, va, out) && Holds(b, t, vb, out)
    ensures Holds(EqualRule(e, a, b), UInt1, Truth(DoCmp(e.cop, va, vb)), out)
  {
    if IsPoint(a) && IsPoint(b) {
      EqualPoints(e.cop, a.min.value, b.min.value, t, va, vb, out);
    } else if IsBounded(a) && IsBounded(b) {
      OverlapMeans(a, b, t, va, vb, out);
    } else {
      TypeBoundsHold(UInt1, Truth(DoCmp(e.cop, va, vb)), out);
    }
  }

  lemma {:induction false} EqualPoints(cop: CmpOp, x: Expr, y: Expr, t: Type, va: int, vb: int, out: Env)
    requires Holds(Point(x), t, va, out) && Holds(Point(y), t, vb, out)
    ensures Holds(Point(Cmp(cop, x, y)), UInt1, Truth(DoCmp(cop, va, vb)), out)
  {
    CmpEnd(cop, x, y, t, out);
  }

  /** Equal values need overlapping ranges; apart ranges make values different. */
  lemma {:induction false} OverlapMeans(a: Interval, b: Interval, t: Type, va: int, vb: int, out: Env)
    requires IsBounded(a) && IsBounded(b) && Holds(a, t, va, out) && Holds(b, t, vb, out)
    ensures var over := And(Cmp(LE, a.min.value, b.max.value), Cmp(LE, b.min.value, a.max.value));
      End(over, UInt1, out) && Truth(va == vb) <= Eval(over, out)
    ensures var apart := Or(Cmp(GT, a.min.value, b.max.value), Cmp(GT, b.min.value, a.max.value));
      End(apart, UInt1, out) && Eval(apart, out) <= Truth(va != vb)
  {
    CmpEnd(LE, a.min.value, b.max.value, t, out);
    CmpEnd(LE, b.min.value, a.max.value, t, out);
    PlainConjMeans(true, Cmp(LE, a.min.value, b.max.value), Cmp(LE, b.min.value, a.max.value), out);
    CmpEnd(GT, a.min.value, b.max.value, t, out);
    CmpEnd(GT, b.min.value, a.max.value, t, out);
    PlainConjMeans(false, Cmp(GT, a.min.value, b.max.value), Cmp(GT, b.min.value, a.max.value), out);
  }

  // ---- boolean operators ----

  function MakeAnd(a: Expr, b: Expr): Expr {
    if IsOne(a) then b else if IsOne(b) then a else if IsZero(a) then a else if IsZero(b) then b else And(a, b)
  }

  function MakeOr(a: Expr, b: Expr): Expr {
    if IsOne(a) then a else if IsOne(b) then b else if IsZero(a) then b else if IsZero(b) then a else Or(a, b)
  }

  function MakeNot(a: Expr): Expr {
    if IsOne(a) then Const(TypeOf(a), 0) else if IsZero(a) then Const(TypeOf(a), 1) else Not(a)
  }

  function Conj(isAnd: bool, x: int, y: int): int {
    Truth(if isAnd then x != 0 && y != 0 else x != 0 || y != 0)
  }

  function MakeConj(isAnd: bool, a: Expr, b: Expr): Expr { if isAnd then MakeAnd(a, b) else MakeOr(a, b) }

  lemma {:induction false} MakeAndMeans(a: Expr, b: Expr, out: Env)
    requires End(a, UInt1, out) && End(b, UInt1, out) && Bit(Eval(a, out)) && Bit(Eval(b, out))
    ensures End(MakeAnd(a, b), UInt1, out) && Eval(MakeAnd(a, b), out) == Conj(true, Eval(a, out), Eval(b, out))
  {
    ZeroOne(a, out);
    ZeroOne(b, out);
    PlainConjMeans(true, a, b, out);
  }

  lemma {:induction false} MakeOrMeans(a: Expr, b: Expr, out: Env)
    requires End(a, UInt1, out) && End(b, UInt1, out) && Bit(Eval(a, out)) && Bit(Eval(b, out))
    ensures End(MakeOr(a, b), UInt1, out) && Eval(MakeOr(a, b), out) == Conj(false, Eval(a, out), Eval(b, out))
  {
    ZeroOne(a, out);
    ZeroOne(b, out);
    PlainConjMeans(false, a, b, out);
  }

  predicate Bit(v: int) { v == 0 || v == 1 }

  lemma {:induction false} MakeConjMeans(isAnd: bool, a: Expr, b: Expr, out: Env)
    requires End(a, UInt1, out) && End(b, UInt1, out)
    ensures End(MakeConj(isAnd, a, b), UInt1, out)
    ensures Eval(MakeConj(isAnd, a, b), out) == Conj(isAnd, Eval(a, out), Eval(b, out))
  {
    FineInRange(a, out);
    FineInRange(b, out);
    if isAnd { MakeAndMeans(a, b, out); } else { MakeOrMeans(a, b, out); }
  }

  lemma {:induction false} MakeNotMeans(a: Expr, out: Env)
    requires End(a, UInt1, out)
    ensures End(MakeNot(a), UInt1, out) && Eval(MakeNot(a), out) == Truth(Eval(a, out) == 0)
  {
    ZeroOne(a, out);
    NotMeans(a, out);
  }

  /** An infinite boolean end has no expression to combine; it stays infinite. */
  function ConjEnd(isAnd: bool, x: Option<Expr>, y: Option<Expr>): Option<Expr> {
    if x.Some? && y.Some? then Some(MakeConj(isAnd, x.value, y.value)) else None
  }

  /** `e` is an And or an Or of `l` and `r`. */
  function ConjRule(e: Expr, isAnd: bool, l: Expr, r: Expr, a: Interval, b: Interval): Interval {
    if a == Point(l) && b == Point(r) then Point(e)
    else if IsPoint(a) && IsPoint(b) then
      Point(if isAnd then And(a.min.value, b.min.value) else Or(a.min.value, b.min.value))
    else Interval(ConjEnd(isAnd, a.min, b.min), ConjEnd(isAnd, a.max, b.max))
  }

  lemma {:induction false} PlainConjMeans(isAnd: bool, a: Expr, b: Expr, out: Env)
    requires End(a, UInt1, out) && End(b, UInt1, out)
    ensures var r := if isAnd then And(a, b) else Or(a, b);
      End(r, UInt1, out) && Eval(r, out) == Conj(isAnd, Eval(a, out), Eval(b, out))
  {
  }

  lemma {:induction false} ConjSound(e: Expr, isAnd: bool, l: Expr, r: Expr, a: Interval, b: Interval, va: int,
                                     vb: int, out: Env)
    requires e == if isAnd then And(l, r) else Or(l, r)
    requires Holds(a, UInt1, va, out) && Holds(b, UInt1, vb, out) && InRange(UInt1, va) && InRange(UInt1, vb)
    ensures Holds(ConjRule(e, isAnd, l, r, a, b), UInt1, Conj(isAnd, va, vb), out)
  {
    if IsPoint(a) && IsPoint(b) {
      PlainConjMeans(isAnd, a.min.value, b.min.value, out);
    } else {
      ConjEndsHold(isAnd, a, b, va, vb, out);
    }
  }

  lemma {:induction false} ConjEndsHold(isAnd: bool, a: Interval, b: Interval, va: int, vb: int, out: Env)
    requires Holds(a, UInt1, va, out) && Holds(b, UInt1, vb, out) && InRange(UInt1, va) && InRange(UInt1, vb)
    ensures Holds(Interval(ConjEnd(isAnd, a.min, b.min), ConjEnd(isAnd, a.max, b.max)), UInt1, Conj(isAnd, va, vb), out)
  {
    if a.min.Some? && b.min.Some? {
      FineInRange(a.min.value, out);
      FineInRange(b.min.value, out);
      MakeConjMeans(isAnd, a.min.value, b.min.value, out);
    }
    if a.max.Some? && b.max.Some? {
      FineInRange(a.max.value, out);
      FineInRange(b.max.value, out);
      MakeConjMeans(isAnd, a.max.value, b.max.value, out);
    }
  }

  function NotRule(e: Expr, a: Interval): Interval
    requires e.Not?
  {
    if a == Point(e.n) then Point(e)
    else if IsPoint(a) then Point(Not(a.min.value))
    else Interval(if a.max.Some? then Some(MakeNot(a.max.value)) else None,
                  if a.min.Some? then Some(MakeNot(a.min.value)) else None)
  }

  lemma {:induction false} NotSound(e: Expr, a: Interval, va: int, out: Env)
    requires e.Not? && Holds(a, UInt1, va, out) && InRange(UInt1, va)
    ensures Holds(NotRule(e, a), UInt1, Truth(va == 0), out)
  {
    if IsPoint(a) {
      NotMeans(a.min.value, out);
    } else {
      if a.min.Some? { FineInRange(a.min.value, out); MakeNotMeans(a.min.value, out); }
      if a.max.Some? { FineInRange(a.max.value, out); MakeNotMeans(a.max.value, out); }
    }
  }

  lemma {:induction false} NotMeans(a: Expr, out: Env)
    requires End(a, UInt1, out)
    ensures End(Not(a), UInt1, out) && Eval(Not(a), out) == Truth(Eval(a, out) == 0)
  {
  }

  // ---- select ----

  function Shared(op: BinOp, n: string, t: Type, shared: Expr, c: Expr, onTrue: Expr, onFalse: Expr): Expr {
    Let(n, shared, Extreme(op, Select(c, onTrue, onFalse), Var(t, n)))
  }

  /** One end of a select: `op` is Min for the lower end, Max for the upper one. */
  function SelectEndRule(o: Oracle, op: BinOp, t: Type, x: Option<Expr>, y: Option<Expr>,
                         cond: Interval): Option<Expr> {
    if x.None? || y.None? then None
    else if x == y then x
    else if IsPoint(cond) then Some(Select(cond.min.value, x.value, y.value))
    else if !IsBounded(cond) then None
    else Some(SelectBetween(o, op, t, x.value, y.value, cond.min.value, cond.max.value))
  }

  function SelectBetween(o: Oracle, op: BinOp, t: Type, x: Expr, y: Expr, c1: Expr, c2: Expr): Expr {
    if IsZero(c1) && IsOne(c2) then Extreme(op, x, y)
    else if IsOne(c2) then
      var n := o.unique([c1, x, y]);
      Shared(op, n, t, x, c1, Var(t, n), y)
    else if IsZero(c1) then
      var n := o.unique([c2, x, y]);
      Shared(op, n, t, y, c2, x, Var(t, n))
    else TwoWay(op, t, x, y, c1, c2, o.unique([c1, c2, x, y]),
                o.unique([c1, c2, x, y, Var(t, o.unique([c1, c2, x, y]))]))
  }

  function TwoWay(op: BinOp, t: Type, x: Expr, y: Expr, c1: Expr, c2: Expr, n1: string, n2: string): Expr {
    Let(n2, y, Let(n1, x, Extreme(op, Select(c1, Var(t, n1), Var(t, n2)), Select(c2, Var(t, n1), Var(t, n2)))))
  }

  function SelectRule(o: Oracle, t: Type, a: Interval, b: Interval, cond: Interval): Interval {
    if IsPoint(cond) && IsOne(cond.min.value) then a
    else if IsPoint(cond) && IsZero(cond.min.value) then b
    else Interval(SelectEndRule(o, Min, t, a.min, b.min, cond), SelectEndRule(o, Max, t, a.max, b.max, cond))
  }

  /** `r` is a meaningful end on the right side of both values the select can take. */
  predicate Bounds(op: BinOp, r: Expr, t: Type, v: int, out: Env) {
    End(r, t, out) && (if op.Min? then Eval(r, out) <= v else v <= Eval(r, out))
  }

  lemma {:induction false} FrameEnd(e: Expr, t: Type, out: Env, n: string, w: int)
    requires End(e, t, out) && !Uses(e, n)
    ensures End(e, t, out[n := w]) && Eval(e, out[n := w]) == Eval(e, out)
  {
    EvalFrame(e, out, n, w);
    FineAgree(e, out, out[n := w]);
  }

  lemma {:induction false} LetEnd(n: string, v: Expr, b: Expr, t: Type, out: Env)
    requires Fine(v, out) && End(b, t, out[n := Eval(v, out)])
    ensures End(Let(n, v, b), t, out) && Eval(Let(n, v, b), out) == Eval(b, out[n := Eval(v, out)])
  {
  }

  lemma {:induction false} VarEnd(t: Type, n: string, out: Env, w: int)
    requires InRange(t, w)
    ensures End(Var(t, n), t, out[n := w]) && Eval(Var(t, n), out[n := w]) == w
  {
  }

  /** The shared end under a name, against a choice between it and the other end. */
  lemma {:induction false} SharedMeans(op: BinOp, n: string, t: Type, shared: Expr, other: Expr, c: Expr, first: bool,
                                       out: Env)
    requires IsOrder(op) && End(shared, t, out) && End(other, t, out) && End(c, UInt1, out)
    requires !Uses(c, n) && !Uses(other, n)
    ensures var r := Shared(op, n, t, shared, c, if first then Var(t, n) else other, if first then other
      else Var(t, n));
      var s, w := Eval(shared, out), Eval(other, out);
      IsExtreme(r, op, if (Eval(c, out) != 0) == first then s else w, s, t, out)
  {
    var s := Eval(shared, out);
    var inner := out[n := s];
    var x, y := if first then Var(t, n) else other, if first then other else Var(t, n);
    FineInRange(shared, out);
    FrameEnd(other, t, out, n, s);
    FrameEnd(c, UInt1, out, n, s);
    VarEnd(t, n, out, s);
    SelectEnd(c, x, y, t, inner);
    ExtremeMeans(op, Select(c, x, y), Var(t, n), t, inner);
    LetEnd(n, shared, Extreme(op, Select(c, x, y), Var(t, n)), t, out);
  }

  lemma {:induction false} TwoWayMeans(op: BinOp, t: Type, x: Expr, y: Expr, c1: Expr, c2: Expr, n1: string,
                                       n2: string, out: Env)
    requires IsOrder(op) && End(x, t, out) && End(y, t, out) && End(c1, UInt1, out) && End(c2, UInt1, out)
    requires !Uses(x, n2) && !Uses(c1, n1) && !Uses(c1, n2) && !Uses(c2, n1) && !Uses(c2, n2) && n1 != n2
    ensures var u, w := Eval(x, out), Eval(y, out);
      IsExtreme(TwoWay(op, t, x, y, c1, c2, n1, n2), op,
                if Eval(c1, out) != 0 then u else w, if Eval(c2, out) != 0 then u else w, t, out)
  {
    var u, w := Eval(x, out), Eval(y, out);
    var mid := out[n2 := w];
    var inner := mid[n1 := u];
    var a, b := Var(t, n1), Var(t, n2);
    FineInRange(x, out);
    FineInRange(y, out);
    FrameEnd(x, t, out, n2, w);
    FrameEnd(c1, UInt1, out, n2, w);
    FrameEnd(c2, UInt1, out, n2, w);
    FrameEnd(c1, UInt1, mid, n1, u);
    FrameEnd(c2, UInt1, mid, n1, u);
    VarEnd(t, n1, mid, u);
    VarEnd(t, n2, out, w);
    FrameEnd(b, t, mid, n1, u);
    SelectEnd(c1, a, b, t, inner);
    SelectEnd(c2, a, b, t, inner);
    ExtremeMeans(op, Select(c1, a, b), Select(c2, a, b), t, inner);
    LetEnd(n1, x, Extreme(op, Select(c1, a, b), Select(c2, a, b)), t, mid);
    LetEnd(n2, y, Let(n1, x, Extreme(op, Select(c1, a, b), Select(c2, a, b))), t, out);
  }

  /** Between a sufficient and a necessary condition, the end bounds whichever value is chosen. */
  lemma {:induction false} SelectBetweenHolds(o: Oracle, op: BinOp, t: Type, x: Expr, y: Expr, c1: Expr, c2: Expr,
                                              va: int, vb: int, c: int, out: Env)
    requires OracleOk(o) && IsOrder(op) && Bounds(op, x, t, va, out) && Bounds(op, y, t, vb, out)
    requires End(c1, UInt1, out) && End(c2, UInt1, out) && Eval(c1, out) <= c <= Eval(c2, out) && 0 <= c <= 1
    ensures Bounds(op, SelectBetween(o, op, t, x, y, c1, c2), t, if c != 0 then va else vb, out)
  {
    FineInRange(c1, out);
    FineInRange(c2, out);
    ZeroOne(c1, out);
    ZeroOne(c2, out);
    if IsZero(c1) && IsOne(c2) {
      ExtremeMeans(op, x, y, t, out);
    } else if IsOne(c2) {
      assert c1 in [c1, x, y] && y in [c1, x, y];
      SharedMeans(op, o.unique([c1, x, y]), t, x, y, c1, true, out);
    } else if IsZero(c1) {
      assert c2 in [c2, x, y] && x in [c2, x, y];
      SharedMeans(op, o.unique([c2, x, y]), t, y, x, c2, false, out);
    } else {
      TwoWayFresh(o, t, x, y, c1, c2);
      var es := [c1, c2, x, y];
      TwoWayMeans(op, t, x, y, c1, c2, o.unique(es), o.unique([c1, c2, x, y, Var(t, o.unique(es))]), out);
    }
  }

  lemma {:induction false} TwoWayFresh(o: Oracle, t: Type, x: Expr, y: Expr, c1: Expr, c2: Expr)
    requires OracleOk(o)
    ensures var n1 := o.unique([c1, c2, x, y]);
      var n2 := o.unique([c1, c2, x, y, Var(t, n1)]);
      !Uses(x, n2) && !Uses(c1, n1) && !Uses(c1, n2) && !Uses(c2, n1) && !Uses(c2, n2) && n1 != n2
  {
    var es := [c1, c2, x, y];
    var v := Var(t, o.unique(es));
    var fs := [c1, c2, x, y, v];
    assert c1 in es && c2 in es;
    assert c1 in fs && c2 in fs && x in fs && v in fs;
  }

  lemma {:induction false} SelectEndSound(o: Oracle, op: BinOp, t: Type, x: Option<Expr>, y: Option<Expr>,
                                          cond: Interval,
                                          va: int, vb: int, c: int, out: Env)
    requires OracleOk(o) && IsOrder(op) && Holds(cond, UInt1, c, out) && InRange(UInt1, c)
    requires x.Some? ==> Bounds(op, x.value, t, va, out)
    requires y.Some? ==> Bounds(op, y.value, t, vb, out)
    ensures var r := SelectEndRule(o, op, t, x, y, cond);
      r.Some? ==> Bounds(op, r.value, t, if c != 0 then va else vb, out)
  {
    if x.None? || y.None? || x == y {
    } else if IsPoint(cond) {
      SelectEnd(cond.min.value, x.value, y.value, t, out);
    } else if IsBounded(cond) {
      SelectBetweenHolds(o, op, t, x.value, y.value, cond.min.value, cond.max.value, va, vb, c, out);
    }
  }

  lemma {:induction false} SelectSound(o: Oracle, t: Type, a: Interval, b: Interval, cond: Interval,
                                       va: int, vb: int, c: int, out: Env)
    requires OracleOk(o) && Holds(a, t, va, out) && Holds(b, t, vb, out)
    requires Holds(cond, UInt1, c, out) && InRange(UInt1, c)
    ensures Holds(SelectRule(o, t, a, b, cond), t, if c != 0 then va else vb, out)
  {
    if IsPoint(cond) { ZeroOne(cond.min.value, out); }
    SelectEndSound(o, Min, t, a.min, b.min, cond, va, vb, c, out);
    SelectEndSound(o, Max, t, a.max, b.max, cond, va, vb, c, out);
  }
}
