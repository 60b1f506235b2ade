/**
 * Symbolic intervals: optional lower and upper bound expressions, the eager
 * minimum and maximum used to build them, and when an expression has a meaning at all.
 */
module Intervals {
  import opened Wrappers
  import opened Ir

  /** An absent end is an infinity. */
  datatype Interval = Interval(min: Option<Expr>, max: Option<Expr>)

  const EVERYTHING := Interval(None, None)

  function Point(e: Expr): Interval { Interval(Some(e), Some(e)) }

  predicate IsPoint(i: Interval) { i.min.Some? && i.min == i.max }

  predicate IsBounded(i: Interval) { i.min.Some? && i.max.Some? }

  /** The bounds of a type: its range if it is narrow. */
  function TypeBounds(t: Type): Interval {
    if IsNarrow(t) then Interval(Some(Const(t, Lo(t))), Some(Const(t, Hi(t)))) else EVERYTHING
  }

  // ---- constants, looking through casts ----

  predicate IsConst(e: Expr) {
    match e
    case Const(_, _) => true
    case Cast(_, a) => IsConst(a)
    case _ => false
  }

  predicate IsZero(e: Expr) {
    match e
    case Const(_, v) => v == 0
    case Cast(_, a) => IsZero(a)
    case _ => false
  }

  predicate IsOne(e: Expr) {
    match e
    case Const(_, v) => v == 1
    case Cast(_, a) => IsOne(a)
    case _ => false
  }

  predicate IsPositiveConst(e: Expr) {
    match e
    case Const(_, v) => v > 0
    case Cast(_, a) => IsPositiveConst(a)
    case _ => false
  }

  predicate IsNegativeConst(e: Expr) {
    match e
    case Const(_, v) => v < 0
    case Cast(_, a) => IsNegativeConst(a)
    case _ => false
  }

  /** No cast around the constant changes its value. */
  predicate HonestConst(e: Expr) {
    match e
    case Const(_, _) => true
    case Cast(t, a) => HonestConst(a) && InRange(t, Eval(a, map[]))
    case _ => true
  }

  // ---- when an expression means something ----

  /** Operand types agree, values are in range, divisors are not zero. */
  predicate Fine(e: Expr, env: Env) {
    match e
    case Const(t, v) => InRange(t, v)
    case Var(t, x) => InRange(t, Lookup(env, x))
    case Cast(_, a) => Fine(a, env)
    case Bin(op, a, b) =>
      Fine(a, env) && Fine(b, env) && TypeOf(a) == TypeOf(b) && (op.Div? || op.Mod? ==> Eval(b, env) != 0)
    case Cmp(_, a, b) => Fine(a, env) && Fine(b, env) && TypeOf(a) == TypeOf(b)
    case And(a, b) => Fine(a, env) && Fine(b, env) && TypeOf(a) == TypeOf(b) == UInt1
    case Or(a, b) => Fine(a, env) && Fine(b, env) && TypeOf(a) == TypeOf(b) == UInt1
    case Not(a) => Fine(a, env) && TypeOf(a) == UInt1
    case Select(c, t, f) =>
      Fine(c, env) && Fine(t, env) && Fine(f, env) && TypeOf(c) == UInt1 && TypeOf(t) == TypeOf(f)
    case Let(x, v, b) => Fine(v, env) && Fine(b, env[x := Eval(v, env)])
  }

  lemma {:induction false} FineInRange(e: Expr, env: Env)
    requires Fine(e, env)
    ensures InRange(TypeOf(e), Eval(e, env))
  {
    match e
    case Select(_, t, f) => FineInRange(t, env); FineInRange(f, env);
    case Let(x, v, b) => FineInRange(b, env[x := Eval(v, env)]);
    case _ =>
  }

  lemma {:induction false} FineAgree(e: Expr, env: Env, env': Env)
    requires AgreeOn(e, env, env') && Fine(e, env)
    ensures Fine(e, env')
  {
    match e
    case Const(_, _) =>
    case Var(_, x) => assert Uses(e, x);
    case Cast(_, a) => assert forall x :: Uses(a, x) ==> Uses(e, x); FineAgree(a, env, env');
    case Bin(_, a, b) =>
      assert forall x :: Uses(a, x) || Uses(b, x) ==> Uses(e, x);
      FineAgree(a, env, env'); FineAgree(b, env, env'); EvalAgree(b, env, env');
    case Cmp(_, a, b) =>
      assert forall x :: Uses(a, x) || Uses(b, x) ==> Uses(e, x);
      FineAgree(a, env, env'); FineAgree(b, env, env');
    case And(a, b) =>
      assert forall x :: Uses(a, x) || Uses(b, x) ==> Uses(e, x);
      FineAgree(a, env, env'); FineAgree(b, env, env');
    case Or(a, b) =>
      assert forall x :: Uses(a, x) || Uses(b, x) ==> Uses(e, x);
      FineAgree(a, env, env'); FineAgree(b, env, env');
    case Not(a) => assert forall x :: Uses(a, x) ==> Uses(e, x); FineAgree(a, env, env');
    case Select(c, t, f) =>
      assert forall x :: Uses(c, x) || Uses(t, x) || Uses(f, x) ==> Uses(e, x);
      FineAgree(c, env, env'); FineAgree(t, env, env'); FineAgree(f, env, env');
    case Let(y, v, b) =>
      assert forall x :: Uses(v, x) || Uses(b, x) ==> Uses(e, x);
      FineAgree(v, env, env');
      EvalAgree(v, env, env');
      var w := Eval(v, env);
      assert forall x :: Uses(b, x) ==> Lookup(env[y := w], x) == Lookup(env'[y := w], x);
      FineAgree(b, env[y := w], env'[y := w]);
  }

  lemma {:induction false} ConstEval(e: Expr, env: Env)
    requires IsConst(e)
    ensures Eval(e, env) == Eval(e, map[])
  {
    if e.Cast? { ConstEval(e.arg, env); }
  }

  lemma {:induction false} ZeroOne(e: Expr, env: Env)
    ensures IsZero(e) ==> Eval(e, env) == 0
    ensures IsOne(e) ==> Eval(e, env) == 1
  {
    if e.Cast? { ZeroOne(e.arg, env); }
  }

  lemma {:induction false} HonestSign(e: Expr, env: Env)
    requires HonestConst(e)
    ensures IsPositiveConst(e) ==> Eval(e, env) > 0
    ensures IsNegativeConst(e) ==> Eval(e, env) < 0
  {
    if e.Cast? && (IsPositiveConst(e) || IsNegativeConst(e)) {
      HonestSign(e.arg, env);
      SignIsConst(e.arg);
      ConstEval(e.arg, env);
    }
  }

  lemma {:induction false} SignIsConst(e: Expr)
    ensures IsPositiveConst(e) || IsNegativeConst(e) ==> IsConst(e)
  {
    if e.Cast? { SignIsConst(e.arg); }
  }

  // ---- the bounds a value satisfies ----

  /** `e` is a meaningful bound of type `t` in the environment `out`. */
  predicate End(e: Expr, t: Type, out: Env) { Fine(e, out) && TypeOf(e) == t }

  predicate Above(m: Option<Expr>, t: Type, v: int, out: Env) {
    m.Some? ==> End(m.value, t, out) && Eval(m.value, out) <= v
  }

  predicate BelowMax(m: Option<Expr>, t: Type, v: int, out: Env) {
    m.Some? ==> End(m.value, t, out) && v <= Eval(m.value, out)
  }

  /** The value lies in the interval, whose ends are read in `out`. */
  predicate Holds(i: Interval, t: Type, v: int, out: Env) {
    Above(i.min, t, v, out) && BelowMax(i.max, t, v, out)
  }

  lemma TypeBoundsHold(t: Type, v: int, out: Env)
    requires InRange(t, v)
    ensures Holds(TypeBounds(t), t, v, out)
  {
  }

  // ---- eager minimum and maximum ----

  /** The argument order and folding of Interval::make_min, for two present ends. */
  function MinOf(a: Expr, b: Expr): Expr { Extreme(Min, a, b) }

  function MaxOf(a: Expr, b: Expr): Expr { Extreme(Max, a, b) }

  /** `max(x, c)` or `min(x, c)` with a literal on the right. */
  predicate Clamped(op: BinOp, e: Expr) { e.Bin? && e.op == op && e.b.Const? }

  function Fold(op: BinOp, a: Expr, b: Expr): Expr
    requires a.Const? && b.Const?
  {
    Const(a.ty, DoBin(op, a.value, b.value))
  }

  function Extreme(op: BinOp, a: Expr, b: Expr): Expr {
    if a == b then a
    else if a.Const? then (if b.Const? then Fold(op, a, b) else Bin(op, b, a))
    else if Clamped(op, a) then Clamping(op, a, b)
    else if Clamped(op, b) then Bin(op, Bin(op, a, b.a), b.b)
    else Absorbing(op, a, b)
  }

  function Clamping(op: BinOp, a: Expr, b: Expr): Expr
    requires Clamped(op, a)
  {
    if b.Const? then Bin(op, a.a, Fold(op, a.b, b)) else Bin(op, Bin(op, a.a, b), a.b)
  }

  function Absorbing(op: BinOp, a: Expr, b: Expr): Expr {
    if a.Bin? && a.op == op && (a.a == b || a.b == b) then a
    else if b.Bin? && b.op == op && (b.a == a || b.b == a) then b
    else Bin(op, a, b)
  }

  predicate IsExtreme(r: Expr, op: BinOp, x: int, y: int, t: Type, out: Env) {
    End(r, t, out) && Eval(r, out) == DoBin(op, x, y)
  }

  predicate IsOrder(op: BinOp) { op.Min? || op.Max? }

  /** A minimum or maximum never wraps. */
  lemma {:induction false} BinMeans(op: BinOp, a: Expr, b: Expr, t: Type, out: Env)
    requires IsOrder(op) && End(a, t, out) && End(b, t, out)
    ensures IsExtreme(Bin(op, a, b), op, Eval(a, out), Eval(b, out), t, out)
  {
    FineInRange(a, out);
    FineInRange(b, out);
  }

  lemma {:induction false} FoldMeans(op: BinOp, a: Expr, b: Expr, t: Type, out: Env)
    requires IsOrder(op) && End(a, t, out) && End(b, t, out) && a.Const? && b.Const?
    ensures IsExtreme(Fold(op, a, b), op, Eval(a, out), Eval(b, out), t, out)
  {
  }

  lemma {:induction false} PartsMean(op: BinOp, a: Expr, t: Type, out: Env)
    requires IsOrder(op) && a.Bin? && a.op == op && End(a, t, out)
    ensures End(a.a, t, out) && End(a.b, t, out) && Eval(a, out) == DoBin(op, Eval(a.a, out), Eval(a.b, out))
  {
    BinMeans(op, a.a, a.b, t, out);
  }

  /** Pulling a literal outwards. */
  lemma {:induction false} PullMeans(op: BinOp, x: Expr, y: Expr, c: Expr, t: Type, out: Env)
    requires IsOrder(op) && End(x, t, out) && End(y, t, out) && End(c, t, out)
    ensures IsExtreme(Bin(op, Bin(op, x, y), c), op, DoBin(op, Eval(x, out), Eval(c, out)), Eval(y, out), t, out)
    ensures IsExtreme(Bin(op, Bin(op, x, y), c), op, Eval(x, out), DoBin(op, Eval(y, out), Eval(c, out)), t, out)
  {
    BinMeans(op, x, y, t, out);
    BinMeans(op, Bin(op, x, y), c, t, out);
  }

  lemma {:induction false} ClampMeans(op: BinOp, a: Expr, c: Expr, t: Type, out: Env)
    requires IsOrder(op) && Clamped(op, a) && c.Const? && End(a, t, out) && End(c, t, out)
    ensures IsExtreme(Bin(op, a.a, Fold(op, a.b, c)), op, Eval(a, out), Eval(c, out), t, out)
  {
    PartsMean(op, a, t, out);
    FoldMeans(op, a.b, c, t, out);
    BinMeans(op, a.a, Fold(op, a.b, c), t, out);
  }

  lemma {:induction false} AbsorbedMeans(op: BinOp, a: Expr, b: Expr, t: Type, out: Env)
    requires IsOrder(op) && End(a, t, out) && a.Bin? && a.op == op && (a.a == b || a.b == b)
    ensures IsExtreme(a, op, Eval(a, out), Eval(b, out), t, out) && IsExtreme(a, op, Eval(b, out), Eval(a, out), t, out)
  {
    PartsMean(op, a, t, out);
  }

  lemma {:induction false} AbsorbingMeans(op: BinOp, a: Expr, b: Expr, t: Type, out: Env)
    requires IsOrder(op) && End(a, t, out) && End(b, t, out)
    ensures IsExtreme(Absorbing(op, a, b), op, Eval(a, out), Eval(b, out), t, out)
  {
    if a.Bin? && a.op == op && (a.a == b || a.b == b) {
      AbsorbedMeans(op, a, b, t, out);
    } else if b.Bin? && b.op == op && (b.a == a || b.b == a) {
      AbsorbedMeans(op, b, a, t, out);
    } else {
      BinMeans(op, a, b, t, out);
    }
  }

  lemma {:induction false} ClampingMeans(op: BinOp, a: Expr, b: Expr, t: Type, out: Env)
    requires IsOrder(op) && Clamped(op, a) && End(a, t, out) && End(b, t, out)
    ensures IsExtreme(Clamping(op, a, b), op, Eval(a, out), Eval(b, out), t, out)
  {
    if b.Const? {
      ClampMeans(op, a, b, t, out);
    } else {
      PartsMean(op, a, t, out);
      PullMeans(op, a.a, b, a.b, t, out);
    }
  }

  lemma {:induction false} ClampedSecondMeans(op: BinOp, a: Expr, b: Expr, t: Type, out: Env)
    requires IsOrder(op) && Clamped(op, b) && End(a, t, out) && End(b, t, out)
    ensures IsExtreme(Bin(op, Bin(op, a, b.a), b.b), op, Eval(a, out), Eval(b, out), t, out)
  {
    PartsMean(op, b, t, out);
    PullMeans(op, a, b.a, b.b, t, out);
  }

  lemma {:induction false} ConstFirstMeans(op: BinOp, a: Expr, b: Expr, t: Type, out: Env)
    requires IsOrder(op) && a.Const? && End(a, t, out) && End(b, t, out)
    ensures IsExtreme(if b.Const? then Fold(op, a, b) else Bin(op, b, a), op, Eval(a, out), Eval(b, out), t, out)
  {
    if b.Const? { FoldMeans(op, a, b, t, out); } else { BinMeans(op, b, a, t, out); }
  }

  /** Whatever form it takes, it is the minimum or maximum of the two. */
  lemma {:induction false} ExtremeMeans(op: BinOp, a: Expr, b: Expr, t: Type, out: Env)
    requires IsOrder(op) && End(a, t, out) && End(b, t, out)
    ensures IsExtreme(Extreme(op, a, b), op, Eval(a, out), Eval(b, out), t, out)
  {
    if a == b {
    } else if a.Const? { ConstFirstMeans(op, a, b, t, out);
    } else if Clamped(op, a) { ClampingMeans(op, a, b, t, out);
    } else if Clamped(op, b) { ClampedSecondMeans(op, a, b, t, out);
    } else { AbsorbingMeans(op, a, b, t, out); }
  }
}
