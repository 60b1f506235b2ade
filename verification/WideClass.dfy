/**
 * A class of expressions on which every rule of the interval analysis stays inside its guard:
 * 32- and 64-bit integers with + - * min max, division and modulus by positive constants,
 * widening casts, and selects on comparisons of them.
 */
module WideClass {
  import opened Wrappers
  import opened Ir
  import opened Intervals
  import opened BoundsArith
  import opened BoundsMulDiv
  import opened BoundsDivMod
  import opened BoundsLogic
  import opened BoundsCast
  import opened Bounds

  predicate IsWide(t: Type) { t == Int32 || t == Int64 }

  predicate PositiveLiteral(e: Expr) { e.Const? && e.value > 0 }

  predicate WideExpr(e: Expr) {
    match e
    case Const(t, _) => IsWide(t)
    case Var(t, _) => t == Int32
    case Cast(to, a) => IsWide(to) && WideExpr(a)
    case Bin(op, a, b) =>
      && WideExpr(a) && WideExpr(b) && TypeOf(a) == TypeOf(b)
      && (op.Div? || op.Mod? ==> PositiveLiteral(b))
    case Select(c, t, f) => WideBool(c) && WideExpr(t) && WideExpr(f) && TypeOf(t) == TypeOf(f)
    case _ => false
  }

  predicate WideBool(e: Expr) {
    match e
    case Cmp(_, a, b) => WideExpr(a) && WideExpr(b) && TypeOf(a) == TypeOf(b)
    case And(a, b) => WideBool(a) && WideBool(b)
    case Or(a, b) => WideBool(a) && WideBool(b)
    case Not(a) => WideBool(a)
    case _ => false
  }

  predicate IntExpr(e: Expr) { WideExpr(e) && TypeOf(e) == Int32 }

  lemma {:induction false} WideType(e: Expr)
    requires WideExpr(e)
    ensures IsWide(TypeOf(e)) && HonestConst(e)
  {
    match e
    case Cast(_, a) => WideType(a);
    case Bin(_, a, _) => WideType(a);
    case Select(_, t, _) => WideType(t);
    case _ =>
  }

  // ---- ends and intervals of the class ----

  predicate WideEnd(x: Option<Expr>, t: Type) { x.Some? ==> TypeOf(x.value) == t && HonestConst(x.value) }

  predicate WideInterval(i: Interval, t: Type) { IsWide(t) && WideEnd(i.min, t) && WideEnd(i.max, t) }

  predicate WideScope(scope: Scope) { forall x :: x in scope ==> WideInterval(scope[x], Int32) }

  predicate BoundedScope(scope: Scope) { forall x :: x in scope ==> IsBounded(scope[x]) }

  lemma {:induction false} ExtremeWide(op: BinOp, a: Expr, b: Expr, t: Type)
    requires TypeOf(a) == t && TypeOf(b) == t && HonestConst(a) && HonestConst(b)
    ensures TypeOf(Extreme(op, a, b)) == t && HonestConst(Extreme(op, a, b))
  {
  }

  lemma {:induction false} HullWide(w: Expr, x: Expr, y: Expr, z: Expr, t: Type)
    requires IsWide(t) && TypeOf(w) == TypeOf(x) == TypeOf(y) == TypeOf(z) == t
    requires HonestConst(w) && HonestConst(x) && HonestConst(y) && HonestConst(z)
    ensures WideInterval(Hull(w, x, y, z), t) && IsBounded(Hull(w, x, y, z))
  {
    ExtremesWide(Min, w, x, y, z, t);
    ExtremesWide(Max, w, x, y, z, t);
  }

  lemma {:induction false} ExtremesWide(op: BinOp, w: Expr, x: Expr, y: Expr, z: Expr, t: Type)
    requires TypeOf(w) == TypeOf(x) == TypeOf(y) == TypeOf(z) == t
    requires HonestConst(w) && HonestConst(x) && HonestConst(y) && HonestConst(z)
    ensures var e := Extreme(op, Extreme(op, Extreme(op, w, x), y), z); TypeOf(e) == t && HonestConst(e)
  {
    ExtremeWide(op, w, x, t);
    ExtremeWide(op, Extreme(op, w, x), y, t);
    ExtremeWide(op, Extreme(op, Extreme(op, w, x), y), z, t);
  }

  /** What the rules keep of operands in the class. */
  ghost predicate Kept(i: Interval, t: Type, bounded: bool) { WideInterval(i, t) && (bounded ==> IsBounded(i)) }

  lemma {:induction false} SumKept(o: Oracle, e: Expr, a: Interval, b: Interval, t: Type, bounded: bool)
    requires e.Bin? && (e.op.Add? || e.op.Sub?) && TypeOf(e) == t && Kept(a, t, bounded) && Kept(b, t, bounded)
    ensures Kept(BinRule(o, e, a, b), t, bounded) && (e.op.Add? ==> AddGuard(e, a, b))
      && (e.op.Sub? ==> SubGuard(e, a, b))
  {
  }

  lemma {:induction false} MulKept(o: Oracle, e: Expr, a: Interval, b: Interval, t: Type, bounded: bool)
    requires e.Bin? && e.op.Mul? && TypeOf(e) == t && Kept(a, t, bounded) && Kept(b, t, bounded)
    ensures Kept(MulRule(o, e, a, b), t, bounded) && MulGuard(a, b)
  {
    ProductKept(a, b, t, bounded);
    ProductKept(b, a, t, bounded);
  }

  lemma {:induction false} ProductKept(a: Interval, b: Interval, t: Type, bounded: bool)
    requires Kept(a, t, bounded) && Kept(b, t, bounded)
    ensures Kept(ProductEnds(t, a, b), t, bounded)
  {
    if !IsPoint(b) && IsBounded(a) && IsBounded(b) {
      HullWide(Bin(Mul, a.min.value, b.min.value), Bin(Mul, a.min.value, b.max.value),
               Bin(Mul, a.max.value, b.min.value), Bin(Mul, a.max.value, b.max.value), t);
    }
  }

  lemma {:induction false} DivKept(o: Oracle, e: Expr, a: Interval, b: Expr, t: Type, bounded: bool, out: Env)
    requires e.Bin? && e.op.Div? && TypeOf(e) == t && Kept(a, t, bounded) && PositiveLiteral(b) && b.ty == t
    ensures Kept(DivRule(o, e, a, Point(b)), t, bounded) && DivGuard(e, a, Point(b), out)
  {
    if IsBounded(a) {
      HullWide(Bin(Div, a.min.value, b), Bin(Div, a.max.value, b), Bin(Div, a.min.value, b), Bin(Div, a.max.value, b),
               t);
    }
  }

  lemma {:induction false} ModKept(e: Expr, a: Interval, b: Expr, t: Type, bounded: bool)
    requires e.Bin? && e.op.Mod? && TypeOf(e) == t && Kept(a, t, bounded) && PositiveLiteral(b) && b.ty == t
    ensures Kept(ModRule(e, a, Point(b)), t, bounded) && ModGuard(Point(b))
  {
  }

  lemma {:induction false} OrderKept(e: Expr, a: Interval, b: Interval, t: Type, bounded: bool)
    requires e.Bin? && IsOrder(e.op) && TypeOf(e) == t && Kept(a, t, bounded) && Kept(b, t, bounded)
    ensures Kept(ExtremeRule(e, a, b), t, bounded)
  {
    if a.min.Some? && b.min.Some? { ExtremeWide(e.op, a.min.value, b.min.value, t); }
    if a.max.Some? && b.max.Some? { ExtremeWide(e.op, a.max.value, b.max.value, t); }
  }

  lemma {:induction false} SelectEndKept(o: Oracle, op: BinOp, t: Type, x: Option<Expr>, y: Option<Expr>,
                                         cond: Interval, bounded: bool)
    requires WideEnd(x, t) && WideEnd(y, t) && (bounded ==> x.Some? && y.Some? && IsBounded(cond))
    ensures WideEnd(SelectEndRule(o, op, t, x, y, cond), t) && (bounded ==> SelectEndRule(o, op, t, x, y, cond).Some?)
  {
    if x.Some? && y.Some? && x != y && !IsPoint(cond) && IsBounded(cond) {
      SelectBetweenKept(o, op, t, x.value, y.value, cond.min.value, cond.max.value);
    }
  }

  lemma {:induction false} SelectBetweenKept(o: Oracle, op: BinOp, t: Type, x: Expr, y: Expr, c1: Expr, c2: Expr)
    requires TypeOf(x) == t && TypeOf(y) == t && HonestConst(x) && HonestConst(y)
    ensures var r := SelectBetween(o, op, t, x, y, c1, c2); TypeOf(r) == t && HonestConst(r)
  {
    ExtremeWide(op, x, y, t);
    var n, m := o.unique([c1, x, y]), o.unique([c2, x, y]);
    ExtremeWide(op, Select(c1, Var(t, n), y), Var(t, n), t);
    ExtremeWide(op, Select(c2, x, Var(t, m)), Var(t, m), t);
    var p := o.unique([c1, c2, x, y]);
    var q := o.unique([c1, c2, x, y, Var(t, p)]);
    ExtremeWide(op, Select(c1, Var(t, p), Var(t, q)), Select(c2, Var(t, p), Var(t, q)), t);
  }

  lemma {:induction false} CastKept(o: Oracle, e: Expr, a: Interval, again: Interval, bounded: bool)
    requires e.Cast? && IsWide(e.to) && HonestConst(e) && Kept(a, TypeOf(e.arg), bounded)
    ensures Kept(CastRule(o, e, a, again.min, again.max), e.to, bounded) && !Strips(e, a)
  {
  }

  lemma {:induction false} VarKept(e: Expr, scope: Scope, constBound: bool, bounded: bool)
    requires e.Var? && e.vty == Int32 && WideScope(scope) && (bounded ==> BoundedScope(scope) && !constBound)
    ensures Kept(VarRule(e, scope, constBound), Int32, bounded)
  {
  }

  // ---- the class is safe ----

  lemma {:induction false} BinKept(o: Oracle, e: Expr, a: Interval, b: Interval, bounded: bool, out: Env)
    requires WideExpr(e) && e.Bin? && Kept(a, TypeOf(e), bounded) && Kept(b, TypeOf(e), bounded)
    requires e.op.Div? || e.op.Mod? ==> b == Point(e.b)
    ensures Kept(BinRule(o, e, a, b), TypeOf(e), bounded) && BinGuard(e, a, b, out)
  {
    match e.op
    case Add => SumKept(o, e, a, b, TypeOf(e), bounded);
    case Sub => SumKept(o, e, a, b, TypeOf(e), bounded);
    case Mul => MulKept(o, e, a, b, TypeOf(e), bounded);
    case Div => DivKept(o, e, a, e.b, TypeOf(e), bounded, out);
    case Mod => ModKept(e, a, e.b, TypeOf(e), bounded);
    case Min => OrderKept(e, a, b, TypeOf(e), bounded);
    case Max => OrderKept(e, a, b, TypeOf(e), bounded);
  }

  /**
   * Every expression of the class is analysed safely; with bounded scopes, in symbolic mode, its interval
   * is bounded.
   */
  lemma {:induction false} WideIsSafe(o: Oracle, depth: nat, e: Expr, scope: Scope, constBound: bool, bounded: bool,
                                      out: Env)
    requires WideExpr(e) && WideScope(scope) && (bounded ==> BoundedScope(scope) && !constBound)
    ensures Safe(o, depth, e, scope, constBound, out)
      && Kept(BoundsOf(o, depth, e, scope, constBound), TypeOf(e), bounded)
    decreases e
  {
    WideType(e);
    match e
    case Const(_, _) =>
    case Var(_, _) => VarKept(e, scope, constBound, bounded);
    case Cast(_, v) =>
      WideIsSafe(o, depth, v, scope, constBound, bounded, out);
      CastKept(o, e, BoundsOf(o, depth, v, scope, constBound),
               Again(o, depth, e, BoundsOf(o, depth, v, scope, constBound), scope), bounded);
    case Bin(_, x, y) =>
      WideIsSafe(o, depth, x, scope, constBound, bounded, out);
      WideIsSafe(o, depth, y, scope, constBound, bounded, out);
      BinKept(o, e, BoundsOf(o, depth, x, scope, constBound), BoundsOf(o, depth, y, scope, constBound), bounded, out);
    case Select(c, t, f) =>
      BoolIsSafe(o, depth, c, scope, constBound, bounded, out);
      WideIsSafe(o, depth, t, scope, constBound, bounded, out);
      WideIsSafe(o, depth, f, scope, constBound, bounded, out);
      SelectKept(o, depth, e, scope, constBound, bounded);
  }

  lemma {:induction false} SelectKept(o: Oracle, depth: nat, e: Expr, scope: Scope, constBound: bool, bounded: bool)
    requires e.Select? && TypeOf(e.onTrue) == TypeOf(e.onFalse)
    requires Kept(BoundsOf(o, depth, e.onTrue, scope, constBound), TypeOf(e), bounded)
    requires Kept(BoundsOf(o, depth, e.onFalse, scope, constBound), TypeOf(e), bounded)
    requires bounded ==> IsBounded(BoundsOf(o, depth, e.cond, scope, constBound))
    ensures Kept(BoundsOf(o, depth, e, scope, constBound), TypeOf(e), bounded)
  {
    var a, b := BoundsOf(o, depth, e.onTrue, scope, constBound), BoundsOf(o, depth, e.onFalse, scope, constBound);
    var cond := BoundsOf(o, depth, e.cond, scope, constBound);
    SelectEndKept(o, Min, TypeOf(e), a.min, b.min, cond, bounded);
    SelectEndKept(o, Max, TypeOf(e), a.max, b.max, cond, bounded);
  }

  lemma {:induction false} BoolIsSafe(o: Oracle, depth: nat, e: Expr, scope: Scope, constBound: bool, bounded: bool,
                                      out: Env)
    requires WideBool(e) && WideScope(scope) && (bounded ==> BoundedScope(scope) && !constBound)
    ensures Safe(o, depth, e, scope, constBound, out)
    ensures bounded ==> IsBounded(BoundsOf(o, depth, e, scope, constBound))
    decreases e
  {
    match e
    case Cmp(_, x, y) =>
      WideIsSafe(o, depth, x, scope, constBound, bounded, out);
      WideIsSafe(o, depth, y, scope, constBound, bounded, out);
    case And(x, y) =>
      BoolIsSafe(o, depth, x, scope, constBound, bounded, out);
      BoolIsSafe(o, depth, y, scope, constBound, bounded, out);
    case Or(x, y) =>
      BoolIsSafe(o, depth, x, scope, constBound, bounded, out);
      BoolIsSafe(o, depth, y, scope, constBound, bounded, out);
    case Not(x) => BoolIsSafe(o, depth, x, scope, constBound, bounded, out);
  }
}
