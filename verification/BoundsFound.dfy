/**
 * Constant bounds are found: over a scope of constants the ends of an arithmetic expression mention
 * no variable, so a simplifier that folds such expressions leaves constants at both ends.
 */
module BoundsFound {
  import opened Wrappers
  import opened Ir
  import opened Intervals
  import opened BoundsArith
  import opened BoundsMulDiv
  import opened BoundsDivMod
  import opened BoundsCast
  import opened Bounds
  import opened BoundsTight
  import opened BoundsAttained
  import opened WideClass
  import opened RegionIr

  /** The simplifier folds whatever mentions no variable. */
  ghost predicate Folds(o: Oracle) { forall e: Expr :: Names(e) == {} ==> IsConst(o.simplify(e)) }

  /** Arithmetic without selects. */
  predicate Arithmetic(e: Expr) {
    match e
    case Const(_, _) => true
    case Var(_, _) => true
    case Cast(_, a) => Arithmetic(a)
    case Bin(op, a, b) => !op.Mod? && Arithmetic(a) && Arithmetic(b)
    case _ => false
  }

  // ---- the names in the ends a rule builds ----

  lemma {:induction false} ExtremeNames(op: BinOp, a: Expr, b: Expr)
    ensures Names(Extreme(op, a, b)) <= Names(a) + Names(b)
  {
    if Clamped(op, a) { ClampingNames(op, a, b); }
    AbsorbingNames(op, a, b);
  }

  lemma {:induction false} ClampingNames(op: BinOp, a: Expr, b: Expr)
    requires Clamped(op, a)
    ensures Names(Clamping(op, a, b)) <= Names(a) + Names(b)
  {
  }

  lemma {:induction false} AbsorbingNames(op: BinOp, a: Expr, b: Expr)
    ensures Names(Absorbing(op, a, b)) <= Names(a) + Names(b)
  {
  }

  lemma {:induction false} ConstNames(e: Expr)
    requires IsConst(e)
    ensures Names(e) == {}
  {
    if e.Cast? { ConstNames(e.arg); }
  }

  lemma {:induction false} HullNames(w: Expr, x: Expr, y: Expr, z: Expr, ns: set<string>)
    requires Names(w) <= ns && Names(x) <= ns && Names(y) <= ns && Names(z) <= ns
    ensures IntervalNames(Hull(w, x, y, z)) <= ns
  {
    HullEndNames(Min, w, x, y, z, ns);
    HullEndNames(Max, w, x, y, z, ns);
  }

  lemma {:induction false} HullEndNames(op: BinOp, w: Expr, x: Expr, y: Expr, z: Expr, ns: set<string>)
    requires Names(w) <= ns && Names(x) <= ns && Names(y) <= ns && Names(z) <= ns
    ensures Names(Extreme(op, Extreme(op, Extreme(op, w, x), y), z)) <= ns
  {
    ExtremeNames(op, w, x);
    ExtremeNames(op, Extreme(op, w, x), y);
    ExtremeNames(op, Extreme(op, Extreme(op, w, x), y), z);
  }

  lemma {:induction false} ScaleNames(t: Type, a: Interval, c: Expr)
    ensures IntervalNames(ScaleRule(t, a, c)) <= IntervalNames(a) + Names(c)
  {
    if IsBounded(a) {
      ChosenNames(GE, c, Bin(Mul, a.min.value, c), Bin(Mul, a.max.value, c), IntervalNames(a) + Names(c));
    }
  }

  /** Two ends exchanged according to a sign. */
  lemma {:induction false} ChosenNames(op: CmpOp, c: Expr, x: Expr, y: Expr, ns: set<string>)
    requires Names(c) <= ns && Names(x) <= ns && Names(y) <= ns
    ensures var cmp := Cmp(op, c, Const(TypeOf(c), 0));
      Names(Select(cmp, x, y)) <= ns && Names(Select(cmp, y, x)) <= ns
  {
    assert Names(Cmp(op, c, Const(TypeOf(c), 0))) == Names(c);
  }

  lemma {:induction false} ProductNames(o: Oracle, t: Type, a: Interval, b: Interval)
    ensures IntervalNames(ProductRule(o, t, a, b)) <= IntervalNames(a) + IntervalNames(b)
  {
    if IsPoint(b) {
      ScaleNames(t, a, b.min.value);
    } else if IsBounded(a) && IsBounded(b) {
      HullNames(Bin(Mul, a.min.value, b.min.value), Bin(Mul, a.min.value, b.max.value),
                Bin(Mul, a.max.value, b.min.value), Bin(Mul, a.max.value, b.max.value),
                IntervalNames(a) + IntervalNames(b));
    }
  }

  lemma {:induction false} QuotientNames(o: Oracle, e: Expr, a: Interval, b: Interval)
    requires e.Bin? && e.op.Div?
    ensures IntervalNames(DivRule(o, e, a, b)) <= IntervalNames(a) + IntervalNames(b)
  {
    if IsBounded(a) && IsBounded(b) {
      var ns := IntervalNames(a) + IntervalNames(b);
      ChosenNames(GT, b.min.value, Bin(Div, a.min.value, b.min.value), Bin(Div, a.max.value, b.max.value), ns);
      HullNames(Bin(Div, a.min.value, b.min.value), Bin(Div, a.max.value, b.min.value),
                Bin(Div, a.min.value, b.max.value), Bin(Div, a.max.value, b.max.value),
                IntervalNames(a) + IntervalNames(b));
    }
  }

  lemma {:induction false} BinNames(o: Oracle, e: Expr, a: Interval, b: Interval)
    requires e.Bin? && !e.op.Mod?
    ensures IntervalNames(BinRule(o, e, a, b)) <= IntervalNames(a) + IntervalNames(b)
  {
    match e.op
    case Add =>
    case Sub =>
    case Mul =>
      ProductNames(o, TypeOf(e), a, b);
      ProductNames(o, TypeOf(e), b, a);
    case Div => QuotientNames(o, e, a, b);
    case Min => OrderNames(e, a, b);
    case Max => OrderNames(e, a, b);
  }

  lemma {:induction false} OrderNames(e: Expr, a: Interval, b: Interval)
    requires e.Bin?
    ensures IntervalNames(ExtremeRule(e, a, b)) <= IntervalNames(a) + IntervalNames(b)
  {
    if a.min.Some? && b.min.Some? { ExtremeNames(e.op, a.min.value, b.min.value); }
    if a.max.Some? && b.max.Some? { ExtremeNames(e.op, a.max.value, b.max.value); }
  }

  lemma {:induction false} CastNames(o: Oracle, e: Expr, a: Interval, again: Interval)
    requires e.Cast? && !IsNarrow(e.to)
    ensures IntervalNames(CastRule(o, e, a, again.min, again.max)) <= IntervalNames(a)
  {
  }

  // ---- both ends are found ----

  lemma {:induction false} BoundsClosed(o: Oracle, depth: nat, e: Expr, scope: Scope)
    requires Arithmetic(e) && WideExpr(e) && Constants(e, scope)
    ensures IntervalNames(BoundsOf(o, depth, e, scope, true)) == {}
  {
    match e
    case Const(_, _) =>
    case Var(_, x) =>
      assert Uses(e, x);
      ConstNames(scope[x].min.value);
      ConstNames(scope[x].max.value);
    case Cast(_, a) =>
      assert forall x :: Uses(a, x) ==> Uses(e, x);
      BoundsClosed(o, depth, a, scope);
      var i := BoundsOf(o, depth, a, scope, true);
      CastNames(o, e, i, Again(o, depth, e, i, scope));
    case Bin(_, a, b) =>
      assert forall x :: Uses(a, x) || Uses(b, x) ==> Uses(e, x);
      BoundsClosed(o, depth, a, scope);
      BoundsClosed(o, depth, b, scope);
      BinNames(o, e, BoundsOf(o, depth, a, scope, true), BoundsOf(o, depth, b, scope, true));
  }

  /** Both ends of the constant bounds are found, and both are values of the expression inside the scope. */
  lemma {:induction false} ConstantBoundsFound(o: Oracle, depth: nat, e: Expr, scope: Scope, out: Env)
    requires OracleOk(o) && Folds(o) && Arithmetic(e) && WideExpr(e) && TightQuery(e, scope, true, out)
    ensures TightFor(e, ConstantBounds(o, depth, e, scope), scope, out)
      && ConstInterval(ConstantBounds(o, depth, e, scope))
  {
    var i := BoundsOf(o, depth, e, scope, true);
    BoundsClosed(o, depth, e, scope);
    BoundsTightFor(o, depth, e, scope, true, out);
    assert SimplifyOk(o, i.min.value, out) && SimplifyOk(o, i.max.value, out);
    assert Names(i.min.value) == {} && Names(i.max.value) == {};
    var r := ConstantBounds(o, depth, e, scope);
    assert EndAt(r, false, out) == EndAt(i, false, out) && EndAt(r, true, out) == EndAt(i, true, out);
  }
}
