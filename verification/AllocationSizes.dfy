/**
 * The bounds that small allocations are given: over loops and lets whose bounds are arithmetic on
 * constants and enclosing variables, a constant size is found for every allocation, and it is the
 * size for some values of the variables, so that no smaller constant would do for all of them.
 */
module AllocationSizes {
  import opened Wrappers
  import opened Ir
  import opened Intervals
  import opened BoundsArith
  import opened Bounds
  import opened BoundsCast
  import opened BoundsTight
  import opened BoundsAttained
  import opened BoundsFound
  import opened WideClass
  import opened RegionIr
  import opened SmallAllocations
  import opened AllocationPass

  /** An expression over variables of the scope, each used at most once. */
  ghost predicate Tame(e: Expr, scope: Scope) {
    WideExpr(e) && Arithmetic(e) && Once(e, scope) && forall x :: Uses(e, x) ==> x in scope
  }

  ghost predicate TameCode(o: Oracle, depth: nat, c: Code, scope: Scope) {
    match c
    case Nop => true
    case Seq(a, b) => TameCode(o, depth, a, scope) && TameCode(o, depth, b, scope)
    case Loop(_, mn, ext, _, b) =>
      && IntExpr(mn) && IntExpr(ext) && Tame(mn, scope) && Tame(LastOf(c), scope)
      && TameCode(o, depth, b, LoopScope(o, depth, c, scope))
    case LetCode(_, v, b) => IntExpr(v) && Tame(v, scope) && TameCode(o, depth, b, LetScope(o, depth, c, scope))
    case Alloc(_, _, _, es, _, _, b) =>
      && (forall k :: 0 <= k < |es| ==> IntExpr(es[k])) && Tame(TotalExtent(es), scope)
      && TameCode(o, depth, b, scope)
  }

  /** Every variable has constant bounds, in the right order. */
  ghost predicate ConstantScope(scope: Scope, out: Env) {
    WideScope(scope) && GoodScope(scope, out) && forall x :: x in scope ==> ConstInterval(scope[x])
  }

  lemma {:induction false} TameFound(o: Oracle, depth: nat, e: Expr, scope: Scope, out: Env)
    requires OracleOk(o) && Folds(o) && SimplifyKeeps(o) && Tame(e, scope) && ConstantScope(scope, out)
    ensures var i := ConstantBounds(o, depth, e, scope);
      TightFor(e, i, scope, out) && ConstInterval(i) && WideInterval(i, TypeOf(e))
  {
    assert TightQuery(e, scope, true, out);
    ConstantBoundsFound(o, depth, e, scope, out);
    PlainQuery(o, depth, e, scope);
  }

  /** Constant bounds of a 32-bit variable, in the right order. */
  ghost predicate Tidy(i: Interval, out: Env) { Range(i, Int32, out) && ConstInterval(i) && WideInterval(i, Int32) }

  lemma {:induction false} ScopeExtended(scope: Scope, x: string, i: Interval, out: Env)
    requires ConstantScope(scope, out) && Tidy(i, out)
    ensures ConstantScope(scope[x := i], out)
  {
  }

  /** The union of two intervals runs from the lesser lower to the greater upper end. */
  ghost predicate IsUnion(u: Interval, a: Interval, b: Interval, out: Env)
    requires IsBounded(a) && IsBounded(b)
  {
    && Tidy(u, out)
    && EndAt(u, false, out) == MinInt(EndAt(a, false, out), EndAt(b, false, out))
    && EndAt(u, true, out) == MaxInt(EndAt(a, true, out), EndAt(b, true, out))
  }

  lemma {:induction false} UnionEnds(o: Oracle, a: Interval, b: Interval, out: Env)
    requires OracleOk(o) && Folds(o) && SimplifyKeeps(o) && Tidy(a, out) && Tidy(b, out)
    ensures IsUnion(Union(o, a, b), a, b, out)
  {
    var lo, hi := o.simplify(MinOf(a.min.value, b.min.value)), o.simplify(MaxOf(a.max.value, b.max.value));
    UnionEnd(o, Min, a.min.value, b.min.value, out);
    UnionEnd(o, Max, a.max.value, b.max.value, out);
    UnionWide(o, a, b);
    MinToMax(a, b, lo, hi, out);
  }

  lemma {:induction false} MinToMax(a: Interval, b: Interval, lo: Expr, hi: Expr, out: Env)
    requires Range(a, Int32, out) && Range(b, Int32, out) && End(lo, Int32, out) && End(hi, Int32, out)
    requires Eval(lo, out) == DoBin(Min, EndAt(a, false, out), EndAt(b, false, out))
    requires Eval(hi, out) == DoBin(Max, EndAt(a, true, out), EndAt(b, true, out))
    requires IsConst(lo) && IsConst(hi) && WideInterval(Interval(Some(lo), Some(hi)), Int32)
    ensures IsUnion(Interval(Some(lo), Some(hi)), a, b, out)
  {
  }

  lemma {:induction false} UnionEnd(o: Oracle, op: BinOp, x: Expr, y: Expr, out: Env)
    requires OracleOk(o) && Folds(o) && IsOrder(op) && End(x, Int32, out) && End(y, Int32, out)
    requires IsConst(x) && IsConst(y)
    ensures var r := o.simplify(Extreme(op, x, y));
      End(r, Int32, out) && IsConst(r) && Eval(r, out) == DoBin(op, Eval(x, out), Eval(y, out))
  {
    ExtremeMeans(op, x, y, Int32, out);
    assert SimplifyOk(o, Extreme(op, x, y), out);
    ConstNames(x);
    ConstNames(y);
    ExtremeNames(op, x, y);
    assert Names(Extreme(op, x, y)) == {};
  }

  /** Both ends are values of one of the two expressions. */
  ghost predicate EitherReaches(i: Interval, x: Expr, y: Expr, scope: Scope, out: Env) {
    && Tidy(i, out)
    && (Reached(x, scope, EndAt(i, false, out), out) || Reached(y, scope, EndAt(i, false, out), out))
    && (Reached(x, scope, EndAt(i, true, out), out) || Reached(y, scope, EndAt(i, true, out), out))
  }

  lemma {:induction false} UnionReaches(u: Interval, a: Interval, b: Interval, x: Expr, y: Expr, scope: Scope, out: Env)
    requires TightFor(x, a, scope, out) && TightFor(y, b, scope, out) && IsUnion(u, a, b, out)
    ensures EitherReaches(u, x, y, scope, out)
  {
  }

  /** The ends of a loop's interval are values of its first or its last iteration. */
  lemma {:induction false} LoopBoundsTight(o: Oracle, depth: nat, c: Code, scope: Scope, out: Env)
    requires OracleOk(o) && Folds(o) && SimplifyKeeps(o) && ConstantScope(scope, out)
    requires c.Loop? && IntExpr(c.min) && IntExpr(c.extent) && Tame(c.min, scope) && Tame(LastOf(c), scope)
    ensures EitherReaches(LoopBounds(o, depth, c, scope), c.min, LastOf(c), scope, out)
  {
    var a, b := ConstantBounds(o, depth, c.min, scope), ConstantBounds(o, depth, LastOf(c), scope);
    TameFound(o, depth, c.min, scope, out);
    TameFound(o, depth, LastOf(c), scope, out);
    assert TypeOf(LastOf(c)) == TypeOf(Bin(Add, c.min, c.extent)) == Int32;
    UnionEnds(o, a, b, out);
    UnionReaches(Union(o, a, b), a, b, c.min, LastOf(c), scope, out);
  }

  /** Every allocation has a constant bound, which is its size for some values of the variables. */
  ghost predicate Sized(o: Oracle, depth: nat, c: Code, scope: Scope, out: Env) {
    match c
    case Nop => true
    case Seq(a, b) => Sized(o, depth, a, scope, out) && Sized(o, depth, b, scope, out)
    case Loop(_, _, _, _, b) => Sized(o, depth, b, LoopScope(o, depth, c, scope), out)
    case LetCode(_, _, b) => Sized(o, depth, b, LetScope(o, depth, c, scope), out)
    case Alloc(_, _, _, es, _, _, b) =>
      && Sized(o, depth, b, scope, out)
      && var bound := SizeBound(o, depth, c, scope);
         && bound.Some? && IsConst(bound.value)
         && Reached(TotalExtent(es), scope, Eval(bound.value, out), out)
  }

  lemma {:induction false} TameIsSized(o: Oracle, depth: nat, c: Code, scope: Scope, out: Env)
    requires OracleOk(o) && Folds(o) && SimplifyKeeps(o) && TameCode(o, depth, c, scope) && ConstantScope(scope, out)
    ensures Sized(o, depth, c, scope, out)
    decreases c, 1
  {
    match c
    case Nop =>
    case Seq(a, b) => TameIsSized(o, depth, a, scope, out); TameIsSized(o, depth, b, scope, out);
    case Loop(_, _, _, _, _) => LoopIsSized(o, depth, c, scope, out);
    case LetCode(_, _, _) => LetIsSized(o, depth, c, scope, out);
    case Alloc(_, _, _, es, _, _, b) =>
      TameFound(o, depth, TotalExtent(es), scope, out);
      TameIsSized(o, depth, b, scope, out);
  }

  lemma {:induction false} LoopIsSized(o: Oracle, depth: nat, c: Code, scope: Scope, out: Env)
    requires OracleOk(o) && Folds(o) && SimplifyKeeps(o) && TameCode(o, depth, c, scope) && ConstantScope(scope, out)
    requires c.Loop?
    ensures Sized(o, depth, c, scope, out)
    decreases c, 0
  {
    LoopBoundsTight(o, depth, c, scope, out);
    ScopeExtended(scope, c.x, LoopBounds(o, depth, c, scope), out);
    TameIsSized(o, depth, c.body, LoopScope(o, depth, c, scope), out);
  }

  lemma {:induction false} LetIsSized(o: Oracle, depth: nat, c: Code, scope: Scope, out: Env)
    requires OracleOk(o) && Folds(o) && SimplifyKeeps(o) && TameCode(o, depth, c, scope) && ConstantScope(scope, out)
    requires c.LetCode?
    ensures Sized(o, depth, c, scope, out)
    decreases c, 0
  {
    TameFound(o, depth, c.value, scope, out);
    ScopeExtended(scope, c.x, ConstantBounds(o, depth, c.value, scope), out);
    TameIsSized(o, depth, c.body, LetScope(o, depth, c, scope), out);
  }
}
