/**
 * The visitor itself: one interval field that every visit overwrites, a scope that lets push
 * and pop, and a mode flag that narrowing casts set while they analyse bounds again.
 */
module BoundsVisitor {
  import opened Wrappers
  import opened Ir
  import opened Intervals
  import opened BoundsArith
  import opened BoundsLogic
  import opened BoundsCast
  import opened Bounds
  import opened BoundsAttained
  import opened BoundsFound
  import opened WideClass

  class Visitor {
    const o: Oracle
    var interval: Interval
    var scope: Scope
    var constBound: bool

    constructor (o: Oracle, scope: Scope, constBound: bool)
      ensures this.o == o && this.scope == scope && this.constBound == constBound
    {
      this.o, this.scope, this.constBound := o, scope, constBound;
      interval := EVERYTHING;
    }

    /** A visit leaves the interval of `e` and restores scope and mode. */
    method Visit(e: Expr, depth: nat)
      modifies this
      ensures interval == BoundsOf(o, depth, e, scope, constBound)
      ensures scope == old(scope) && constBound == old(constBound)
      decreases depth, e, 1
    {
      match e {
        case Const(_, _) => interval := Point(e);
        case Var(_, _) => interval := VarRule(e, scope, constBound);
        case Cast(_, _) => VisitCast(e, depth);
        case Bin(_, x, y) =>
          Visit(x, depth);
          var a := interval;
          Visit(y, depth);
          interval := BinRule(o, e, a, interval);
        case Cmp(_, _, _) => VisitCompare(e, depth);
        case And(x, y) =>
          Visit(x, depth);
          var a := interval;
          Visit(y, depth);
          interval := ConjRule(e, true, x, y, a, interval);
        case Or(x, y) =>
          Visit(x, depth);
          var a := interval;
          Visit(y, depth);
          interval := ConjRule(e, false, x, y, a, interval);
        case Not(x) =>
          Visit(x, depth);
          interval := NotRule(e, interval);
        case Select(c, t, f) =>
          Visit(t, depth);
          var a := interval;
          Visit(f, depth);
          var b := interval;
          Visit(c, depth);
          interval := SelectRule(o, TypeOf(e), a, b, interval);
        case Let(_, _, _) => VisitLet(e, depth);
      }
    }

    /** Orderings give up as soon as one side is unbounded; > and >= look at their right side first. */
    method VisitCompare(e: Expr, depth: nat)
      requires e.Cmp?
      modifies this
      ensures interval == BoundsOf(o, depth, e, scope, constBound)
      ensures scope == old(scope) && constBound == old(constBound)
      decreases depth, e, 0
    {
      var flip := e.cop.GT? || e.cop.GE?;
      var first, second := if flip then e.cb else e.ca, if flip then e.ca else e.cb;
      Visit(first, depth);
      var a := interval;
      if !IsBounded(a) && !e.cop.EQ? && !e.cop.NE? {
        interval := TypeBounds(UInt1);
        return;
      }
      Visit(second, depth);
      interval := if flip then CmpRule(e, interval, a) else CmpRule(e, a, interval);
    }

    /** A narrowing cast analyses the simplified bounds of its operand again, in constant mode. */
    method VisitCast(e: Expr, depth: nat)
      requires e.Cast?
      modifies this
      ensures interval == BoundsOf(o, depth, e, scope, constBound)
      ensures scope == old(scope) && constBound == old(constBound)
      decreases depth, e, 0
    {
      Visit(e.arg, depth);
      var a, lo, hi := interval, None, None;
      if depth > 0 && Strips(e, a) {
        var oldMode := constBound;
        constBound := true;
        Visit(o.simplify(a.min.value), depth - 1);
        lo := interval.min;
        Visit(o.simplify(a.max.value), depth - 1);
        hi := interval.max;
        constBound := oldMode;
      }
      interval := CastRule(o, e, a, lo, hi);
    }

    /** The let's variable is in scope for the body only. */
    method VisitLet(e: Expr, depth: nat)
      requires e.Let?
      modifies this
      ensures interval == BoundsOf(o, depth, e, scope, constBound)
      ensures scope == old(scope) && constBound == old(constBound)
      decreases depth, e, 0
    {
      Visit(e.lvalue, depth);
      var val, outer := interval, scope;
      scope := scope[e.lname := LetVar(e.lname, TypeOf(e.lvalue), val)];
      Visit(e.body, depth);
      scope := outer;
      interval := LetRule(e.lname, val, interval);
    }
  }

  // ---- constant bounds ----

  /**
   * The constants hold every value; where each scoped variable occurs once, every one found is a value.
   */
  method FindConstantBounds(o: Oracle, depth: nat, e: Expr, scope: Scope) returns (i: Interval)
    requires OracleOk(o)
    ensures (i.min.Some? ==> IsConst(i.min.value)) && (i.max.Some? ==> IsConst(i.max.value))
    ensures forall env: Env, out: Env :: Analysable(o, depth, e, scope, true, env, out) ==>
      Holds(i, TypeOf(e), Eval(e, env), out)
    ensures forall out: Env :: TightQuery(e, scope, true, out) ==>
      EndReached(e, i.min, scope, out) && EndReached(e, i.max, scope, out)
    ensures forall out: Env :: Folds(o) && Arithmetic(e) && WideExpr(e) && TightQuery(e, scope, true, out) ==>
      IsBounded(i)
    ensures i == ConstantBounds(o, depth, e, scope)
  {
    var visitor := new Visitor(o, scope, true);
    visitor.Visit(e, depth);
    i := Interval(ConstantEnd(o, visitor.interval.min), ConstantEnd(o, visitor.interval.max));
    forall env: Env, out: Env | Analysable(o, depth, e, scope, true, env, out)
      ensures Holds(i, TypeOf(e), Eval(e, env), out)
    {
      ConstantBoundsSound(o, depth, e, scope, env, out);
    }
    forall out: Env | TightQuery(e, scope, true, out)
      ensures EndReached(e, i.min, scope, out) && EndReached(e, i.max, scope, out)
    {
      ConstantBoundsTight(o, depth, e, scope, out);
    }
    forall out: Env | Folds(o) && Arithmetic(e) && WideExpr(e) && TightQuery(e, scope, true, out) ensures IsBounded(i) {
      ConstantBoundsFound(o, depth, e, scope, out);
    }
  }
}
