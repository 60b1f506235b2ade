/**
 * Tightness of the analysis: for an expression in which each scoped variable occurs at most once,
 * each end of its interval is the value of the expression for some values inside the scope.
 */
module BoundsAttained {
  import opened Wrappers
  import opened Ir
  import opened Intervals
  import opened BoundsArith
  import opened BoundsMulDiv
  import opened BoundsDivMod
  import opened BoundsLogic
  import opened BoundsCast
  import opened Bounds
  import opened BoundsTight
  import opened WideClass

  // ---- environments for expressions without common scoped variables ----

  /** No scoped variable occurs in both. */
  predicate Apart(a: Expr, b: Expr, scope: Scope) { forall x :: x in scope ==> !(Uses(a, x) && Uses(b, x)) }

  /** Each scoped variable occurs at most once, and no operation leaves its ends unreached. */
  predicate Once(e: Expr, scope: Scope) {
    match e
    case Const(_, _) => true
    case Var(_, _) => true
    case Cast(_, a) => Once(a, scope)
    case Bin(op, a, b) => !op.Mod? && Once(a, scope) && Once(b, scope) && Apart(a, b, scope)
    case Cmp(op, a, b) => !op.EQ? && !op.NE? && Once(a, scope) && Once(b, scope) && Apart(a, b, scope)
    case And(a, b) => Once(a, scope) && Once(b, scope) && Apart(a, b, scope)
    case Or(a, b) => Once(a, scope) && Once(b, scope) && Apart(a, b, scope)
    case Not(a) => Once(a, scope)
    case Select(c, t, f) =>
      && Once(c, scope) && Once(t, scope) && Once(f, scope)
      && Apart(c, t, scope) && Apart(c, f, scope) && Apart(t, f, scope)
    case Let(_, _, _) => false
  }

  /** The variables of `e` lie inside the scope, or have their outer values. */
  ghost predicate Inside(e: Expr, scope: Scope, env: Env, out: Env) { InScope(e, map[], scope, env, out) }

  lemma {:induction false} InsideAgree(e: Expr, scope: Scope, env: Env, env': Env, out: Env)
    requires Once(e, scope) && Inside(e, scope, env, out) && AgreeOn(e, env, env')
    ensures Inside(e, scope, env', out)
    decreases e, 0
  {
    match e
    case Const(_, _) =>
    case Var(_, x) => assert Uses(e, x);
    case Cast(_, a) => assert forall x :: Uses(a, x) ==> Uses(e, x); InsideAgree(a, scope, env, env', out);
    case Bin(_, a, b) => InsideAgreePair(e, a, b, scope, env, env', out);
    case Cmp(_, a, b) => InsideAgreePair(e, a, b, scope, env, env', out);
    case And(a, b) => InsideAgreePair(e, a, b, scope, env, env', out);
    case Or(a, b) => InsideAgreePair(e, a, b, scope, env, env', out);
    case Not(a) => assert forall x :: Uses(a, x) ==> Uses(e, x); InsideAgree(a, scope, env, env', out);
    case Select(c, t, f) =>
      assert forall x :: Uses(c, x) || Uses(t, x) || Uses(f, x) ==> Uses(e, x);
      InsideAgree(c, scope, env, env', out);
      InsideAgree(t, scope, env, env', out);
      InsideAgree(f, scope, env, env', out);
  }

  lemma {:induction false} InsideAgreePair(e: Expr, a: Expr, b: Expr, scope: Scope, env: Env, env': Env, out: Env)
    requires forall x :: Uses(a, x) || Uses(b, x) ==> Uses(e, x)
    requires Once(a, scope) && Once(b, scope) && Inside(a, scope, env, out) && Inside(b, scope, env, out)
    requires a < e && b < e && AgreeOn(e, env, env')
    ensures Inside(a, scope, env', out) && Inside(b, scope, env', out)
    decreases e, -1
  {
    InsideAgree(a, scope, env, env', out);
    InsideAgree(b, scope, env, env', out);
  }

  /** Variables outside the scope have their outer values. */
  lemma {:induction false} OuterValue(e: Expr, scope: Scope, env: Env, out: Env, x: string)
    requires Once(e, scope) && Inside(e, scope, env, out) && Uses(e, x) && x !in scope
    ensures Lookup(env, x) == Lookup(out, x)
  {
    match e
    case Var(_, _) =>
    case Cast(_, a) => OuterValue(a, scope, env, out, x);
    case Bin(_, a, b) => OuterValue(if Uses(a, x) then a else b, scope, env, out, x);
    case Cmp(_, a, b) => OuterValue(if Uses(a, x) then a else b, scope, env, out, x);
    case And(a, b) => OuterValue(if Uses(a, x) then a else b, scope, env, out, x);
    case Or(a, b) => OuterValue(if Uses(a, x) then a else b, scope, env, out, x);
    case Not(a) => OuterValue(a, scope, env, out, x);
    case Select(c, t, f) =>
      OuterValue(if Uses(c, x) then c else if Uses(t, x) then t else f, scope, env, out, x);
  }

  /** The first environment on the names of `a`, the second elsewhere. */
  function Merge(a: Expr, env: Env, env': Env): Env {
    map x | x in env.Keys + env'.Keys :: if Uses(a, x) then Lookup(env, x) else Lookup(env', x)
  }

  /** The expression has the value in some meaningful environment inside the scope. */
  ghost predicate Reaches(e: Expr, scope: Scope, v: int, env: Env, out: Env) {
    Fine(e, env) && Inside(e, scope, env, out) && Eval(e, env) == v
  }

  ghost predicate Reached(e: Expr, scope: Scope, v: int, out: Env) {
    exists env: Env :: Reaches(e, scope, v, env, out)
  }

  lemma {:induction false} ReachesAgree(e: Expr, scope: Scope, v: int, env: Env, env': Env, out: Env)
    requires Once(e, scope) && Reaches(e, scope, v, env, out) && AgreeOn(e, env, env')
    ensures Reaches(e, scope, v, env', out)
  {
    InsideAgree(e, scope, env, env', out);
    EvalAgree(e, env, env');
    FineAgree(e, env, env');
  }

  /** Values of two expressions without common scoped variables are reached together. */
  lemma {:induction false} Merged(a: Expr, b: Expr, scope: Scope, va: int, vb: int, env: Env, env': Env, out: Env)
    requires Once(a, scope) && Once(b, scope) && Apart(a, b, scope)
    requires Reaches(a, scope, va, env, out) && Reaches(b, scope, vb, env', out)
    ensures Reaches(a, scope, va, Merge(a, env, env'), out) && Reaches(b, scope, vb, Merge(a, env, env'), out)
  {
    var m := Merge(a, env, env');
    assert AgreeOn(a, env, m);
    forall x | Uses(b, x) ensures Lookup(env', x) == Lookup(m, x) {
      if Uses(a, x) {
        OuterValue(a, scope, env, out, x);
        OuterValue(b, scope, env', out, x);
      }
    }
    ReachesAgree(a, scope, va, env, m, out);
    ReachesAgree(b, scope, vb, env', m, out);
  }

  // ---- what is proved of each expression ----

  /** Both ends are reached. */
  ghost predicate TightFor(e: Expr, i: Interval, scope: Scope, out: Env) {
    && Range(i, TypeOf(e), out)
    && Reached(e, scope, EndAt(i, false, out), out) && Reached(e, scope, EndAt(i, true, out), out)
  }

  ghost predicate EndReached(e: Expr, x: Option<Expr>, scope: Scope, out: Env) {
    x.Some? ==> Reached(e, scope, Eval(x.value, out), out)
  }

  /** The scope's intervals are bounded and not empty; in constant mode they are constants for every variable. */
  ghost predicate GoodScope(scope: Scope, out: Env) { forall x :: x in scope ==> Range(scope[x], Int32, out) }

  predicate ConstInterval(i: Interval) { IsBounded(i) && IsConst(i.min.value) && IsConst(i.max.value) }

  ghost predicate Constants(e: Expr, scope: Scope) {
    forall x :: Uses(e, x) ==> x in scope && ConstInterval(scope[x])
  }

  ghost predicate TightQuery(e: Expr, scope: Scope, constBound: bool, out: Env) {
    && (WideExpr(e) || WideBool(e)) && Once(e, scope)
    && WideScope(scope) && GoodScope(scope, out) && (constBound ==> Constants(e, scope))
  }

  /** Reached ends make a non-empty interval, by soundness. */
  lemma {:induction false} ReachedIsTight(o: Oracle, depth: nat, e: Expr, scope: Scope, constBound: bool, out: Env)
    requires OracleOk(o) && Safe(o, depth, e, scope, constBound, out)
    requires var i := BoundsOf(o, depth, e, scope, constBound);
      IsBounded(i) && Reached(e, scope, EndAt(i, false, out), out) && Reached(e, scope, EndAt(i, true, out), out)
    ensures TightFor(e, BoundsOf(o, depth, e, scope, constBound), scope, out)
  {
    var i := BoundsOf(o, depth, e, scope, constBound);
    var env :| Reaches(e, scope, EndAt(i, false, out), env, out);
    BoundsSound(o, depth, e, scope, constBound, env, out);
  }

  // ---- one lemma per kind of node ----

  lemma {:induction false} VarReached(e: Expr, scope: Scope, constBound: bool, high: bool, out: Env)
    requires e.Var? && TightQuery(e, scope, constBound, out)
    ensures var i := VarRule(e, scope, constBound); IsBounded(i) && Reached(e, scope, EndAt(i, high, out), out)
  {
    var i := VarRule(e, scope, constBound);
    assert Uses(e, e.name);
    if e.name in scope {
      assert i == scope[e.name];
      EndHolds(i, Int32, high, out);
      assert Reaches(e, scope, EndAt(i, high, out), out[e.name := EndAt(i, high, out)], out);
    } else {
      assert Reaches(e, scope, EndAt(i, high, out), out, out);
    }
  }

  lemma {:induction false} BinReached(e: Expr, scope: Scope, va: int, vb: int, out: Env)
    requires e.Bin? && Once(e, scope) && TypeOf(e.a) == TypeOf(e.b) && (e.op.Div? ==> vb != 0)
    requires Reached(e.a, scope, va, out) && Reached(e.b, scope, vb, out)
    ensures Reached(e, scope, Wrap(TypeOf(e), DoBin(e.op, va, vb)), out)
  {
    var env :| Reaches(e.a, scope, va, env, out);
    var env' :| Reaches(e.b, scope, vb, env', out);
    Merged(e.a, e.b, scope, va, vb, env, env', out);
    assert Reaches(e, scope, Wrap(TypeOf(e), DoBin(e.op, va, vb)), Merge(e.a, env, env'), out);
  }

  lemma {:induction false} CmpReached(e: Expr, scope: Scope, va: int, vb: int, out: Env)
    requires e.Cmp? && Once(e, scope) && TypeOf(e.ca) == TypeOf(e.cb)
    requires Reached(e.ca, scope, va, out) && Reached(e.cb, scope, vb, out)
    ensures Reached(e, scope, Truth(DoCmp(e.cop, va, vb)), out)
  {
    var env :| Reaches(e.ca, scope, va, env, out);
    var env' :| Reaches(e.cb, scope, vb, env', out);
    Merged(e.ca, e.cb, scope, va, vb, env, env', out);
    assert Reaches(e, scope, Truth(DoCmp(e.cop, va, vb)), Merge(e.ca, env, env'), out);
  }

  lemma {:induction false} ConjReached(e: Expr, isAnd: bool, l: Expr, r: Expr, scope: Scope, va: int, vb: int,
                                       out: Env)
    requires e == (if isAnd then And(l, r) else Or(l, r)) && Once(e, scope) && TypeOf(l) == TypeOf(r) == UInt1
    requires Reached(l, scope, va, out) && Reached(r, scope, vb, out)
    ensures Reached(e, scope, Conj(isAnd, va, vb), out)
  {
    var env :| Reaches(l, scope, va, env, out);
    var env' :| Reaches(r, scope, vb, env', out);
    Merged(l, r, scope, va, vb, env, env', out);
    assert Reaches(e, scope, Conj(isAnd, va, vb), Merge(l, env, env'), out);
  }

  lemma {:induction false} SelectReached(e: Expr, scope: Scope, vc: int, vt: int, vf: int, out: Env)
    requires e.Select? && Once(e, scope) && TypeOf(e.cond) == UInt1 && TypeOf(e.onTrue) == TypeOf(e.onFalse)
    requires Reached(e.cond, scope, vc, out) && Reached(e.onTrue, scope, vt, out) && Reached(e.onFalse, scope, vf, out)
    ensures Reached(e, scope, if vc != 0 then vt else vf, out)
  {
    var envC :| Reaches(e.cond, scope, vc, envC, out);
    var envT :| Reaches(e.onTrue, scope, vt, envT, out);
    var envF :| Reaches(e.onFalse, scope, vf, envF, out);
    Merged(e.cond, e.onTrue, scope, vc, vt, envC, envT, out);
    var m := Merge(e.cond, envC, envT);
    Merged(e.onFalse, e.cond, scope, vf, vc, envF, m, out);
    Merged(e.onFalse, e.onTrue, scope, vf, vt, envF, m, out);
    assert Reaches(e, scope, if vc != 0 then vt else vf, Merge(e.onFalse, envF, m), out);
  }

  lemma {:induction false} UnaryReached(e: Expr, scope: Scope, v: int, out: Env)
    requires (e.Cast? && Reached(e.arg, scope, v, out))
      || (e.Not? && TypeOf(e.n) == UInt1 && Reached(e.n, scope, v, out))
    ensures Reached(e, scope, if e.Cast? then Wrap(e.to, v) else Truth(v == 0), out)
  {
    if e.Cast? {
      var env :| Reaches(e.arg, scope, v, env, out);
      assert Reaches(e, scope, Wrap(e.to, v), env, out);
    } else {
      var env :| Reaches(e.n, scope, v, env, out);
      assert Reaches(e, scope, Truth(v == 0), env, out);
    }
  }

  // ---- each end of a node, from the ends of its operands ----

  lemma {:induction false} EndIsReached(e: Expr, i: Interval, high: bool, scope: Scope, out: Env)
    requires TightFor(e, i, scope, out)
    ensures Reached(e, scope, EndAt(i, high, out), out)
  {
  }

  lemma {:induction false} BinEndReached(e: Expr, a: Interval, b: Interval, x: Option<Expr>, scope: Scope, out: Env)
    requires e.Bin? && Once(e, scope) && TypeOf(e.a) == TypeOf(e.b)
    requires TightFor(e.a, a, scope, out) && TightFor(e.b, b, scope, out)
    requires e.op.Div? ==> EndAt(b, false, out) != 0 && EndAt(b, true, out) != 0
    requires AtCorner(x, e.op, TypeOf(e), a, b, out)
    ensures Reached(e, scope, Eval(x.value, out), out)
  {
    var p, q :| Corner(Eval(x.value, out), e.op, TypeOf(e), a, b, p, q, out);
    EndIsReached(e.a, a, p, scope, out);
    EndIsReached(e.b, b, q, scope, out);
    BinReached(e, scope, EndAt(a, p, out), EndAt(b, q, out), out);
  }

  lemma {:induction false} CmpEndReached(e: Expr, a: Interval, b: Interval, x: Option<Expr>, scope: Scope, out: Env)
    requires e.Cmp? && Once(e, scope) && TypeOf(e.ca) == TypeOf(e.cb)
    requires TightFor(e.ca, a, scope, out) && TightFor(e.cb, b, scope, out)
    requires AtCmpCorner(x, e.cop, a, b, out)
    ensures Reached(e, scope, Eval(x.value, out), out)
  {
    var p, q :| CmpCorner(Eval(x.value, out), e.cop, a, b, p, q, out);
    EndIsReached(e.ca, a, p, scope, out);
    EndIsReached(e.cb, b, q, scope, out);
    CmpReached(e, scope, EndAt(a, p, out), EndAt(b, q, out), out);
  }

  lemma {:induction false} ConjEndsReached(e: Expr, isAnd: bool, l: Expr, r: Expr, a: Interval, b: Interval,
                                           high: bool, scope: Scope, out: Env)
    requires e == (if isAnd then And(l, r) else Or(l, r)) && Once(e, scope) && TypeOf(l) == TypeOf(r) == UInt1
    requires TightFor(l, a, scope, out) && TightFor(r, b, scope, out)
    ensures var i := ConjRule(e, isAnd, l, r, a, b); IsBounded(i) && Reached(e, scope, EndAt(i, high, out), out)
  {
    var x, y := if high then a.max.value else a.min.value, if high then b.max.value else b.min.value;
    PlainConjMeans(isAnd, x, y, out);
    MakeConjMeans(isAnd, x, y, out);
    ConjReached(e, isAnd, l, r, scope, EndAt(a, high, out), EndAt(b, high, out), out);
  }

  lemma {:induction false} NotEndsReached(e: Expr, a: Interval, high: bool, scope: Scope, out: Env)
    requires e.Not? && TypeOf(e.n) == UInt1 && TightFor(e.n, a, scope, out)
    ensures var i := NotRule(e, a); IsBounded(i) && Reached(e, scope, EndAt(i, high, out), out)
  {
    var x := if high then a.min.value else a.max.value;
    NotMeans(x, out);
    MakeNotMeans(x, out);
    UnaryReached(e, scope, EndAt(a, !high, out), out);
  }

  lemma {:induction false} CastEndsReached(o: Oracle, e: Expr, a: Interval, again: Interval, high: bool, scope: Scope,
                                           out: Env)
    requires e.Cast? && !IsNarrow(e.to) && TightFor(e.arg, a, scope, out)
    ensures var i := CastRule(o, e, a, again.min, again.max);
      IsBounded(i) && Reached(e, scope, EndAt(i, high, out), out)
  {
    var x := if high then a.max.value else a.min.value;
    CastMeans(e.to, x, TypeOf(e.arg), out);
    UnaryReached(e, scope, EndAt(a, high, out), out);
  }

  /** A select's end is an end of the branch that some end of the condition chooses. */
  lemma {:induction false} SelectEndIsOne(o: Oracle, op: BinOp, t: Type, x: Expr, y: Expr, cond: Interval, out: Env)
    requires OracleOk(o) && IsOrder(op) && End(x, t, out) && End(y, t, out) && Range(cond, UInt1, out)
    ensures SelectEndRule(o, op, t, Some(x), Some(y), cond).Some?
    ensures var v := Eval(SelectEndRule(o, op, t, Some(x), Some(y), cond).value, out);
      exists p: bool :: v == if EndAt(cond, p, out) != 0 then Eval(x, out) else Eval(y, out)
  {
    var c1, c2 := cond.min.value, cond.max.value;
    var r := SelectEndRule(o, op, t, Some(x), Some(y), cond).value;
    FineInRange(c1, out);
    FineInRange(c2, out);
    if x == y || IsPoint(cond) {
      assert Eval(r, out) == if EndAt(cond, false, out) != 0 then Eval(x, out) else Eval(y, out);
    } else {
      SelectBetweenIsOne(o, op, t, x, y, c1, c2, out);
      assert EndAt(cond, false, out) == Eval(c1, out) && EndAt(cond, true, out) == Eval(c2, out);
    }
  }

  /** The value is that of the branch the sufficient or the necessary condition chooses. */
  ghost predicate IsChosen(v: int, x: int, y: int, c1: int, c2: int) {
    v == (if c1 != 0 then x else y) || v == (if c2 != 0 then x else y)
  }

  lemma {:induction false} SelectBetweenIsOne(o: Oracle, op: BinOp, t: Type, x: Expr, y: Expr, c1: Expr, c2: Expr,
                                              out: Env)
    requires OracleOk(o) && IsOrder(op) && End(x, t, out) && End(y, t, out)
    requires End(c1, UInt1, out) && End(c2, UInt1, out)
    ensures IsChosen(Eval(SelectBetween(o, op, t, x, y, c1, c2), out), Eval(x, out), Eval(y, out),
                     Eval(c1, out), Eval(c2, out))
  {
    ZeroOne(c1, out);
    ZeroOne(c2, out);
    if IsZero(c1) && IsOne(c2) {
      ExtremeMeans(op, x, y, t, out);
    } else if IsOne(c2) {
      assert c1 in [c1, x, y] && y in [c1, x, y];
      SharedMeans(op, o.unique([c1, x, y]), t, x, y, c1, true, out);
    } else if IsZero(c1) {
      assert c2 in [c2, x, y] && x in [c2, x, y];
      SharedMeans(op, o.unique([c2, x, y]), t, y, x, c2, false, out);
    } else {
      TwoWayIsOne(o, op, t, x, y, c1, c2, out);
    }
  }

  lemma {:induction false} TwoWayIsOne(o: Oracle, op: BinOp, t: Type, x: Expr, y: Expr, c1: Expr, c2: Expr, out: Env)
    requires OracleOk(o) && IsOrder(op) && End(x, t, out) && End(y, t, out)
    requires End(c1, UInt1, out) && End(c2, UInt1, out)
    ensures var n := o.unique([c1, c2, x, y]);
      var r := TwoWay(op, t, x, y, c1, c2, n, o.unique([c1, c2, x, y, Var(t, n)]));
      IsChosen(Eval(r, out), Eval(x, out), Eval(y, out), Eval(c1, out), Eval(c2, out))
  {
    TwoWayFresh(o, t, x, y, c1, c2);
    var es := [c1, c2, x, y];
    TwoWayMeans(op, t, x, y, c1, c2, o.unique(es), o.unique([c1, c2, x, y, Var(t, o.unique(es))]), out);
  }

  lemma {:induction false} SelectEndsReached(o: Oracle, e: Expr, a: Interval, b: Interval, cond: Interval, high: bool,
                                             scope: Scope, out: Env)
    requires OracleOk(o) && e.Select? && Once(e, scope)
    requires TypeOf(e.cond) == UInt1 && TypeOf(e.onTrue) == TypeOf(e.onFalse)
    requires TightFor(e.onTrue, a, scope, out) && TightFor(e.onFalse, b, scope, out)
      && TightFor(e.cond, cond, scope, out)
    ensures var i := SelectRule(o, TypeOf(e), a, b, cond); IsBounded(i) && Reached(e, scope, EndAt(i, high, out), out)
  {
    var t := TypeOf(e);
    SelectEndIsOne(o, Min, t, a.min.value, b.min.value, cond, out);
    SelectEndIsOne(o, Max, t, a.max.value, b.max.value, cond, out);
    var i := SelectRule(o, t, a, b, cond);
    var x, y := if high then a.max.value else a.min.value, if high then b.max.value else b.min.value;
    var p := SelectChoice(o, a, b, cond, high, t, out);
    EndIsReached(e.cond, cond, p, scope, out);
    EndIsReached(e.onTrue, a, high, scope, out);
    EndIsReached(e.onFalse, b, high, scope, out);
    SelectReached(e, scope, EndAt(cond, p, out), EndAt(a, high, out), EndAt(b, high, out), out);
  }

  /** Which end of the condition an end of the select goes with. */
  lemma {:induction false} SelectChoice(o: Oracle, a: Interval, b: Interval, cond: Interval, high: bool, t: Type,
                                        out: Env) returns (p: bool)
    requires OracleOk(o) && Range(a, t, out) && Range(b, t, out) && Range(cond, UInt1, out)
    ensures var i := SelectRule(o, t, a, b, cond);
      && IsBounded(i)
      && EndAt(i, high, out) == if EndAt(cond, p, out) != 0 then EndAt(a, high, out) else EndAt(b, high, out)
  {
    ZeroOne(cond.min.value, out);
    SelectEndIsOne(o, Min, t, a.min.value, b.min.value, cond, out);
    SelectEndIsOne(o, Max, t, a.max.value, b.max.value, cond, out);
    p := false;
    if !(IsPoint(cond) && (IsOne(cond.min.value) || IsZero(cond.min.value))) {
      var x, y := if high then a.max.value else a.min.value, if high then b.max.value else b.min.value;
      var r := SelectEndRule(o, if high then Max else Min, t, Some(x), Some(y), cond).value;
      p :| Eval(r, out) == if EndAt(cond, p, out) != 0 then Eval(x, out) else Eval(y, out);
    }
  }

  // ---- the theorem ----

  lemma {:induction false} TightPart(e: Expr, part: Expr, scope: Scope, constBound: bool, out: Env)
    requires TightQuery(e, scope, constBound, out) && (WideExpr(part) || WideBool(part)) && Once(part, scope)
    requires forall x :: Uses(part, x) ==> Uses(e, x)
    ensures TightQuery(part, scope, constBound, out)
  {
  }

  lemma {:induction false} BoolType(e: Expr)
    requires WideBool(e)
    ensures TypeOf(e) == UInt1
  {
  }

  /** Safe, and its ends reached. */
  ghost predicate Exact(o: Oracle, depth: nat, e: Expr, scope: Scope, constBound: bool, out: Env) {
    TightFor(e, BoundsOf(o, depth, e, scope, constBound), scope, out)
  }

  /**
   * For every expression of 32- and 64-bit integers with + - * min max, division by positive literals,
   * order comparisons, boolean operators, selects and casts, in which each scoped variable occurs at most
   * once, over bounded non-empty scopes: the interval is bounded, and each end is the value of the
   * expression in some environment inside the scope; in constant mode too, when the scope is constant.
   */
  lemma {:induction false} BoundsTightFor(o: Oracle, depth: nat, e: Expr, scope: Scope, constBound: bool, out: Env)
    requires OracleOk(o) && TightQuery(e, scope, constBound, out)
    ensures Exact(o, depth, e, scope, constBound, out)
    decreases e, 1
  {
    if WideExpr(e) {
      WideIsSafe(o, depth, e, scope, constBound, false, out);
    } else {
      BoolIsSafe(o, depth, e, scope, constBound, false, out);
    }
    BothEnds(o, depth, e, scope, constBound, out);
    ReachedIsTight(o, depth, e, scope, constBound, out);
  }

  /** Both ends of the interval are there and reached. */
  ghost predicate EndsReached(o: Oracle, depth: nat, e: Expr, scope: Scope, constBound: bool, out: Env) {
    var i := BoundsOf(o, depth, e, scope, constBound);
    IsBounded(i) && Reached(e, scope, EndAt(i, false, out), out) && Reached(e, scope, EndAt(i, true, out), out)
  }

  lemma {:induction false} BothEnds(o: Oracle, depth: nat, e: Expr, scope: Scope, constBound: bool, out: Env)
    requires OracleOk(o) && TightQuery(e, scope, constBound, out)
    ensures EndsReached(o, depth, e, scope, constBound, out)
    decreases e, 0
  {
    match e
    case Const(_, _) => assert Reaches(e, scope, e.value, out, out);
    case Var(_, _) =>
      VarReached(e, scope, constBound, false, out);
      VarReached(e, scope, constBound, true, out);
    case Cast(_, _) => CastCase(o, depth, e, scope, constBound, out);
    case Bin(_, _, _) => BinCase(o, depth, e, scope, constBound, out);
    case Cmp(_, _, _) => CmpCase(o, depth, e, scope, constBound, out);
    case And(l, r) => ConjCase(o, depth, e, true, l, r, scope, constBound, out);
    case Or(l, r) => ConjCase(o, depth, e, false, l, r, scope, constBound, out);
    case Not(_) => NotCase(o, depth, e, scope, constBound, out);
    case Select(_, _, _) => SelectCase(o, depth, e, scope, constBound, out);
  }

  lemma {:induction false} CastCase(o: Oracle, depth: nat, e: Expr, scope: Scope, constBound: bool, out: Env)
    requires OracleOk(o) && TightQuery(e, scope, constBound, out) && e.Cast?
    ensures EndsReached(o, depth, e, scope, constBound, out)
    decreases e, -1
  {
    TightPart(e, e.arg, scope, constBound, out);
    BoundsTightFor(o, depth, e.arg, scope, constBound, out);
    var a := BoundsOf(o, depth, e.arg, scope, constBound);
    var again := Again(o, depth, e, a, scope);
    CastEndsReached(o, e, a, again, false, scope, out);
    CastEndsReached(o, e, a, again, true, scope, out);
  }

  lemma {:induction false} BinCase(o: Oracle, depth: nat, e: Expr, scope: Scope, constBound: bool, out: Env)
    requires OracleOk(o) && TightQuery(e, scope, constBound, out) && e.Bin?
    ensures EndsReached(o, depth, e, scope, constBound, out)
    decreases e, -1
  {
    TightPart(e, e.a, scope, constBound, out);
    TightPart(e, e.b, scope, constBound, out);
    BoundsTightFor(o, depth, e.a, scope, constBound, out);
    BoundsTightFor(o, depth, e.b, scope, constBound, out);
    var a, b := BoundsOf(o, depth, e.a, scope, constBound), BoundsOf(o, depth, e.b, scope, constBound);
    WideType(e);
    BinCorners(o, e, a, b, out);
    BinEndReached(e, a, b, BinRule(o, e, a, b).min, scope, out);
    BinEndReached(e, a, b, BinRule(o, e, a, b).max, scope, out);
  }

  lemma {:induction false} CmpCase(o: Oracle, depth: nat, e: Expr, scope: Scope, constBound: bool, out: Env)
    requires OracleOk(o) && TightQuery(e, scope, constBound, out) && e.Cmp?
    ensures EndsReached(o, depth, e, scope, constBound, out)
    decreases e, -1
  {
    TightPart(e, e.ca, scope, constBound, out);
    TightPart(e, e.cb, scope, constBound, out);
    BoundsTightFor(o, depth, e.ca, scope, constBound, out);
    BoundsTightFor(o, depth, e.cb, scope, constBound, out);
    var a, b := BoundsOf(o, depth, e.ca, scope, constBound), BoundsOf(o, depth, e.cb, scope, constBound);
    CmpCorners(e, a, b, TypeOf(e.ca), out);
    CmpEndReached(e, a, b, CmpRule(e, a, b).min, scope, out);
    CmpEndReached(e, a, b, CmpRule(e, a, b).max, scope, out);
  }

  lemma {:induction false} ConjCase(o: Oracle, depth: nat, e: Expr, isAnd: bool, l: Expr, r: Expr, scope: Scope,
                                    constBound: bool, out: Env)
    requires OracleOk(o) && TightQuery(e, scope, constBound, out) && e == (if isAnd then And(l, r) else Or(l, r))
    ensures EndsReached(o, depth, e, scope, constBound, out)
    decreases e, -1
  {
    TightPart(e, l, scope, constBound, out);
    TightPart(e, r, scope, constBound, out);
    BoundsTightFor(o, depth, l, scope, constBound, out);
    BoundsTightFor(o, depth, r, scope, constBound, out);
    var a, b := BoundsOf(o, depth, l, scope, constBound), BoundsOf(o, depth, r, scope, constBound);
    BoolType(l);
    BoolType(r);
    ConjEndsReached(e, isAnd, l, r, a, b, false, scope, out);
    ConjEndsReached(e, isAnd, l, r, a, b, true, scope, out);
  }

  lemma {:induction false} NotCase(o: Oracle, depth: nat, e: Expr, scope: Scope, constBound: bool, out: Env)
    requires OracleOk(o) && TightQuery(e, scope, constBound, out) && e.Not?
    ensures EndsReached(o, depth, e, scope, constBound, out)
    decreases e, -1
  {
    TightPart(e, e.n, scope, constBound, out);
    BoundsTightFor(o, depth, e.n, scope, constBound, out);
    BoolType(e.n);
    NotEndsReached(e, BoundsOf(o, depth, e.n, scope, constBound), false, scope, out);
    NotEndsReached(e, BoundsOf(o, depth, e.n, scope, constBound), true, scope, out);
  }

  lemma {:induction false} SelectCase(o: Oracle, depth: nat, e: Expr, scope: Scope, constBound: bool, out: Env)
    requires OracleOk(o) && TightQuery(e, scope, constBound, out) && e.Select?
    ensures EndsReached(o, depth, e, scope, constBound, out)
    decreases e, -1
  {
    TightPart(e, e.cond, scope, constBound, out);
    TightPart(e, e.onTrue, scope, constBound, out);
    TightPart(e, e.onFalse, scope, constBound, out);
    BoundsTightFor(o, depth, e.cond, scope, constBound, out);
    BoundsTightFor(o, depth, e.onTrue, scope, constBound, out);
    BoundsTightFor(o, depth, e.onFalse, scope, constBound, out);
    var a, b := BoundsOf(o, depth, e.onTrue, scope, constBound), BoundsOf(o, depth, e.onFalse, scope, constBound);
    var cond := BoundsOf(o, depth, e.cond, scope, constBound);
    BoolType(e.cond);
    SelectEndsReached(o, e, a, b, cond, false, scope, out);
    SelectEndsReached(o, e, a, b, cond, true, scope, out);
  }

  /** Every constant bound found is the value of the expression somewhere inside the scope. */
  lemma {:induction false} ConstantBoundsTight(o: Oracle, depth: nat, e: Expr, scope: Scope, out: Env)
    requires OracleOk(o) && TightQuery(e, scope, true, out)
    ensures var i := ConstantBounds(o, depth, e, scope);
      EndReached(e, i.min, scope, out) && EndReached(e, i.max, scope, out)
  {
    BoundsTightFor(o, depth, e, scope, true, out);
    var i := BoundsOf(o, depth, e, scope, true);
    assert SimplifyOk(o, i.min.value, out) && SimplifyOk(o, i.max.value, out);
  }
}
