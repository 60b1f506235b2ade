/**
 * A let passes the bounds of its value on under the names x.min and x.max.  When the body, or
 * the bounds of another variable, read one of these names themselves, the lets around the
 * result capture it; here is exactly when the result is right all the same.
 */
module BoundsCapture {
  import opened Wrappers
  import opened Ir
  import opened Intervals
  import opened BoundsArith
  import opened BoundsMulDiv
  import opened BoundsDivMod
  import opened BoundsLogic
  import opened BoundsCast
  import opened Bounds

  /** The environment in which a wrapped bound is read, captured names included. */
  function WrapOut(x: string, val: Interval, out: Env): Env {
    var out1 := if NamesMax(val) then out[MaxName(x) := Eval(val.max.value, out)] else out;
    if NamesMin(val) then out1[MinName(x) := Eval(val.min.value, out1)] else out1
  }

  lemma {:induction false} WrapEndReads(x: string, val: Interval, r: Expr, out: Env)
    ensures Eval(WrapEnd(x, val, r), out) == Eval(r, WrapOut(x, val, out)) && TypeOf(WrapEnd(x, val, r)) == TypeOf(r)
  {
    var out1 := if NamesMax(val) then out[MaxName(x) := Eval(val.max.value, out)] else out;
    var r1 := if NamesMin(val) && Uses(r, MinName(x)) then Let(MinName(x), val.min.value, r) else r;
    if NamesMin(val) { WrapReads(MinName(x), val.min.value, r, out1); }
    if NamesMax(val) { WrapReads(MaxName(x), val.max.value, r1, out); }
  }

  /** One let, left out where its name is not used. */
  lemma {:induction false} WrapReads(n: string, v: Expr, r: Expr, out: Env)
    ensures var r1 := if Uses(r, n) then Let(n, v, r) else r;
      Eval(r1, out) == Eval(r, out[n := Eval(v, out)]) && TypeOf(r1) == TypeOf(r)
  {
    if !Uses(r, n) { EvalFrame(r, out, n, Eval(v, out)); }
  }

  // ---- the lower bound reads the name of the upper one ----

  /**
   * The lets around a bound mean what its names meant inside exactly when defining the upper name
   * leaves the lower bound alone.
   */
  lemma {:induction false} WrapRightIff(x: string, val: Interval, out: Env)
    requires NamesMin(val) && NamesMax(val)
    ensures (forall r: Expr :: Eval(WrapEnd(x, val, r), out) == Eval(r, LetOut(x, val, out)))
      <==> Eval(val.min.value, out[MaxName(x) := Eval(val.max.value, out)]) == Eval(val.min.value, out)
  {
    NamesDiffer(x);
    var lo, hi := val.min.value, val.max.value;
    var out1 := out[MaxName(x) := Eval(hi, out)];
    if Eval(lo, out1) == Eval(lo, out) {
      forall r: Expr ensures Eval(WrapEnd(x, val, r), out) == Eval(r, LetOut(x, val, out)) {
        WrapEndReads(x, val, r, out);
      }
    } else {
      var r := Var(TypeOf(lo), MinName(x));
      WrapEndReads(x, val, r, out);
      assert Eval(r, LetOut(x, val, out)) == Eval(lo, out);
    }
  }

  // ---- the body reads the name ----

  /** Arithmetic over names that are not in scope, which is bounded by itself. */
  predicate Arithmetic(b: Expr, scope: Scope) {
    match b
    case Const(_, _) => true
    case Var(_, y) => y !in scope
    case Cast(_, a) => Arithmetic(a, scope)
    case Bin(_, l, r) => Arithmetic(l, scope) && Arithmetic(r, scope)
    case _ => false
  }

  lemma {:induction false} ArithmeticIsPoint(o: Oracle, depth: nat, b: Expr, scope: Scope)
    requires Arithmetic(b, scope)
    ensures BoundsOf(o, depth, b, scope, false) == Point(b)
    decreases b
  {
    match b
    case Const(_, _) =>
    case Var(_, _) =>
    case Cast(_, a) => ArithmeticIsPoint(o, depth, a, scope);
    case Bin(_, l, r) =>
      ArithmeticIsPoint(o, depth, l, scope);
      ArithmeticIsPoint(o, depth, r, scope);
  }

  lemma {:induction false} ArithmeticEval(b: Expr, bound: map<string, Type>, scope: Scope, env: Env, out: Env)
    requires Arithmetic(b, scope) && InScope(b, bound, scope, env, out) && bound.Keys <= scope.Keys
    ensures Eval(b, env) == Eval(b, out)
  {
    match b
    case Const(_, _) =>
    case Var(_, _) =>
    case Cast(_, a) => ArithmeticEval(a, bound, scope, env, out);
    case Bin(_, l, r) =>
      ArithmeticEval(l, bound, scope, env, out);
      ArithmeticEval(r, bound, scope, env, out);
  }

  lemma {:induction false} ArithmeticAvoids(b: Expr, scope: Scope, x: string)
    requires Arithmetic(b, scope) && x in scope
    ensures !Uses(b, x)
  {
    match b
    case Const(_, _) =>
    case Var(_, _) =>
    case Cast(_, a) => ArithmeticAvoids(a, scope, x);
    case Bin(_, l, r) =>
      ArithmeticAvoids(l, scope, x);
      ArithmeticAvoids(r, scope, x);
  }

  /** The same free variables in the scope of the let. */
  lemma {:induction false} ArithmeticInScope(b: Expr, x: string, t: Type, i: Interval, scope: Scope, env: Env, out: Env)
    requires Arithmetic(b, scope[x := i]) && InScope(b, map[x := t], scope, env, out)
    ensures InScope(b, map[], scope[x := i], env, out)
  {
    match b
    case Const(_, _) =>
    case Var(_, _) =>
    case Cast(_, a) => ArithmeticInScope(a, x, t, i, scope, env, out);
    case Bin(_, l, r) =>
      ArithmeticInScope(l, x, t, i, scope, env, out);
      ArithmeticInScope(r, x, t, i, scope, env, out);
  }

  /**
   * For any value and any arithmetic body, whether or not it reads x.min or x.max: the let is bounded
   * rightly if and only if giving the names the bounds of the value leaves the body's value alone.
   */
  lemma {:induction false} CapturedBodyIff(o: Oracle, depth: nat, x: string, v: Expr, b: Expr, scope: Scope,
                                           env: Env, out: Env)
    requires Arithmetic(b, scope[x := EVERYTHING]) && InScope(Let(x, v, b), map[], scope, env, out)
    ensures var val := BoundsOf(o, depth, v, scope, false);
      Sound(o, depth, Let(x, v, b), scope, false, env, out) <==>
        Fine(WrapEnd(x, val, b), out) && Eval(b, WrapOut(x, val, out)) == Eval(b, out)
  {
    var val, t := BoundsOf(o, depth, v, scope, false), TypeOf(v);
    var inner := scope[x := LetVar(x, t, val)];
    ArithmeticRescoped(b, scope[x := EVERYTHING], inner);
    ArithmeticIsPoint(o, depth, b, inner);
    assert BoundsOf(o, depth, Let(x, v, b), scope, false) == LetRule(x, val, Point(b)) == Point(WrapEnd(x, val, b));
    WrapEndReads(x, val, b, out);
    BodyEval(x, v, b, scope, env, out);
  }

  lemma {:induction false} ArithmeticRescoped(b: Expr, scope: Scope, scope': Scope)
    requires Arithmetic(b, scope) && scope.Keys == scope'.Keys
    ensures Arithmetic(b, scope')
  {
    match b
    case Const(_, _) =>
    case Var(_, y) => assert y in scope <==> y in scope.Keys;
    case Cast(_, a) => ArithmeticRescoped(a, scope, scope');
    case Bin(_, l, r) =>
      ArithmeticRescoped(l, scope, scope');
      ArithmeticRescoped(r, scope, scope');
  }

  lemma {:induction false} BodyEval(x: string, v: Expr, b: Expr, scope: Scope, env: Env, out: Env)
    requires Arithmetic(b, scope[x := EVERYTHING]) && InScope(Let(x, v, b), map[], scope, env, out)
    ensures Eval(Let(x, v, b), env) == Eval(b, out)
  {
    var inner := scope[x := EVERYTHING];
    ArithmeticAvoids(b, inner, x);
    EvalFrame(b, env, x, Eval(v, env));
    assert map[][x := TypeOf(v)] == map[x := TypeOf(v)];
    ArithmeticInScope(b, x, TypeOf(v), EVERYTHING, scope, env, out);
    ArithmeticEval(b, map[], inner, env, out);
  }

  /** The names already have the values that the lets give them. */
  predicate NamesAgree(x: string, val: Interval, out: Env) {
    var out' := WrapOut(x, val, out);
    Lookup(out', MinName(x)) == Lookup(out, MinName(x)) && Lookup(out', MaxName(x)) == Lookup(out, MaxName(x))
  }

  /** Every body that may read the names keeps its value if and only if the names keep theirs. */
  lemma {:induction false} CapturedNamesIff(x: string, val: Interval, out: Env)
    ensures (forall b: Expr :: Eval(WrapEnd(x, val, b), out) == Eval(b, out)) <==> NamesAgree(x, val, out)
  {
    var out', low, high := WrapOut(x, val, out), Var(Int32, MinName(x)), Var(Int32, MaxName(x));
    WrapEndReads(x, val, low, out);
    WrapEndReads(x, val, high, out);
    if NamesAgree(x, val, out) {
      forall b: Expr ensures Eval(WrapEnd(x, val, b), out) == Eval(b, out) {
        WrapEndReads(x, val, b, out);
        EvalAgree(b, out', out);
      }
    } else {
      assert Eval(WrapEnd(x, val, low), out) != Eval(low, out) || Eval(WrapEnd(x, val, high), out) != Eval(high, out);
    }
  }

  /** let x = p in x.min */
  function ReadsItsName(x: string, p: string): Expr { Let(x, Var(Int32, p), Var(Int32, MinName(x))) }

  /** The smallest case: right if and only if p is x.min's value. */
  lemma {:induction false} ReadsItsNameIff(o: Oracle, depth: nat, x: string, p: string, scope: Scope, env: Env,
                                           out: Env)
    requires p !in scope && MinName(x) !in scope && InScope(ReadsItsName(x, p), map[], scope, env, out)
    ensures Sound(o, depth, ReadsItsName(x, p), scope, false, env, out) <==> Lookup(out, p) == Lookup(out, MinName(x))
  {
    var v, b := Var(Int32, p), Var(Int32, MinName(x));
    assert |MinName(x)| > |x|;
    CapturedBodyIff(o, depth, x, v, b, scope, env, out);
    var val := BoundsOf(o, depth, v, scope, false);
    assert val == Point(v) && NamesMin(val) && !NamesMax(val);
    assert WrapEnd(x, val, b) == Let(MinName(x), v, b);
  }

  // ---- another variable's bounds read the name ----

  /** The wrapped ends have a meaning, and some value lies in the interval. */
  ghost predicate Wrappable(x: string, val: Interval, i: Interval, t: Type, out: Env) {
    && (exists v :: Holds(i, t, v, out))
    && (i.min.Some? ==> Fine(WrapEnd(x, val, i.min.value), out))
    && (i.max.Some? ==> Fine(WrapEnd(x, val, i.max.value), out))
  }

  /** The let around a variable is bounded by the variable's interval, wrapped. */
  lemma {:induction false} VariableUnderLet(o: Oracle, depth: nat, x: string, v: Expr, y: string, t: Type, scope: Scope)
    requires y in scope && y != x
    ensures var val := BoundsOf(o, depth, v, scope, false);
      BoundsOf(o, depth, Let(x, v, Var(t, y)), scope, false) == LetRule(x, val, scope[y])
  {
  }

  /**
   * Every value that y may have is still inside under the let if and only if its interval, read with the
   * names as the let defines them, includes the interval itself.
   */
  lemma {:induction false} CapturedScopeIff(x: string, val: Interval, i: Interval, t: Type, out: Env)
    requires Wrappable(x, val, i, t, out)
    ensures var out' := WrapOut(x, val, out);
      (forall v :: Holds(i, t, v, out) ==> Holds(LetRule(x, val, i), t, v, out)) <==>
        && (i.min.Some? ==> Eval(i.min.value, out') <= Eval(i.min.value, out))
        && (i.max.Some? ==> Eval(i.max.value, out) <= Eval(i.max.value, out'))
  {
    var v0 :| Holds(i, t, v0, out);
    if i.min.Some? { WrapEndReads(x, val, i.min.value, out); }
    if i.max.Some? { WrapEndReads(x, val, i.max.value, out); }
    var low := if i.min.Some? then Eval(i.min.value, out) else v0;
    var high := if i.max.Some? then Eval(i.max.value, out) else v0;
    assert Holds(i, t, low, out) && Holds(i, t, high, out);
  }

  lemma {:induction false} NextAvoids(x: string, n: string)
    requires n != x
    ensures var here, next := Var(Int32, x), Bin(Add, Var(Int32, x), Const(Int32, 1));
      !Uses(here, n) && !Uses(next, n) && !Uses(Let(x, next, here), n)
  {
    var here, one := Var(Int32, x), Const(Int32, 1);
    assert !Uses(here, n) && !Uses(one, n);
    assert !Uses(Bin(Add, here, one), n);
  }

  /** let x = p in let x = x + 1 in x: the inner let replaces the interval that is named after it. */
  lemma {:induction false} NestedLetIsSafe(o: Oracle, depth: nat, x: string, p: string, out: Env)
    requires p != x && p != MinName(x) && p != MaxName(x)
    ensures var e := Let(x, Var(Int32, p), Let(x, Bin(Add, Var(Int32, x), Const(Int32, 1)), Var(Int32, x)));
      Safe(o, depth, e, map[], false, out)
  {
    NamesDiffer(x);
    assert |MinName(x)| > |x| && |MaxName(x)| > |x|;
    var px, one := Var(Int32, p), Const(Int32, 1);
    var val := Point(px);
    var scope: Scope := map[x := LetVar(x, Int32, val)];
    var next := Bin(Add, Var(Int32, x), one);
    assert LetVar(x, Int32, val) == Point(Var(Int32, MinName(x)));
    assert BoundsOf(o, depth, Var(Int32, x), scope, false) == Point(Var(Int32, MinName(x)));
    assert BoundsOf(o, depth, one, scope, false) == Point(one);
    var val2 := BoundsOf(o, depth, next, scope, false);
    assert val2 == AddRule(o, next, Point(Var(Int32, MinName(x))), Point(one));
    assert IsPoint(val2);
    var empty: Scope := map[];
    assert empty[x := LetVar(x, Int32, val)] == scope;
    var here := Var(Int32, x);
    NextAvoids(x, MinName(x));
    NextAvoids(x, MaxName(x));
    var scope2, out2 := scope[x := LetVar(x, Int32, val2)], LetOut(x, val2, LetOut(x, val, out));
    assert TypeOf(next) == Int32 && Safe(o, depth, here, scope2, false, out2);
    assert Safe(o, depth, here, scope, false, LetOut(x, val, out))
      && Safe(o, depth, one, scope, false, LetOut(x, val, out));
    assert Safe(o, depth, next, scope, false, LetOut(x, val, out));
    assert Safe(o, depth, Let(x, next, here), scope, false, LetOut(x, val, out));
  }
}
