/**
 * Tightness of the region analysis: on rectangular loop nests, with conditions solved for their
 * variables, each end of the box is a coordinate of a point that some iteration touches.
 */
module RegionTight {
  import opened Wrappers
  import opened Ir
  import opened Intervals
  import opened BoundsArith
  import opened BoundsCast
  import opened Bounds
  import opened BoundsTight
  import opened BoundsAttained
  import opened WideClass
  import opened Boxes
  import opened RegionIr
  import opened Regions
  import opened RegionSteps
  import opened RegionSafe
  import opened RegionWalk

  // ---- trimming ----

  /**
   * Trimming by a solved comparison with one value keeps exactly the values of the interval that meet
   * the comparison.
   */
  lemma {:induction false} TrimmedIff(op: CmpOp, i: Interval, bi: Interval, r: int, v: int, out: Env)
    requires !op.NE? && IsBounded(i) && IsBounded(bi) && IntEnds(i) && IntEnds(bi)
    requires EndAt(bi, false, out) == EndAt(bi, true, out) == r
    ensures Within(Trimmed(op, i, bi), v, out) <==> Within(i, v, out) && DoCmp(op, v, r)
  {
    var lo, hi := bi.min.value, bi.max.value;
    TrimEnd(Max, i.min.value, lo, Add, out);
    TrimEnd(Min, i.max.value, hi, Sub, out);
  }

  lemma {:induction false} TrimEnd(order: BinOp, x: Expr, y: Expr, step: BinOp, out: Env)
    requires IsOrder(order) && TypeOf(x) == Int32 && TypeOf(y) == Int32 && (step.Add? || step.Sub?)
    ensures Eval(Bin(order, x, y), out) == DoBin(order, Eval(x, out), Eval(y, out))
    ensures Eval(Bin(order, x, Bin(step, y, Regions.ONE)), out)
         == DoBin(order, Eval(x, out), DoBin(step, Eval(y, out), 1))
  {
    IntBin(order, x, y, out);
    IntBin(order, x, Bin(step, y, Regions.ONE), out);
    assert Eval(Bin(step, y, Regions.ONE), out) == DoBin(step, Eval(y, out), 1);
  }

  lemma {:induction false} TrimmedWide(op: CmpOp, i: Interval, bi: Interval)
    requires WideInterval(i, Int32) && IsBounded(i)
    ensures WideInterval(Trimmed(op, i, bi), Int32) && IsBounded(Trimmed(op, i, bi))
  {
  }

  /** A restricted scope has, for each variable the condition is solved for, what the solution says. */
  lemma {:induction false} RestrictedAt(c: Tools, cond: Expr, vars: seq<string>, scope: Scope, y: string)
    ensures y in Restricted(scope, RestrictsOf(c, cond, vars, scope)) <==> y in scope
    ensures y in scope ==>
      Restricted(scope, RestrictsOf(c, cond, vars, scope))[y] ==
      if y in vars && Restricts(c, cond, y, scope) then RestrictOf(c, cond, y, scope).i else scope[y]
  {
    if vars != [] {
      var n := |vars| - 1;
      assert vars == vars[..n] + [vars[n]];
      RestrictedAt(c, cond, vars[..n], scope, y);
      if Restricts(c, cond, vars[n], scope) {
        RestrictedSnoc(scope, RestrictsOf(c, cond, vars[..n], scope), RestrictOf(c, cond, vars[n], scope));
      }
    }
  }

  lemma {:induction false} RestrictedSnoc(scope: Scope, rest: seq<Restrict>, r: Restrict)
    ensures Restricted(scope, rest + [r]) == Restricted(scope, rest)[r.x := r.i]
    decreases |rest|
  {
    if rest == [] {
      assert ([r])[1..] == [];
      assert rest + [r] == [r];
    } else {
      assert (rest + [r])[1..] == rest[1..] + [r];
      RestrictedSnoc(scope[rest[0].x := rest[0].i], rest[1..], r);
    }
  }

  // ---- runs inside a scope ----

  /** Scoped variables lie in their intervals, the others have their outer values. */
  ghost predicate InWorld(scope: Scope, env: Env, out: Env) {
    && (forall y :: y in scope ==> y in env && Within(scope[y], env[y], out))
    && (forall y :: y !in scope ==> Lookup(env, y) == Lookup(out, y))
  }

  /** Some run inside the scope touches a point with coordinate `v` in dimension `k`. */
  ghost predicate HitBy(s: Stmt, scope: Scope, k: nat, v: int, env: Env, p: seq<int>, out: Env) {
    InWorld(scope, env, out) && Touched(s, env, p) && k < |p| && p[k] == v
  }

  ghost predicate Hit(s: Stmt, scope: Scope, k: nat, v: int, out: Env) {
    exists env: Env, p: seq<int> :: HitBy(s, scope, k, v, env, p, out)
  }

  /** An expression without scoped variables. */
  predicate Outer(e: Expr, scope: Scope) { WideExpr(e) && Once(e, scope) && Names(e) !! scope.Keys }

  lemma {:induction false} OuterEval(e: Expr, scope: Scope, env: Env, out: Env)
    requires Names(e) !! scope.Keys && InWorld(scope, env, out)
    ensures Eval(e, env) == Eval(e, out)
  {
    forall x | Uses(e, x) ensures Lookup(env, x) == Lookup(out, x) { UsesNames(e, x); }
    EvalAgree(e, env, out);
  }

  /** The interval of an expression without scoped variables is its value. */
  lemma {:induction false} OuterPoint(c: Tools, e: Expr, scope: Scope, out: Env)
    requires ToolsOk(c) && Outer(e, scope) && WideScope(scope) && GoodScope(scope, out)
    ensures var i := Ask(c, e, scope);
      Range(i, TypeOf(e), out) && EndAt(i, false, out) == EndAt(i, true, out) == Eval(e, out)
  {
    BoundsTightFor(c.o, c.depth, e, scope, false, out);
    var i := Ask(c, e, scope);
    OuterReached(e, scope, EndAt(i, false, out), out);
    OuterReached(e, scope, EndAt(i, true, out), out);
  }

  lemma {:induction false} OuterReached(e: Expr, scope: Scope, v: int, out: Env)
    requires Outer(e, scope) && Reached(e, scope, v, out)
    ensures v == Eval(e, out)
  {
    var env :| Reaches(e, scope, v, env, out);
    forall x | Uses(e, x) ensures Lookup(env, x) == Lookup(out, x) {
      UsesNames(e, x);
      OuterValue(e, scope, env, out, x);
    }
    EvalAgree(e, env, out);
  }

  // ---- rectangular nests ----

  /** The scope in which the first branch of an if is analysed. */
  function Branch(c: Tools, cond: Expr, scope: Scope): Scope {
    Restricted(scope, RestrictsOf(c, c.o.simplify(cond), Occurrences(cond), scope))
  }

  /** What is solved for are comparisons with outer values, and together they imply the condition. */
  ghost predicate Solved(c: Tools, cond: Expr, scope: Scope) {
    var c1 := c.o.simplify(cond);
    && (forall x :: x in Occurrences(cond) && Restricts(c, c1, x, scope) ==> Outer(c.solve(c1, x).value.cb, scope))
    && forall env: Env :: SolutionsHold(c, cond, scope, env) ==> Eval(cond, env) != 0
  }

  ghost predicate SolutionsHold(c: Tools, cond: Expr, scope: Scope, env: Env) {
    var c1 := c.o.simplify(cond);
    forall x {:trigger Restricts(c, c1, x, scope)} ::
      x in Occurrences(cond) && Restricts(c, c1, x, scope) ==> Eval(c.solve(c1, x).value, env) != 0
  }

  /**
   * A nest of loops over outer bounds, each of which runs, and of ifs on scoped variables that some
   * values meet, around touches in which each loop variable occurs at most once per coordinate.
   */
  ghost predicate Rectangular(c: Tools, s: Stmt, scope: Scope, out: Env) {
    match s
    case Skip => true
    case Touch(args) => forall k :: 0 <= k < |args| ==> IntExpr(args[k]) && Once(args[k], scope)
    case Block(a, b) => Rectangular(c, a, scope, out) && Rectangular(c, b, scope, out)
    case For(x, mn, ext, b) =>
      && x !in scope && IntExpr(mn) && IntExpr(ext) && Outer(mn, scope) && Outer(ext, scope) && Eval(ext, out) > 0
      && Rectangular(c, b, scope[x := LoopInterval(Ask(c, mn, scope), Ask(c, ext, scope))], out)
    case LetStmt(_, _, _) => false
    case If(cond, t, f) =>
      && f.Skip? && !(Names(cond) !! scope.Keys) && Solved(c, cond, scope)
      && GoodScope(Branch(c, cond, scope), out) && Rectangular(c, t, Branch(c, cond, scope), out)
  }

  /** A box without a condition, bounded in every dimension. */
  predicate Solid(b: Box) { b.used.None? && IntBox(b) && forall k :: 0 <= k < |b.dims| ==> IsBounded(b.dims[k]) }

  /** An end of the grown box is the end before, or is hit. */
  ghost predicate EndFrom(s: Stmt, scope: Scope, before: Box, after: Box, k: nat, high: bool, out: Env)
    requires Solid(before) && Solid(after) && k < |after.dims| && (before.dims != [] ==> |before.dims| == |after.dims|)
  {
    var v := EndAt(after.dims[k], high, out);
    || (before.dims != [] && v == EndAt(before.dims[k], high, out))
    || Hit(s, scope, k, v, out)
  }

  ghost predicate GrownTightly(s: Stmt, scope: Scope, before: Box, after: Box, out: Env) {
    && Solid(before) && Solid(after) && (before.dims != [] ==> |before.dims| == |after.dims|)
    && forall k: nat, high: bool :: k < |after.dims| ==> EndFrom(s, scope, before, after, k, high, out)
  }

  // ---- touches ----

  /** Every scoped variable at its lower end. */
  function Lowest(scope: Scope, out: Env): Env
    requires forall x :: x in scope ==> IsBounded(scope[x])
  {
    map x | x in scope.Keys + out.Keys :: if x in scope then EndAt(scope[x], false, out) else out[x]
  }

  lemma {:induction false} TouchHits(args: seq<Expr>, scope: Scope, k: nat, v: int, out: Env)
    requires k < |args| && Once(args[k], scope) && GoodScope(scope, out) && Reached(args[k], scope, v, out)
    requires WideExpr(args[k])
    ensures Hit(Touch(args), scope, k, v, out)
  {
    var env :| Reaches(args[k], scope, v, env, out);
    var m := Merge(args[k], env, Lowest(scope, out));
    MergedWorld(args[k], scope, env, out);
    assert AgreeOn(args[k], env, m);
    EvalAgree(args[k], env, m);
    var p := seq(|args|, j requires 0 <= j < |args| => Eval(args[j], m));
    assert HitBy(Touch(args), scope, k, v, m, p, out);
  }

  lemma {:induction false} MergedWorld(e: Expr, scope: Scope, env: Env, out: Env)
    requires Once(e, scope) && GoodScope(scope, out) && Inside(e, scope, env, out)
    ensures InWorld(scope, Merge(e, env, Lowest(scope, out)), out)
  {
    var m := Merge(e, env, Lowest(scope, out));
    forall y | y in scope ensures y in m && Within(scope[y], m[y], out) {
      assert Range(scope[y], Int32, out);
      if Uses(e, y) { ScopedValue(e, scope, env, out, y); }
    }
    forall y | y !in scope ensures Lookup(m, y) == Lookup(out, y) {
      if Uses(e, y) { OuterValue(e, scope, env, out, y); }
    }
  }

  /** Scoped variables of an expression lie in their intervals. */
  lemma {:induction false} ScopedValue(e: Expr, scope: Scope, env: Env, out: Env, x: string)
    requires Once(e, scope) && Inside(e, scope, env, out) && Uses(e, x) && x in scope
    ensures Within(scope[x], Lookup(env, x), out)
  {
    match e
    case Var(_, _) =>
    case Cast(_, a) => ScopedValue(a, scope, env, out, x);
    case Bin(_, a, b) => ScopedValue(if Uses(a, x) then a else b, scope, env, out, x);
    case Cmp(_, a, b) => ScopedValue(if Uses(a, x) then a else b, scope, env, out, x);
    case And(a, b) => ScopedValue(if Uses(a, x) then a else b, scope, env, out, x);
    case Or(a, b) => ScopedValue(if Uses(a, x) then a else b, scope, env, out, x);
    case Not(a) => ScopedValue(a, scope, env, out, x);
    case Select(c, t, f) =>
      ScopedValue(if Uses(c, x) then c else if Uses(t, x) then t else f, scope, env, out, x);
  }

  lemma {:induction false} TouchBoxHits(c: Tools, args: seq<Expr>, scope: Scope, k: nat, high: bool, out: Env)
    requires ToolsOk(c) && WideScope(scope) && GoodScope(scope, out) && k < |args|
    requires IntExpr(args[k]) && Once(args[k], scope)
    ensures var i := TouchBox(c, args, scope).dims[k];
      IsBounded(i) && IntEnds(i) && Hit(Touch(args), scope, k, EndAt(i, high, out), out)
  {
    BoundsTightFor(c.o, c.depth, args[k], scope, false, out);
    TouchHits(args, scope, k, EndAt(Ask(c, args[k], scope), high, out), out);
  }

  lemma {:induction false} TouchTight(c: Tools, args: seq<Expr>, scope: Scope, box: Box, out: Env)
    requires ToolsOk(c) && WideScope(scope) && GoodScope(scope, out) && Solid(box)
    requires Rectangular(c, Touch(args), scope, out) && (box.dims == [] || |box.dims| == |args|)
    ensures GrownTightly(Touch(args), scope, box, Boxes.Merged(c.o, box, TouchBox(c, args, scope)), out)
  {
    var s, b := Touch(args), TouchBox(c, args, scope);
    var r := Boxes.Merged(c.o, box, b);
    forall k: nat | k < |args| ensures IsBounded(b.dims[k]) && IntEnds(b.dims[k]) {
      TouchBoxHits(c, args, scope, k, false, out);
    }
    assert Solid(b);
    MergeInt(c.o, box, b);
    forall k: nat | k < |r.dims| ensures IsBounded(r.dims[k])
      && EndFrom1(s, scope, box, r, k, out) {
      TouchEnds(c, args, scope, box, k, out);
    }
    assert Solid(r);
    forall k: nat, high: bool | k < |r.dims| ensures EndFrom(s, scope, box, r, k, high, out) {
      assert EndFrom1(s, scope, box, r, k, out);
    }
  }

  /** Both ends of one dimension. */
  ghost predicate EndFrom1(s: Stmt, scope: Scope, before: Box, after: Box, k: nat, out: Env) {
    && k < |after.dims| && IsBounded(after.dims[k]) && (before.dims != [] ==> |before.dims| == |after.dims|)
    && (before.dims != [] ==> IsBounded(before.dims[k]))
    && forall high: bool ::
      var v := EndAt(after.dims[k], high, out);
      (before.dims != [] && v == EndAt(before.dims[k], high, out)) || Hit(s, scope, k, v, out)
  }

  lemma {:induction false} TouchEnds(c: Tools, args: seq<Expr>, scope: Scope, box: Box, k: nat, out: Env)
    requires ToolsOk(c) && WideScope(scope) && GoodScope(scope, out) && Solid(box) && k < |args|
    requires Rectangular(c, Touch(args), scope, out) && (box.dims == [] || |box.dims| == |args|)
    requires Solid(TouchBox(c, args, scope))
    ensures EndFrom1(Touch(args), scope, box, Boxes.Merged(c.o, box, TouchBox(c, args, scope)), k, out)
  {
    var b := TouchBox(c, args, scope);
    TouchBoxHits(c, args, scope, k, false, out);
    TouchBoxHits(c, args, scope, k, true, out);
    if box.dims != [] { MergeIsExact(c.o, box, b, k, out); }
  }

  // ---- the theorem ----

  lemma {:induction false} GrownTrans(s: Stmt, a: Stmt, b: Stmt, scope: Scope, box: Box, mid: Box, after: Box, out: Env)
    requires s == Block(a, b) && GrownTightly(a, scope, box, mid, out) && GrownTightly(b, scope, mid, after, out)
    ensures GrownTightly(s, scope, box, after, out)
  {
    forall k: nat, high: bool | k < |after.dims| ensures EndFrom(s, scope, box, after, k, high, out) {
      var v := EndAt(after.dims[k], high, out);
      assert EndFrom(b, scope, mid, after, k, high, out);
      if Hit(b, scope, k, v, out) {
        var env, p :| HitBy(b, scope, k, v, env, p, out);
        assert HitBy(s, scope, k, v, env, p, out);
      } else {
        assert EndFrom(a, scope, box, mid, k, high, out);
        if Hit(a, scope, k, v, out) {
          var env, p :| HitBy(a, scope, k, v, env, p, out);
          assert HitBy(s, scope, k, v, env, p, out);
        }
      }
    }
  }

  /** Whatever the inner statement hits, in its scope, the outer one hits in its own. */
  ghost predicate HitsCarry(inner: Stmt, innerScope: Scope, s: Stmt, scope: Scope, out: Env) {
    forall k: nat, v: int {:trigger Hit(s, scope, k, v, out)} ::
      Hit(inner, innerScope, k, v, out) ==> Hit(s, scope, k, v, out)
  }

  lemma {:induction false} GrownCarries(inner: Stmt, innerScope: Scope, s: Stmt, scope: Scope, box: Box, after: Box,
                                        out: Env)
    requires GrownTightly(inner, innerScope, box, after, out) && HitsCarry(inner, innerScope, s, scope, out)
    ensures GrownTightly(s, scope, box, after, out)
  {
    forall k: nat, high: bool | k < |after.dims| ensures EndFrom(s, scope, box, after, k, high, out) {
      assert EndFrom(inner, innerScope, box, after, k, high, out);
    }
  }

  /** The interval of a loop over outer bounds is exactly its iterations. */
  lemma {:induction false} LoopExact(c: Tools, s: Stmt, scope: Scope, out: Env)
    requires ToolsOk(c) && s.For? && Rectangular(c, s, scope, out) && WideScope(scope) && GoodScope(scope, out)
    ensures var i := LoopInterval(Ask(c, s.min, scope), Ask(c, s.extent, scope));
      && Range(i, Int32, out) && WideInterval(i, Int32)
      && EndAt(i, false, out) == Eval(s.min, out) && EndAt(i, true, out) == Eval(s.min, out) + Eval(s.extent, out) - 1
  {
    var mn, ext := Ask(c, s.min, scope), Ask(c, s.extent, scope);
    OuterPoint(c, s.min, scope, out);
    OuterPoint(c, s.extent, scope, out);
    WideIsSafe(c.o, c.depth, s.min, scope, false, false, out);
    BinEnd(Add, ext.max.value, mn.max.value, Int32, out);
    BinEnd(Sub, Bin(Add, ext.max.value, mn.max.value), Regions.ONE, Int32, out);
  }

  lemma {:induction false} ForCarries(c: Tools, s: Stmt, scope: Scope, out: Env)
    requires ToolsOk(c) && s.For? && Rectangular(c, s, scope, out) && WideScope(scope) && GoodScope(scope, out)
    ensures var inner := scope[s.x := LoopInterval(Ask(c, s.min, scope), Ask(c, s.extent, scope))];
      HitsCarry(s.body, inner, s, scope, out)
  {
    var i := LoopInterval(Ask(c, s.min, scope), Ask(c, s.extent, scope));
    var inner := scope[s.x := i];
    LoopExact(c, s, scope, out);
    forall k: nat, v: int | Hit(s.body, inner, k, v, out) ensures Hit(s, scope, k, v, out) {
      var env, p :| HitBy(s.body, inner, k, v, env, p, out);
      var before := env[s.x := Lookup(out, s.x)];
      assert InWorld(scope, before, out) by {
        forall y | y in scope ensures y in before && Within(scope[y], before[y], out) {
          assert y in inner && inner[y] == scope[y];
        }
      }
      OuterEval(s.min, scope, before, out);
      OuterEval(s.extent, scope, before, out);
      assert s.x in inner && Within(i, env[s.x], out);
      assert before[s.x := env[s.x]] == env;
      assert Touched(s, before, p);
      assert HitBy(s, scope, k, v, before, p, out);
    }
  }

  /** A narrowed scope is a part of the scope, in which every solution holds. */
  lemma {:induction false} BranchValue(c: Tools, cond: Expr, scope: Scope, y: string, env: Env, out: Env)
    requires ToolsOk(c) && Solved(c, cond, scope) && WideScope(scope) && GoodScope(scope, out)
    requires InWorld(Branch(c, cond, scope), env, out)
    ensures y in Branch(c, cond, scope) <==> y in scope
    ensures y in scope ==> y in env && Within(scope[y], env[y], out)
    ensures y in Occurrences(cond) && Restricts(c, c.o.simplify(cond), y, scope) ==>
      var s := c.solve(c.o.simplify(cond), y).value; DoCmp(s.cop, Lookup(env, y), Eval(s.cb, out))
  {
    var c1 := c.o.simplify(cond);
    RestrictedAt(c, c1, Occurrences(cond), scope, y);
    if y in Occurrences(cond) && Restricts(c, c1, y, scope) { SolutionHolds(c, c1, scope, y, env[y], out); }
  }

  /** Inside the narrowed scope the condition holds. */
  lemma {:induction false} BranchHolds(c: Tools, cond: Expr, scope: Scope, env: Env, out: Env)
    requires ToolsOk(c) && Solved(c, cond, scope) && WideScope(scope) && GoodScope(scope, out)
    requires InWorld(Branch(c, cond, scope), env, out)
    ensures InWorld(scope, env, out) && Eval(cond, env) != 0
  {
    var c1 := c.o.simplify(cond);
    forall y | y in scope ensures y in env && Within(scope[y], env[y], out) {
      BranchValue(c, cond, scope, y, env, out);
    }
    forall y | y !in scope ensures Lookup(env, y) == Lookup(out, y) { BranchValue(c, cond, scope, y, env, out); }
    forall y | y in Occurrences(cond) && Restricts(c, c1, y, scope) ensures Eval(c.solve(c1, y).value, env) != 0 {
      BranchValue(c, cond, scope, y, env, out);
      OuterEval(c.solve(c1, y).value.cb, scope, env, out);
    }
    assert SolutionsHold(c, cond, scope, env);
  }

  lemma {:induction false} SolutionHolds(c: Tools, c1: Expr, scope: Scope, y: string, v: int, out: Env)
    requires ToolsOk(c) && WideScope(scope) && GoodScope(scope, out) && Restricts(c, c1, y, scope)
    requires Outer(c.solve(c1, y).value.cb, scope) && Within(RestrictOf(c, c1, y, scope).i, v, out)
    ensures Within(scope[y], v, out)
      && DoCmp(c.solve(c1, y).value.cop, v, Eval(c.solve(c1, y).value.cb, out))
  {
    var s := c.solve(c1, y).value;
    OuterPoint(c, s.cb, scope, out);
    assert Range(scope[y], Int32, out);
    TrimmedIff(s.cop, scope[y], Ask(c, s.cb, scope), Eval(s.cb, out), v, out);
  }

  lemma {:induction false} IfCarries(c: Tools, s: Stmt, scope: Scope, out: Env)
    requires ToolsOk(c) && s.If? && Rectangular(c, s, scope, out) && WideScope(scope) && GoodScope(scope, out)
    ensures HitsCarry(s.onTrue, Branch(c, s.cond, scope), s, scope, out)
  {
    forall k: nat, v: int | Hit(s.onTrue, Branch(c, s.cond, scope), k, v, out) ensures Hit(s, scope, k, v, out) {
      var env, p :| HitBy(s.onTrue, Branch(c, s.cond, scope), k, v, env, p, out);
      BranchHolds(c, s.cond, scope, env, out);
      assert HitBy(s, scope, k, v, env, p, out);
    }
  }

  lemma {:induction false} BranchWide(c: Tools, cond: Expr, scope: Scope, out: Env)
    requires WideScope(scope) && GoodScope(scope, out)
    ensures WideScope(Branch(c, cond, scope))
  {
    var c1, sc := c.o.simplify(cond), Branch(c, cond, scope);
    forall y | y in sc ensures WideInterval(sc[y], Int32) {
      RestrictedAt(c, c1, Occurrences(cond), scope, y);
      assert Range(scope[y], Int32, out);
      if y in Occurrences(cond) && Restricts(c, c1, y, scope) {
        var s := c.solve(c1, y).value;
        TrimmedWide(s.cop, scope[y], Ask(c, s.cb, scope));
      }
    }
  }

  lemma {:induction false} RectangularNoLets(c: Tools, s: Stmt, scope: Scope, out: Env)
    requires Rectangular(c, s, scope, out)
    ensures NoLets(s)
    decreases s
  {
    match s
    case Skip =>
    case Touch(_) =>
    case Block(a, b) => RectangularNoLets(c, a, scope, out); RectangularNoLets(c, b, scope, out);
    case For(x, mn, ext, b) =>
      RectangularNoLets(c, b, scope[x := LoopInterval(Ask(c, mn, scope), Ask(c, ext, scope))], out);
    case If(cond, t, _) => RectangularNoLets(c, t, Branch(c, cond, scope), out);
  }

  /**
   * On a rectangular nest each end of the box is the end it had before, or a coordinate of a point that
   * some run inside the scope touches.
   */
  lemma {:induction false} WalkTight(c: Tools, s: Stmt, scope: Scope, box: Box, rank: nat, out: Env)
    requires ToolsOk(c) && Ranked(s, rank) && NoLets(s) && Shaped(box, rank) && Solid(box)
    requires Rectangular(c, s, scope, out) && WideScope(scope) && GoodScope(scope, out)
    ensures GrownTightly(s, scope, box, Walk(c, s, scope, box, rank), out)
    decreases s
  {
    match s
    case Skip =>
    case Touch(args) => TouchTight(c, args, scope, box, out);
    case Block(a, b) =>
      var mid := Walk(c, a, scope, box, rank);
      WalkTight(c, a, scope, box, rank, out);
      WalkTight(c, b, scope, mid, rank, out);
      GrownTrans(s, a, b, scope, box, mid, Walk(c, b, scope, mid, rank), out);
    case For(x, mn, ext, b) =>
      var inner := scope[x := LoopInterval(Ask(c, mn, scope), Ask(c, ext, scope))];
      LoopExact(c, s, scope, out);
      WalkTight(c, b, inner, box, rank, out);
      ForCarries(c, s, scope, out);
      GrownCarries(b, inner, s, scope, box, Walk(c, b, inner, box, rank), out);
    case If(cond, t, _) =>
      var inner := Branch(c, cond, scope);
      BranchWide(c, cond, scope, out);
      WalkTight(c, t, inner, box, rank, out);
      IfCarries(c, s, scope, out);
      GrownCarries(t, inner, s, scope, box, Walk(c, t, inner, box, rank), out);
  }

  /** Each end of the box is a coordinate of a touched point. */
  ghost predicate TightBox(s: Stmt, scope: Scope, b: Box, out: Env) {
    && b.used.None?
    && forall k: nat, high: bool {:trigger DimHit(s, scope, b, k, high, out)} ::
      k < |b.dims| ==> DimHit(s, scope, b, k, high, out)
  }

  ghost predicate DimHit(s: Stmt, scope: Scope, b: Box, k: nat, high: bool, out: Env) {
    k < |b.dims| && IsBounded(b.dims[k]) && Hit(s, scope, k, EndAt(b.dims[k], high, out), out)
  }

  lemma {:induction false} NestBoxIsTight(c: Tools, s: Stmt, scope: Scope, rank: nat, out: Env)
    requires ToolsOk(c) && Ranked(s, rank) && NoLets(s)
    requires Rectangular(c, s, scope, out) && WideScope(scope) && GoodScope(scope, out)
    ensures TightBox(s, scope, Walk(c, s, scope, EMPTY, rank), out)
  {
    var b := Walk(c, s, scope, EMPTY, rank);
    WalkTight(c, s, scope, EMPTY, rank, out);
    forall k: nat, high: bool | k < |b.dims| ensures DimHit(s, scope, b, k, high, out) {
      assert EndFrom(s, scope, EMPTY, b, k, high, out);
    }
  }
}
