/**
 * One lemma for each way the region analysis enters a smaller statement: if the box covers
 * what the smaller statement touches in the changed scope, it covers what the larger one touches.
 */
module RegionSteps {
  import opened Wrappers
  import opened Ir
  import opened Intervals
  import opened BoundsArith
  import opened BoundsCast
  import opened Bounds
  import opened Boxes
  import opened RegionIr
  import opened Regions

  /** The expression analysis stays inside its guards for this query. */
  ghost predicate SafeQuery(o: Oracle, depth: nat, e: Expr, scope: Scope) {
    forall out: Env :: Safe(o, depth, e, scope, false, out)
  }

  function Query(o: Oracle, depth: nat, e: Expr, scope: Scope): Interval { BoundsOf(o, depth, e, scope, false) }

  lemma {:induction false} QueryHolds(o: Oracle, depth: nat, e: Expr, w: World)
    requires OracleOk(o) && SafeQuery(o, depth, e, w.scope) && Fine(e, w.env) && ExprIn(e, map[], w)
    ensures Holds(Query(o, depth, e, w.scope), TypeOf(e), Eval(e, w.env), w.out)
  {
    assert Safe(o, depth, e, w.scope, false, w.out);
    BoundsSound(o, depth, e, w.scope, false, w.env, w.out);
  }

  // ---- touches ----

  lemma {:induction false} TouchCatches(o: Oracle, depth: nat, s: Stmt, book: Book, scope: Scope, b: Box)
    requires OracleOk(o) && s.Touch? && |b.dims| == |s.args| && b.used.None?
    requires forall k :: 0 <= k < |s.args| ==>
      b.dims[k] == Query(o, depth, s.args[k], scope) && SafeQuery(o, depth, s.args[k], scope)
    ensures Catches(s, [], book, scope, b)
  {
    forall env, out, p | p != [] && Ready(s, book, World(scope, env, out)) && Touched(s, env, p)
      ensures Covers(b, p, out)
    {
      forall k | 0 <= k < |p| ensures Within(b.dims[k], p[k], out) {
        QueryHolds(o, depth, s.args[k], World(scope, env, out));
      }
    }
  }

  // ---- loops ----

  function LoopInterval(mn: Interval, ext: Interval): Interval {
    Interval(mn.min, if mn.max.Some? && ext.max.Some? then
      Some(Bin(Sub, Bin(Add, ext.max.value, mn.max.value), ONE)) else None)
  }

  lemma {:induction false} LoopHolds(mn: Interval, ext: Interval, m: int, n: int, i: int, out: Env)
    requires Holds(mn, Int32, m, out) && Holds(ext, Int32, n, out) && m <= i < m + n
    ensures Holds(LoopInterval(mn, ext), Int32, i, out)
  {
    if mn.max.Some? && ext.max.Some? {
      BinEnd(Add, ext.max.value, mn.max.value, Int32, out);
      BinEnd(Sub, Bin(Add, ext.max.value, mn.max.value), ONE, Int32, out);
    }
  }

  lemma {:induction false} ForCatches(o: Oracle, depth: nat, s: Stmt, book: Book, scope: Scope, box: Box)
    requires OracleOk(o) && s.For?
    requires SafeQuery(o, depth, s.min, scope) && SafeQuery(o, depth, s.extent, scope)
    requires Catches(s.body, [], book + [LoopB(s.x)],
      scope[s.x := LoopInterval(Query(o, depth, s.min, scope), Query(o, depth, s.extent, scope))], box)
    ensures Catches(s, [], book, scope, box)
  {
    var iv := LoopInterval(Query(o, depth, s.min, scope), Query(o, depth, s.extent, scope));
    forall env, out, p | p != [] && Ready(s, book, World(scope, env, out)) && Touched(s, env, p)
      ensures Covers(box, p, out)
    {
      var w := World(scope, env, out);
      var i :| Eval(s.min, env) <= i < Eval(s.min, env) + Eval(s.extent, env) && Touched(s.body, env[s.x := i], p);
      QueryHolds(o, depth, s.min, w);
      QueryHolds(o, depth, s.extent, w);
      LoopHolds(Query(o, depth, s.min, scope), Query(o, depth, s.extent, scope), Eval(s.min, env),
                Eval(s.extent, env), i, out);
      ForReady(s, book, w, iv, i);
      Caught(s.body, [], book + [LoopB(s.x)], Bind(w, s.x, iv, i), box, p);
    }
  }

  // ---- lets ----

  /** Both ends simplified; a single point stays one. */
  function Simplified(o: Oracle, i: Interval): Interval {
    var min := if i.min.Some? then Some(o.simplify(i.min.value)) else None;
    Interval(min, if IsPoint(i) then min else if i.max.Some? then Some(o.simplify(i.max.value)) else None)
  }

  lemma {:induction false} SimplifiedHolds(o: Oracle, i: Interval, t: Type, v: int, out: Env)
    requires OracleOk(o) && Holds(i, t, v, out)
    ensures Holds(Simplified(o, i), t, v, out)
  {
    if i.min.Some? { assert SimplifyOk(o, i.min.value, out); }
    if i.max.Some? { assert SimplifyOk(o, i.max.value, out); }
  }

  lemma {:induction false} LetCatches(o: Oracle, depth: nat, s: Stmt, book: Book, scope: Scope, box: Box)
    requires OracleOk(o) && s.LetStmt? && SafeQuery(o, depth, s.value, scope)
    requires Catches(s.body, [], book + [LetB(s.x, s.value)],
                     scope[s.x := Simplified(o, Query(o, depth, s.value, scope))], box)
    ensures Catches(s, [], book, scope, box)
  {
    var iv := Simplified(o, Query(o, depth, s.value, scope));
    forall env, out, p | p != [] && Ready(s, book, World(scope, env, out)) && Touched(s, env, p)
      ensures Covers(box, p, out)
    {
      var w := World(scope, env, out);
      QueryHolds(o, depth, s.value, w);
      SimplifiedHolds(o, Query(o, depth, s.value, scope), TypeOf(s.value), Eval(s.value, env), out);
      LetReady(s, book, w, iv);
      Caught(s.body, [], book + [LetB(s.x, s.value)], Bind(w, s.x, iv, Eval(s.value, env)), box, p);
    }
  }

  lemma {:induction false} NamedLetCatches(o: Oracle, depth: nat, s: Stmt, n: Naming2, book: Book, scope: Scope,
                                           inner: Box)
    requires OracleOk(o) && s.LetStmt? && SafeQuery(o, depth, s.value, scope)
    requires var i := Simplified(o, Query(o, depth, s.value, scope));
      IsBounded(i) && n.minValue == i.min.value && n.maxValue == i.max.value
    requires NamesOk(n) && Unused2(n, s, [], book, scope) && n.minName !in UsedNames(inner)
      && n.maxName !in UsedNames(inner)
    requires Catches(s.body, [], book + [LetB(s.x, s.value)], scope[s.x := NamedInterval(n, TypeOf(s.value))], inner)
    ensures Catches(s, [], book, scope, WrapBox(n, inner))
  {
    forall env, out, p | p != [] && Ready(s, book, World(scope, env, out)) && Touched(s, env, p)
      ensures Covers(WrapBox(n, inner), p, out)
    {
      var w := NamedLetWorld(o, depth, s, n, book, World(scope, env, out));
      Caught(s.body, [], book + [LetB(s.x, s.value)], w, inner, p);
      WrapBoxMeans(n, inner, p, out);
    }
  }

  lemma {:induction false} NamedLetWorld(o: Oracle, depth: nat, s: Stmt, n: Naming2, book: Book,
                                         w: World) returns (v: World)
    requires OracleOk(o) && s.LetStmt? && SafeQuery(o, depth, s.value, w.scope)
    requires var i := Simplified(o, Query(o, depth, s.value, w.scope));
      IsBounded(i) && n.minValue == i.min.value && n.maxValue == i.max.value
    requires NamesOk(n) && Unused2(n, s, [], book, w.scope) && Ready(s, book, w)
    ensures v == World(w.scope[s.x := NamedInterval(n, TypeOf(s.value))], w.env[s.x := Eval(s.value, w.env)],
                       Named2(n, w.out))
    ensures Ready(s.body, book + [LetB(s.x, s.value)], v)
  {
    var t, k := TypeOf(s.value), Eval(s.value, w.env);
    QueryHolds(o, depth, s.value, w);
    SimplifiedHolds(o, Query(o, depth, s.value, w.scope), t, k, w.out);
    Ready2(n, s, [], book, w);
    NamedHolds(n, t, k, w.out);
    LetReady(s, book, World2(n, w), NamedInterval(n, t));
    v := Bind(World2(n, w), s.x, NamedInterval(n, t), k);
  }

  // ---- narrowing ----

  lemma {:induction false} RestrictCatches(body: Stmt, r: Restrict, rest: seq<Restrict>, book: Book, scope: Scope,
                                           box: Box)
    requires Catches(body, rest, book, scope[r.x := r.i], box)
    ensures Catches(body, [r] + rest, book, scope, box)
  {
    var rs := [r] + rest;
    forall env, out, p | p != [] && Ready(body, book, World(scope, env, out))
      && RestFits(rs, World(scope, env, out)) && Touched(body, env, p)
      ensures Covers(box, p, out)
    {
      var w := World(scope, env, out);
      assert r in rs && Fits(w, r.x, Int32, r.i);
      assert RestFits(rest, w) by {
        forall q | q in rest ensures Fits(w, q.x, Int32, q.i) { assert q in rs; }
      }
      NarrowedReady(body, book, w, r.x, Int32, r.i);
      RestNarrows(rest, w, r.x, Int32, r.i);
      Caught(body, rest, book, Narrowed(w, r.x, r.i), box, p);
    }
  }

  /** The bounds of a dependent let in the narrowed scope, met with its old ones. */
  function MeetMin(o: Oracle, new_: Interval, old_: Interval): Expr
    requires IsBounded(new_) && IsBounded(old_)
  {
    o.simplify(Bin(Max, new_.min.value, old_.min.value))
  }

  function MeetMax(o: Oracle, new_: Interval, old_: Interval): Expr
    requires IsBounded(new_) && IsBounded(old_)
  {
    o.simplify(Bin(Min, new_.max.value, old_.max.value))
  }

  lemma {:induction false} MeetHolds(o: Oracle, i: Interval, j: Interval, t: Type, v: int, out: Env)
    requires OracleOk(o) && IsBounded(i) && IsBounded(j) && Holds(i, t, v, out) && Holds(j, t, v, out)
    ensures End(MeetMin(o, i, j), t, out) && End(MeetMax(o, i, j), t, out)
    ensures Eval(MeetMin(o, i, j), out) <= v <= Eval(MeetMax(o, i, j), out)
  {
    BinMeans(Max, i.min.value, j.min.value, t, out);
    BinMeans(Min, i.max.value, j.max.value, t, out);
    assert SimplifyOk(o, Bin(Max, i.min.value, j.min.value), out)
      && SimplifyOk(o, Bin(Min, i.max.value, j.max.value), out);
  }

  /** A let that depends on a narrowed variable is narrowed too, under fresh names wrapped around the box. */
  lemma {:induction false} TrimLetCatches(o: Oracle, depth: nat, body: Stmt, l: LetDef, n: Naming2, rest: seq<Restrict>,
                                          book: Book, scope: Scope, inner: Box)
    requires OracleOk(o) && CurrentLet(book, l.x) && l == DefOf(book, l.x) && l.x in scope
      && SafeQuery(o, depth, l.value, scope)
    requires var i := Simplified(o, Query(o, depth, l.value, scope));
      IsBounded(i) && IsBounded(scope[l.x]) && n.minValue == MeetMin(o, i, scope[l.x])
        && n.maxValue == MeetMax(o, i, scope[l.x])
    requires NamesOk(n) && Unused2(n, body, rest, book, scope) && n.minName !in UsedNames(inner)
      && n.maxName !in UsedNames(inner)
    requires Catches(body, rest, book, scope[l.x := NamedInterval(n, TypeOf(l.value))], inner)
    ensures Catches(body, rest, book, scope, WrapBox(n, inner))
  {
    forall env, out, p | p != [] && Ready(body, book, World(scope, env, out))
      && RestFits(rest, World(scope, env, out)) && Touched(body, env, p)
      ensures Covers(WrapBox(n, inner), p, out)
    {
      TrimLetWorld(o, depth, body, l, n, rest, book, World(scope, env, out));
      Caught(body, rest, book, World(scope[l.x := NamedInterval(n, TypeOf(l.value))], env, Named2(n, out)), inner, p);
      WrapBoxMeans(n, inner, p, out);
    }
  }

  lemma {:induction false} TrimLetWorld(o: Oracle, depth: nat, body: Stmt, l: LetDef, n: Naming2, rest: seq<Restrict>,
                                        book: Book, w: World)
    requires OracleOk(o) && CurrentLet(book, l.x) && l == DefOf(book, l.x) && l.x in w.scope
      && SafeQuery(o, depth, l.value, w.scope)
    requires var i := Simplified(o, Query(o, depth, l.value, w.scope));
      IsBounded(i) && IsBounded(w.scope[l.x]) && n.minValue == MeetMin(o, i, w.scope[l.x])
        && n.maxValue == MeetMax(o, i, w.scope[l.x])
    requires NamesOk(n) && Unused2(n, body, rest, book, w.scope)
    requires Ready(body, book, w) && RestFits(rest, w)
    ensures var v := World(w.scope[l.x := NamedInterval(n, TypeOf(l.value))], w.env, Named2(n, w.out));
      Ready(body, book, v) && RestFits(rest, v)
  {
    var t, x := TypeOf(l.value), Lookup(w.env, l.x);
    assert LetHolds(l, w);
    QueryHolds(o, depth, l.value, w);
    SimplifiedHolds(o, Query(o, depth, l.value, w.scope), t, x, w.out);
    MeetHolds(o, Simplified(o, Query(o, depth, l.value, w.scope)), w.scope[l.x], t, x, w.out);
    Ready2(n, body, rest, book, w);
    var w2 := World2(n, w);
    assert LetHolds(l, w2);
    NamedHolds(n, t, x, w.out);
    NarrowedReady(body, book, w2, l.x, t, NamedInterval(n, t));
    RestNarrows(rest, w2, l.x, t, NamedInterval(n, t));
    assert Narrowed(w2, l.x, NamedInterval(n, t))
      == World(w.scope[l.x := NamedInterval(n, t)], w.env, Named2(n, w.out));
  }

  // ---- ifs ----

  /** The restriction comes from the condition solved for its variable. */
  ghost predicate RestrictedBy(o: Oracle, depth: nat, solve: Solver, c: Expr, scope: Scope, r: Restrict) {
    && r.x in scope && SolvedFor(solve(c, r.x), r.x)
    && SafeQuery(o, depth, solve(c, r.x).value.cb, scope)
    && r.i == Trimmed(solve(c, r.x).value.cop, scope[r.x], Query(o, depth, solve(c, r.x).value.cb, scope))
  }

  lemma {:induction false} RestrictFits(o: Oracle, depth: nat, solve: Solver, pick: set<string> -> string, c: Expr,
                                        w: World, r: Restrict)
    requires OraclesOk(o, solve, pick) && RestrictedBy(o, depth, solve, c, w.scope, r)
    requires Fine(c, w.env) && Eval(c, w.env) != 0 && ExprIn(c, map[], w)
    ensures Fits(w, r.x, Int32, r.i)
  {
    assert SolvedFollows(solve, c, r.x, w.env) && SolvedIn(solve, c, r.x, w);
    var s := solve(c, r.x).value;
    assert ExprIn(s.ca, map[], w) && ExprIn(s.cb, map[], w) && Fine(s.cb, w.env);
    assert Eval(s.ca, w.env) == Lookup(w.env, r.x);
    assert Eval(s, w.env) == Truth(DoCmp(s.cop, Eval(s.ca, w.env), Eval(s.cb, w.env)));
    QueryHolds(o, depth, s.cb, w);
    TrimmedHolds(s.cop, w.scope[r.x], Query(o, depth, s.cb, w.scope), Lookup(w.env, r.x), Eval(s.cb, w.env), w.out);
  }

  ghost predicate AllRestrictedBy(o: Oracle, depth: nat, solve: Solver, c: Expr, scope: Scope, rs: seq<Restrict>) {
    forall r {:trigger RestrictedBy(o, depth, solve, c, scope, r)} :: r in rs ==>
      RestrictedBy(o, depth, solve, c, scope, r)
  }

  lemma {:induction false} RestrictsFit(o: Oracle, depth: nat, solve: Solver, pick: set<string> -> string, c: Expr,
                                        w: World, rs: seq<Restrict>)
    requires OraclesOk(o, solve, pick) && AllRestrictedBy(o, depth, solve, c, w.scope, rs)
    requires Fine(c, w.env) && Eval(c, w.env) != 0 && ExprIn(c, map[], w)
    ensures RestFits(rs, w)
  {
    forall r | r in rs ensures Fits(w, r.x, Int32, r.i) {
      assert RestrictedBy(o, depth, solve, c, w.scope, r);
      RestrictFits(o, depth, solve, pick, c, w, r);
    }
  }

  /** An if over scoped variables: each branch is analysed under what its condition implies. */
  lemma {:induction false} IfCatches(o: Oracle, depth: nat, solve: Solver, pick: set<string> -> string, s: Stmt,
                                     book: Book, scope: Scope, r1: seq<Restrict>, r2: seq<Restrict>, box: Box)
    requires OraclesOk(o, solve, pick) && s.If?
    requires AllRestrictedBy(o, depth, solve, o.simplify(s.cond), scope, r1)
    requires AllRestrictedBy(o, depth, solve, o.simplify(Not(o.simplify(s.cond))), scope, r2)
    requires Catches(s.onTrue, r1, book, scope, box) && Catches(s.onFalse, r2, book, scope, box)
    ensures Catches(s, [], book, scope, box)
  {
    var c1 := o.simplify(s.cond);
    var c2 := o.simplify(Not(c1));
    forall env, out, p | p != [] && Ready(s, book, World(scope, env, out)) && Touched(s, env, p)
      ensures Covers(box, p, out)
    {
      var w := World(scope, env, out);
      assert SimplifyOk(o, s.cond, env) && SimplifiedIn(o, s.cond, w);
      if Eval(s.cond, env) != 0 {
        RestrictsFit(o, depth, solve, pick, c1, w, r1);
        Caught(s.onTrue, r1, book, w, box, p);
      } else {
        assert Fine(Not(c1), env) && Eval(Not(c1), env) == 1 && ExprIn(Not(c1), map[], w);
        assert SimplifyOk(o, Not(c1), env) && SimplifiedIn(o, Not(c1), w);
        RestrictsFit(o, depth, solve, pick, c2, w, r2);
        Caught(s.onFalse, r2, book, w, box, p);
      }
    }
  }

  /** The box under one more condition. */
  function Under(b: Box, c: Expr): Box {
    b.(used := Some(if MaybeUnused(b).Some? then And(b.used.value, c) else c))
  }

  lemma {:induction false} UnderCovers(b: Box, c: Expr, p: seq<int>, out: Env)
    requires Covers(b, p, out) && Eval(c, out) != 0
    ensures Covers(Under(b, c), p, out)
  {
    if MaybeUnused(b).Some? { ConjunctionMeans(b.used.value, c, out); }
  }

  /** An if over parameters: a run goes one way, and the branch's box is in use exactly then. */
  lemma {:induction false} ParamIfCatches(s: Stmt, book: Book, scope: Scope, t: Box, f: Box, box: Box)
    requires s.If? && Names(s.cond) !! scope.Keys
    requires Catches(s.onTrue, [], book, scope, t) && Catches(s.onFalse, [], book, scope, f)
    requires Keeps(Under(t, s.cond), box) && Keeps(Under(f, Not(s.cond)), box)
    ensures Catches(s, [], book, scope, box)
  {
    forall env, out, p | p != [] && Ready(s, book, World(scope, env, out)) && Touched(s, env, p)
      ensures Covers(box, p, out)
    {
      var w := World(scope, env, out);
      assert Twins(map[], w, env, out);
      UnscopedEval(s.cond, map[], w, env, out);
      if Eval(s.cond, env) != 0 {
        Caught(s.onTrue, [], book, w, t, p);
        UnderCovers(t, s.cond, p, out);
        assert Covers(Under(t, s.cond), p, out);
      } else {
        Caught(s.onFalse, [], book, w, f, p);
        assert Eval(Not(s.cond), out) == 1;
        UnderCovers(f, Not(s.cond), p, out);
        assert Covers(Under(f, Not(s.cond)), p, out);
      }
    }
  }

  lemma {:induction false} BlockCatches(s: Stmt, book: Book, scope: Scope, box: Box)
    requires s.Block? && Catches(s.first, [], book, scope, box) && Catches(s.rest, [], book, scope, box)
    ensures Catches(s, [], book, scope, box)
  {
    forall env, out, p | p != [] && Ready(s, book, World(scope, env, out)) && Touched(s, env, p)
      ensures Covers(box, p, out)
    {
      var w := World(scope, env, out);
      if Touched(s.first, env, p) { Caught(s.first, [], book, w, box, p); } else {
        Caught(s.rest, [], book, w, box, p);
      }
    }
  }
}
