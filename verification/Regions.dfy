/**
 * Region analysis: the box of all points of one function that a statement may touch.
 * Loops and lets extend the scope; an if over scoped variables narrows them, and the lets
 * that depend on them, for each branch; an if over parameters makes its boxes conditional.
 */
module Regions {
  import opened Wrappers
  import opened Ir
  import opened Intervals
  import opened BoundsArith
  import opened BoundsMulDiv
  import opened BoundsLogic
  import opened BoundsCast
  import opened Bounds
  import opened BoundsVisitor
  import opened Boxes
  import opened RegionIr

  // ---- the oracles ----

  type Solver = (Expr, string) -> Option<Expr>

  /** A solved condition follows from the original one and mentions nothing new. */
  ghost predicate SolvedFollows(solve: Solver, c: Expr, x: string, env: Env) {
    solve(c, x).Some? && Fine(c, env) && Eval(c, env) != 0 ==>
      Fine(solve(c, x).value, env) && Eval(solve(c, x).value, env) != 0
  }

  ghost predicate SolvedIn(solve: Solver, c: Expr, x: string, w: World) {
    solve(c, x).Some? && ExprIn(c, map[], w) ==> ExprIn(solve(c, x).value, map[], w)
  }

  ghost predicate SimplifiedIn(o: Oracle, e: Expr, w: World) {
    ExprIn(e, map[], w) ==> ExprIn(o.simplify(e), map[], w)
  }

  ghost predicate OraclesOk(o: Oracle, solve: Solver, pick: set<string> -> string) {
    && OracleOk(o) && SimplifyTotal(o)
    && (forall e: Expr, w: World {:trigger SimplifiedIn(o, e, w)} :: SimplifiedIn(o, e, w))
    && (forall c: Expr, x: string, env: Env {:trigger SolvedFollows(solve, c, x, env)} ::
      SolvedFollows(solve, c, x, env))
    && (forall c: Expr, x: string, w: World {:trigger SolvedIn(solve, c, x, w)} :: SolvedIn(solve, c, x, w))
    && (forall ns: set<string> :: pick(ns) !in ns)
  }

  // ---- restricting a variable by a solved condition ----

  datatype Restrict = Restrict(x: string, i: Interval)

  const ONE := Const(Int32, 1)

  function Trimmed(op: CmpOp, i: Interval, bi: Interval): Interval {
    Interval(
      if i.min.Some? && bi.min.Some? && (op.GT? || op.GE? || op.EQ?) then
        Some(Bin(Max, i.min.value, if op.GT? then Bin(Add, bi.min.value, ONE) else bi.min.value))
      else i.min,
      if i.max.Some? && bi.max.Some? && (op.LT? || op.LE? || op.EQ?) then
        Some(Bin(Min, i.max.value, if op.LT? then Bin(Sub, bi.max.value, ONE) else bi.max.value))
      else i.max)
  }

  lemma {:induction false} TrimmedHolds(op: CmpOp, i: Interval, bi: Interval, v: int, r: int, out: Env)
    requires Holds(i, Int32, v, out) && Holds(bi, Int32, r, out) && DoCmp(op, v, r)
    ensures Holds(Trimmed(op, i, bi), Int32, v, out)
  {
    if i.min.Some? && bi.min.Some? && (op.GT? || op.GE? || op.EQ?) {
      BinEnd(Add, bi.min.value, ONE, Int32, out);
      BinMeans(Max, i.min.value, if op.GT? then Bin(Add, bi.min.value, ONE) else bi.min.value, Int32, out);
    }
    if i.max.Some? && bi.max.Some? && (op.LT? || op.LE? || op.EQ?) {
      BinEnd(Sub, bi.max.value, ONE, Int32, out);
      BinMeans(Min, i.max.value, if op.LT? then Bin(Sub, bi.max.value, ONE) else bi.max.value, Int32, out);
    }
  }

  /** A condition solved for `x`: a comparison of the variable with an int32 expression. */
  predicate SolvedFor(s: Option<Expr>, x: string) {
    s.Some? && s.value.Cmp? && !s.value.cop.NE? && s.value.ca == Var(Int32, x) && TypeOf(s.value.cb) == Int32
  }

  ghost predicate RestFits(rest: seq<Restrict>, w: World) {
    forall r {:trigger Fits(w, r.x, Int32, r.i)} :: r in rest ==> Fits(w, r.x, Int32, r.i)
  }

  function RestNames(rest: seq<Restrict>): set<string> {
    if rest == [] then {} else IntervalNames(rest[0].i) + RestNames(rest[1..])
  }

  lemma {:induction false} RestNamesAt(rest: seq<Restrict>, r: Restrict)
    requires r in rest
    ensures IntervalNames(r.i) <= RestNames(rest)
  {
    if r != rest[0] { RestNamesAt(rest[1..], r); }
  }

  lemma {:induction false} RestNarrows(rest: seq<Restrict>, w: World, x: string, t: Type, i: Interval)
    requires RestFits(rest, w) && Fits(w, x, t, i)
    ensures RestFits(rest, Narrowed(w, x, i))
  {
    forall r | r in rest ensures Fits(Narrowed(w, x, i), r.x, Int32, r.i) {
      assert Fits(w, r.x, Int32, r.i);
      if r.x == x && i != EVERYTHING { assert t == Int32; }
    }
  }

  lemma {:induction false} RestNaming(rest: seq<Restrict>, w: World, n: string, v: int)
    requires RestFits(rest, w) && n !in RestNames(rest) && n !in ScopeNames(w.scope)
    ensures RestFits(rest, Naming(w, n, v))
  {
    forall r | r in rest ensures Fits(Naming(w, n, v), r.x, Int32, r.i) {
      assert Fits(w, r.x, Int32, r.i);
      RestNamesAt(rest, r);
      FrameInterval(r.i, Int32, Lookup(w.env, r.x), w.out, n, v);
      assert forall m :: m in IntervalNames(w.scope[r.x]) ==> m in ScopeNames(w.scope);
      if w.scope[r.x] != EVERYTHING { FrameInterval(w.scope[r.x], Int32, Lookup(w.env, r.x), w.out, n, v); }
    }
  }

  // ---- which lets depend on a variable ----

  /** The let at `k` reads `y` as bound at `j`; a let does not count as reading its own name. */
  predicate Reads(book: Book, k: nat, y: string, j: int) {
    k < |book| && book[k].LetB? && y in Names(book[k].value) && y != book[k].x && Latest(book[..k], y) == j
  }

  /** A later let of the same name, with `y` not rebound in between, has taken the entry out. */
  predicate TakenOut(book: Book, k: nat, y: string) {
    exists m :: k < m < |book| && Replaces(book, m, k, y)
  }

  predicate Replaces(book: Book, m: nat, k: nat, y: string) {
    && k < m < |book| && book[m].LetB? && book[m].x == book[k].x
    && Latest(book[..m], book[k].x) == k && Latest(book[..m], y) == Latest(book[..k], y)
  }

  /** The let at `k` is recorded as depending on the current instance of `y`. */
  predicate DependsOn(book: Book, k: nat, y: string) {
    Reads(book, k, y, Latest(book, y)) && !TakenOut(book, k, y)
  }

  lemma {:induction false} LatestAtLeast(book: Book, k: nat)
    requires k < |book|
    ensures Latest(book, book[k].x) >= k
  {
    if k < |book| - 1 { LatestAtLeast(book[..|book| - 1], k); }
  }

  /**
   * The names to narrow with `y`, in the order in which they are pushed: each let that depends on
   * it, followed by what depends on that let's name.
   */
  function Dependents(book: Book, y: string, k: nat): seq<string>
    decreases |book| - Latest(book, y), |book| - k
  {
    if k >= |book| then []
    else if DependsOn(book, k, y) then
      LatestAtLeast(book, k);
      [book[k].x] + Dependents(book, book[k].x, 0) + Dependents(book, y, k + 1)
    else Dependents(book, y, k + 1)
  }

  predicate IsBound(book: Book, y: string) { exists k :: 0 <= k < |book| && book[k].x == y }

  lemma {:induction false} DependentsAreBound(book: Book, y: string, k: nat)
    ensures forall z :: z in Dependents(book, y, k) ==> IsBound(book, z)
    decreases |book| - Latest(book, y), |book| - k
  {
    if k < |book| {
      DependentsAreBound(book, y, k + 1);
      if DependsOn(book, k, y) {
        LatestAtLeast(book, k);
        DependentsAreBound(book, book[k].x, 0);
      }
    }
  }

  // ---- what a box must do ----

  /** Nothing covered before is lost. */
  ghost predicate Keeps(before: Box, after: Box) {
    forall p, out {:trigger Covers(after, p, out)} :: Covers(before, p, out) ==> Covers(after, p, out)
  }

  /** Every point touched, in any run inside the scope that meets the restrictions, is covered. */
  ghost predicate Catches(s: Stmt, rest: seq<Restrict>, book: Book, scope: Scope, box: Box) {
    forall env, out, p {:trigger Touched(s, env, p), Covers(box, p, out)} ::
      p != [] && Ready(s, book, World(scope, env, out)) && RestFits(rest, World(scope, env, out))
        && Touched(s, env, p) ==>
        Covers(box, p, out)
  }

  lemma {:induction false} Caught(s: Stmt, rest: seq<Restrict>, book: Book, w: World, box: Box, p: seq<int>)
    requires Catches(s, rest, book, w.scope, box) && p != [] && Ready(s, book, w) && RestFits(rest, w)
      && Touched(s, w.env, p)
    ensures Covers(box, p, w.out)
  {
    assert w == World(w.scope, w.env, w.out);
  }

  lemma {:induction false} CatchesLater(s: Stmt, rest: seq<Restrict>, book: Book, scope: Scope, box: Box, after: Box)
    requires Catches(s, rest, book, scope, box) && Keeps(box, after)
    ensures Catches(s, rest, book, scope, after)
  {
    forall env, out, p | p != [] && Ready(s, book, World(scope, env, out)) && RestFits(rest, World(scope, env, out))
      && Touched(s, env, p)
      ensures Covers(after, p, out)
    {
      Caught(s, rest, book, World(scope, env, out), box, p);
    }
  }

  lemma {:induction false} KeepsTrans(a: Box, b: Box, c: Box)
    requires Keeps(a, b) && Keeps(b, c)
    ensures Keeps(a, c)
  {
    forall p, out | Covers(a, p, out) ensures Covers(c, p, out) { assert Covers(b, p, out); }
  }

  lemma {:induction false} MergeKeeps(o: Oracle, a: Box, b: Box)
    requires SimplifyTotal(o) && IntBox(a) && IntBox(b) && (a.dims != [] && b.dims != [] ==> |a.dims| == |b.dims|)
    ensures Keeps(a, Merged(o, a, b)) && Keeps(b, Merged(o, a, b)) && IntBox(Merged(o, a, b))
  {
    MergeInt(o, a, b);
    forall p, out | Covers(a, p, out) ensures Covers(Merged(o, a, b), p, out) { MergeCovers(o, a, b, p, out); }
    forall p, out | Covers(b, p, out) ensures Covers(Merged(o, a, b), p, out) { MergeCovers(o, a, b, p, out); }
  }

  function UsedNames(b: Box): set<string> { EndNames(b.used) }

  function BoxNames(b: Box): set<string> { UsedNames(b) + DimNames(b.dims) }

  function DimNames(dims: seq<Interval>): set<string> {
    if dims == [] then {} else IntervalNames(dims[0]) + DimNames(dims[1..])
  }

  lemma {:induction false} DimNamesAt(dims: seq<Interval>, k: nat)
    requires k < |dims|
    ensures IntervalNames(dims[k]) <= DimNames(dims)
  {
    if k > 0 { DimNamesAt(dims[1..], k - 1); }
  }

  lemma {:induction false} MergeUsedNames(o: Oracle, a: Box, b: Box)
    requires OracleOk(o) && (a.dims != [] && b.dims != [] ==> |a.dims| == |b.dims|)
    ensures UsedNames(Merged(o, a, b)) <= UsedNames(a) + UsedNames(b)
  {
    var ua, ub := MaybeUnused(a), MaybeUnused(b);
    if ua.Some? && ub.Some? { SimplifyNames(o, Or(ua.value, ub.value)); }
  }

  // ---- wrapping boxes in lets for fresh names ----

  /** The names and the values of a let's upper and lower bound. */
  datatype Naming2 = Naming2(maxName: string, maxValue: Expr, minName: string, minValue: Expr)

  function WrapExpr(n: Naming2, e: Expr): Expr {
    var e1 := if Uses(e, n.maxName) then Let(n.maxName, n.maxValue, e) else e;
    if Uses(e1, n.minName) then Let(n.minName, n.minValue, e1) else e1
  }

  function WrapInterval(n: Naming2, i: Interval): Interval {
    Interval(if i.min.Some? then Some(WrapExpr(n, i.min.value)) else None,
             if i.max.Some? then Some(WrapExpr(n, i.max.value)) else None)
  }

  function WrapBox(n: Naming2, b: Box): Box {
    b.(dims := seq(|b.dims|, k requires 0 <= k < |b.dims| => WrapInterval(n, b.dims[k])))
  }

  function Named2(n: Naming2, out: Env): Env {
    out[n.minName := Eval(n.minValue, out)][n.maxName := Eval(n.maxValue, out)]
  }

  predicate NamesOk(n: Naming2) {
    n.maxName != n.minName && n.minName !in Names(n.maxValue)
  }

  lemma {:induction false} WrapExprMeans(n: Naming2, e: Expr, out: Env)
    requires NamesOk(n)
    ensures TypeOf(WrapExpr(n, e)) == TypeOf(e) && Eval(WrapExpr(n, e), out) == Eval(e, Named2(n, out))
  {
    var out1 := out[n.minName := Eval(n.minValue, out)];
    UsesNames(n.maxValue, n.minName);
    EvalFrame(n.maxValue, out, n.minName, Eval(n.minValue, out));
    var e1 := if Uses(e, n.maxName) then Let(n.maxName, n.maxValue, e) else e;
    assert Eval(e1, out1) == Eval(e, Named2(n, out)) by {
      if !Uses(e, n.maxName) { EvalFrame(e, out1, n.maxName, Eval(n.maxValue, out)); }
    }
    if !Uses(e1, n.minName) { EvalFrame(e1, out, n.minName, Eval(n.minValue, out)); }
  }

  lemma {:induction false} WrapIntervalMeans(n: Naming2, i: Interval, v: int, out: Env)
    requires NamesOk(n)
    ensures Within(WrapInterval(n, i), v, out) <==> Within(i, v, Named2(n, out))
    ensures IntEnds(i) ==> IntEnds(WrapInterval(n, i))
  {
    if i.min.Some? { WrapExprMeans(n, i.min.value, out); }
    if i.max.Some? { WrapExprMeans(n, i.max.value, out); }
  }

  lemma {:induction false} FrameEval2(n: Naming2, e: Expr, out: Env)
    requires n.minName !in Names(e) && n.maxName !in Names(e)
    ensures Eval(e, Named2(n, out)) == Eval(e, out)
  {
    UsesNames(e, n.minName);
    UsesNames(e, n.maxName);
    EvalFrame(e, out, n.minName, Eval(n.minValue, out));
    EvalFrame(e, out[n.minName := Eval(n.minValue, out)], n.maxName, Eval(n.maxValue, out));
  }

  /** A wrapped box covers outside what the box covers inside. */
  lemma {:induction false} WrapBoxMeans(n: Naming2, b: Box, p: seq<int>, out: Env)
    requires NamesOk(n) && n.minName !in UsedNames(b) && n.maxName !in UsedNames(b)
    ensures Covers(WrapBox(n, b), p, out) <==> Covers(b, p, Named2(n, out))
  {
    if b.used.Some? { FrameEval2(n, b.used.value, out); }
    forall k | 0 <= k < |b.dims|
      ensures forall v :: Within(WrapInterval(n, b.dims[k]), v, out) <==> Within(b.dims[k], v, Named2(n, out))
    {
      forall v ensures Within(WrapInterval(n, b.dims[k]), v, out) <==> Within(b.dims[k], v, Named2(n, out)) {
        WrapIntervalMeans(n, b.dims[k], v, out);
      }
    }
  }

  lemma {:induction false} FrameWithin(n: Naming2, i: Interval, v: int, out: Env)
    requires n.minName !in IntervalNames(i) && n.maxName !in IntervalNames(i)
    ensures Within(i, v, Named2(n, out)) <==> Within(i, v, out)
  {
    if i.min.Some? { FrameEval2(n, i.min.value, out); }
    if i.max.Some? { FrameEval2(n, i.max.value, out); }
  }

  /** Fresh names do not change what an older box covers. */
  lemma {:induction false} FrameBox(n: Naming2, b: Box, p: seq<int>, out: Env)
    requires n.minName !in BoxNames(b) && n.maxName !in BoxNames(b) && Covers(b, p, out)
    ensures Covers(b, p, Named2(n, out))
  {
    if b.used.Some? { FrameEval2(n, b.used.value, out); }
    forall k | 0 <= k < |p| ensures Within(b.dims[k], p[k], Named2(n, out)) {
      DimNamesAt(b.dims, k);
      FrameWithin(n, b.dims[k], p[k], out);
    }
  }

  lemma {:induction false} WrapKeeps(n: Naming2, before: Box, inner: Box)
    requires NamesOk(n) && n.minName !in BoxNames(before) && n.maxName !in BoxNames(before)
    requires n.minName !in UsedNames(inner) && n.maxName !in UsedNames(inner) && Keeps(before, inner)
    ensures Keeps(before, WrapBox(n, inner))
  {
    forall p, out | Covers(before, p, out) ensures Covers(WrapBox(n, inner), p, out) {
      FrameBox(n, before, p, out);
      assert Covers(inner, p, Named2(n, out));
      WrapBoxMeans(n, inner, p, out);
    }
  }

  lemma {:induction false} WrapInt(n: Naming2, b: Box)
    requires NamesOk(n) && IntBox(b)
    ensures IntBox(WrapBox(n, b))
  {
    forall k | 0 <= k < |b.dims| ensures IntEnds(WrapBox(n, b).dims[k]) {
      assert IntEnds(b.dims[k]);
      WrapIntervalMeans(n, b.dims[k], 0, map[]);
    }
  }

  /** The interval a fresh pair of names stands for. */
  function NamedInterval(n: Naming2, t: Type): Interval { Interval(Some(Var(t, n.minName)), Some(Var(t, n.maxName))) }

  /** The two names are used nowhere near. */
  predicate Unused2(n: Naming2, s: Stmt, rest: seq<Restrict>, book: Book, scope: Scope) {
    && n.minName !in StmtNames(s) + RestNames(rest) + BookNames(book) + ScopeNames(scope)
    && n.maxName !in StmtNames(s) + RestNames(rest) + BookNames(book) + ScopeNames(scope)
  }

  function World2(n: Naming2, w: World): World {
    Naming(Naming(w, n.minName, Eval(n.minValue, w.out)), n.maxName, Eval(n.maxValue, w.out))
  }

  lemma {:induction false} Ready2(n: Naming2, s: Stmt, rest: seq<Restrict>, book: Book, w: World)
    requires Unused2(n, s, rest, book, w.scope) && Ready(s, book, w) && RestFits(rest, w)
    ensures Ready(s, book, World2(n, w)) && RestFits(rest, World2(n, w)) && World2(n, w).out == Named2(n, w.out)
  {
    var w1 := Naming(w, n.minName, Eval(n.minValue, w.out));
    NamingReady(s, book, w, n.minName, Eval(n.minValue, w.out));
    RestNaming(rest, w, n.minName, Eval(n.minValue, w.out));
    NamingReady(s, book, w1, n.maxName, Eval(n.maxValue, w.out));
    RestNaming(rest, w1, n.maxName, Eval(n.maxValue, w.out));
  }

  lemma {:induction false} NamedHolds(n: Naming2, t: Type, v: int, out: Env)
    requires NamesOk(n) && End(n.minValue, t, out) && End(n.maxValue, t, out)
    requires Eval(n.minValue, out) <= v <= Eval(n.maxValue, out)
    ensures Holds(NamedInterval(n, t), t, v, Named2(n, out))
  {
    FineInRange(n.minValue, out);
    FineInRange(n.maxValue, out);
  }
}
