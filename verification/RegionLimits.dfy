/**
 * Where the region analysis is wrong: a bound passed by name whose other end is infinite, and
 * a dependent let narrowed after a name it reads was bound again.
 */
module RegionLimits {
  import opened Wrappers
  import opened Ir
  import opened Intervals
  import opened BoundsArith
  import opened BoundsCast
  import opened Bounds
  import opened Boxes
  import opened RegionIr
  import opened Regions
  import opened RegionSteps
  import opened RegionSafe
  import opened BoxesTouched

  const NEG_INF := "neg_inf"
  const POS_INF := "pos_inf"

  /** The infinities are not names of the program. */
  predicate InfinitiesUnused(s: Stmt, book: Book, scope: Scope) {
    var ns := StmtNames(s) + BookNames(book) + ScopeNames(scope);
    NEG_INF !in ns && POS_INF !in ns
  }

  /** The box of a touch of the one variable whose bounds were named. */
  function NamedBox(n: Naming2): Box { Box([NamedInterval(n, Int32)], None) }

  /** What the wrapped box covers. */
  lemma {:induction false} NamedBoxCovers(n: Naming2, v: int, out: Env)
    requires NamesOk(n)
    ensures Covers(WrapBox(n, NamedBox(n)), [v], out) <==> Eval(n.minValue, out) <= v <= Eval(n.maxValue, out)
  {
    WrapIntervalMeans(n, NamedInterval(n, Int32), v, out);
    var box := WrapBox(n, NamedBox(n));
    assert box.dims == [WrapInterval(n, NamedInterval(n, Int32))] && InUse(box, out);
    assert Covers(box, [v], out) <==> Within(box.dims[0], [v][0], out);
  }

  /** The same run, read in an outer environment that gives an infinity some value. */
  lemma {:induction false} InfinityIsFree(s: Stmt, book: Book, w: World, inf: string, v: int)
    requires Ready(s, book, w) && InfinitiesUnused(s, book, w.scope) && (inf == NEG_INF || inf == POS_INF)
    ensures Ready(s, book, World(w.scope, w.env, w.out[inf := v]))
  {
    NamingReady(s, book, w, inf, v);
  }

  /** A box with an infinity for a bound misses a point, if the statement touches any. */
  lemma {:induction false} InfinityEscapes(s: Stmt, n: Naming2, book: Book, w: World, v: int)
    requires NamesOk(n) && Ready(s, book, w) && InfinitiesUnused(s, book, w.scope) && Touched(s, w.env, [v])
    requires n.minValue == Var(Int32, NEG_INF) || n.maxValue == Var(Int32, POS_INF)
    ensures !Catches(s, [], book, w.scope, WrapBox(n, NamedBox(n)))
  {
    var low := n.minValue == Var(Int32, NEG_INF);
    var out := if low then w.out[NEG_INF := v + 1] else w.out[POS_INF := v - 1];
    if low { InfinityIsFree(s, book, w, NEG_INF, v + 1); } else { InfinityIsFree(s, book, w, POS_INF, v - 1); }
    NamedBoxCovers(n, v, out);
    assert RestFits([], World(w.scope, w.env, out));
    assert !Covers(WrapBox(n, NamedBox(n)), [v], out);
  }

  // ---- lets ----

  function TouchLet(x: string, value: Expr): Stmt { LetStmt(x, value, Touch([Var(Int32, x)])) }

  /** The pair of names chosen for a let that is not small. */
  predicate NamesLet(n: Naming2, i: Interval, s: Stmt, scope: Scope) {
    NamesOk(n) && Unused2(n, s, [], [], scope) && n.minValue == LowOf(i) && n.maxValue == HighOf(i)
  }

  lemma {:induction false} NamedTouchCatches(o: Oracle, depth: nat, n: Naming2, x: string, book: Book, scope: Scope)
    requires OracleOk(o)
    ensures Catches(Touch([Var(Int32, x)]), [], book, scope[x := NamedInterval(n, Int32)], NamedBox(n))
  {
    var s, sc := Touch([Var(Int32, x)]), scope[x := NamedInterval(n, Int32)];
    assert Query(o, depth, Var(Int32, x), sc) == NamedInterval(n, Int32) && SafeQuery(o, depth, Var(Int32, x), sc);
    TouchCatches(o, depth, s, book, sc, NamedBox(n));
  }

  /** Bounds passed by name are right exactly when both are finite. */
  lemma {:induction false} NamedLetRightIff(c: Tools, x: string, value: Expr, n: Naming2, w: World)
    requires OracleOk(c.o) && TypeOf(value) == Int32 && SafeAsk(c, value, w.scope)
    requires NamesLet(n, LetBounds(c, value, w.scope), TouchLet(x, value), w.scope)
    requires Ready(TouchLet(x, value), [], w) && InfinitiesUnused(TouchLet(x, value), [], w.scope)
    ensures Catches(TouchLet(x, value), [], [], w.scope, WrapBox(n, NamedBox(n))) <==>
      IsBounded(LetBounds(c, value, w.scope))
  {
    var s := TouchLet(x, value);
    if IsBounded(LetBounds(c, value, w.scope)) {
      NamedTouchCatches(c.o, c.depth, n, x, [] + [LetB(x, value)], w.scope);
      NamedLetCatches(c.o, c.depth, s, n, [], w.scope, NamedBox(n));
    } else {
      var v := Eval(value, w.env);
      assert Touched(s.body, w.env[x := v], [v]);
      InfinityEscapes(s, n, [], w, v);
    }
  }

  /** A sum of variables. */
  function SumOf(xs: seq<string>): Expr
    requires xs != []
  {
    if |xs| == 1 then Var(Int32, xs[0]) else Bin(Add, SumOf(xs[..|xs| - 1]), Var(Int32, xs[|xs| - 1]))
  }

  lemma {:induction false} SumOfMeans(o: Oracle, depth: nat, xs: seq<string>, scope: Scope)
    requires xs != [] && forall k :: 0 <= k < |xs| ==> xs[k] !in scope
    ensures BoundsOf(o, depth, SumOf(xs), scope, false) == Point(SumOf(xs)) && VarCount(SumOf(xs)) == |xs|
    ensures TypeOf(SumOf(xs)) == Int32 && Fine(SumOf(xs), map[]) && Names(SumOf(xs)) == set k | 0 <= k < |xs| :: xs[k]
    ensures forall out: Env :: Safe(o, depth, SumOf(xs), scope, false, out)
    ensures InScope(SumOf(xs), map[], scope, map[], map[])
  {
    if |xs| > 1 {
      var ys := xs[..|xs| - 1];
      SumOfMeans(o, depth, ys, scope);
      assert (set k | 0 <= k < |xs| :: xs[k]) == (set k | 0 <= k < |ys| :: ys[k]) + {xs[|xs| - 1]};
    }
  }

  /**
   * The failing family of lets: the minimum of ten or more parameters' sum and an unbounded
   * variable has a large upper bound and no lower one.
   */
  lemma {:induction false} LargeMinimumEscapes(c: Tools, xs: seq<string>, n: Naming2)
    requires OracleOk(c.o) && |xs| >= 10 && c.o.simplify(SumOf(xs)) == SumOf(xs)
    requires forall k :: 0 <= k < |xs| ==> xs[k] != "x" && xs[k] != NEG_INF && xs[k] != POS_INF
    requires var value, scope := Bin(Min, SumOf(xs), Var(Int32, "x")), map["x" := EVERYTHING];
      NamesLet(n, LetBounds(c, value, scope), TouchLet("y", value), scope)
    ensures var value, scope := Bin(Min, SumOf(xs), Var(Int32, "x")), map["x" := EVERYTHING];
      && LetBounds(c, value, scope) == Interval(None, Some(SumOf(xs))) && !Small(LetBounds(c, value, scope))
      && !Catches(TouchLet("y", value), [], [], scope, WrapBox(n, NamedBox(n)))
  {
    var sum := SumOf(xs);
    var value, scope := Bin(Min, sum, Var(Int32, "x")), map["x" := EVERYTHING];
    SumOfMeans(c.o, c.depth, xs, scope);
    assert BoundsOf(c.o, c.depth, Var(Int32, "x"), scope, false) == EVERYTHING;
    assert Ask(c, value, scope) == ExtremeRule(value, Point(sum), EVERYTHING);
    assert Ask(c, value, scope) == Interval(None, Some(sum));
    assert SafeAsk(c, value, scope);
    var w := World(scope, map[], map[]);
    LargeMinimumReady(c, xs, value, w);
    LargeMinimumApart(c, xs, value, scope);
    NamedLetRightIff(c, "y", value, n, w);
  }

  lemma {:induction false} OneName(y: string)
    ensures StmtNames(Touch([Var(Int32, y)])) == {y} == NamesAll([Var(Int32, y)])
  {
    var es := [Var(Int32, y)];
    assert es[1..] == [] && Names(es[0]) == {y} && NamesAll(es[1..]) == {};
    assert NamesAll(es) == Names(es[0]) + NamesAll(es[1..]);
  }

  lemma {:induction false} LargeMinimumNames(xs: seq<string>, value: Expr)
    requires xs != [] && value == Bin(Min, SumOf(xs), Var(Int32, "x"))
    ensures StmtNames(TouchLet("y", value)) == {"y", "x"} + Names(SumOf(xs))
  {
    OneName("y");
    assert Names(value) == Names(SumOf(xs)) + {"x"};
    assert StmtNames(TouchLet("y", value)) == {"y"} + Names(value) + {"y"};
  }

  lemma {:induction false} LargeMinimumReady(c: Tools, xs: seq<string>, value: Expr, w: World)
    requires xs != [] && value == Bin(Min, SumOf(xs), Var(Int32, "x"))
      && w == World(map["x" := EVERYTHING], map[], map[])
    requires forall k :: 0 <= k < |xs| ==> xs[k] != "x"
    ensures Ready(TouchLet("y", value), [], w)
  {
    SumOfMeans(c.o, c.depth, xs, w.scope);
    assert TypeOf(SumOf(xs)) == TypeOf(Var(Int32, "x")) == Int32;
    assert Fine(value, w.env) && InScope(value, map[], w.scope, w.env, w.out);
    var s := TouchLet("y", value);
    assert StmtFine(s.body, w.env["y" := Eval(value, w.env)]);
    assert StmtIn(s.body, map["y" := Int32], w);
  }

  lemma {:induction false} LargeMinimumApart(c: Tools, xs: seq<string>, value: Expr, scope: Scope)
    requires xs != [] && value == Bin(Min, SumOf(xs), Var(Int32, "x")) && scope == map["x" := EVERYTHING]
    requires forall k :: 0 <= k < |xs| ==> xs[k] != "x" && xs[k] != NEG_INF && xs[k] != POS_INF
    ensures InfinitiesUnused(TouchLet("y", value), [], scope)
  {
    SumOfMeans(c.o, c.depth, xs, scope);
    LargeMinimumNames(xs, value);
    assert ScopeNames(scope) == {};
  }

  // ---- dependent lets ----

  /** The pair of names chosen for a let that is narrowed along. */
  predicate NamesNarrowed(c: Tools, n: Naming2, i: Interval, j: Interval, body: Stmt, book: Book, scope: Scope) {
    && NamesOk(n) && Unused2(n, body, [], book, scope)
    && n.minValue == MetLow(c.o, i, j) && n.maxValue == MetHigh(c.o, i, j)
  }

  /** The bounds of a current dependent let are right exactly when all four ends are finite. */
  lemma {:induction false} NarrowedLetRightIff(c: Tools, y: string, n: Naming2, book: Book, w: World)
    requires OracleOk(c.o) && CurrentLet(book, y) && y in w.scope && TypeOf(DefOf(book, y).value) == Int32
    requires SafeAsk(c, DefOf(book, y).value, w.scope)
    requires NamesNarrowed(c, n, LetBounds(c, DefOf(book, y).value, w.scope), w.scope[y], Touch([Var(Int32, y)]),
                           book, w.scope)
    requires Ready(Touch([Var(Int32, y)]), book, w) && InfinitiesUnused(Touch([Var(Int32, y)]), book, w.scope)
    ensures Catches(Touch([Var(Int32, y)]), [], book, w.scope, WrapBox(n, NamedBox(n)))
      <==> IsBounded(LetBounds(c, DefOf(book, y).value, w.scope)) && IsBounded(w.scope[y])
  {
    var s, l := Touch([Var(Int32, y)]), DefOf(book, y);
    if IsBounded(LetBounds(c, l.value, w.scope)) && IsBounded(w.scope[y]) {
      NamedTouchCatches(c.o, c.depth, n, y, book, w.scope);
      TrimLetCatches(c.o, c.depth, s, l, n, [], book, w.scope, NamedBox(n));
    } else {
      assert Touched(s, w.env, [Lookup(w.env, y)]);
      InfinityEscapes(s, n, book, w, Lookup(w.env, y));
    }
  }

  /** for z in [0, 10): let y = min(z, u) in if z < 5: touch(y), with nothing known of u. */
  lemma {:induction false} InfiniteDependentEscapes(c: Tools, n: Naming2)
    requires OracleOk(c.o)
    requires var y, book, scope := Var(Int32, "y"), MinBook(), MinScope();
      NamesNarrowed(c, n, LetBounds(c, MinLet(), scope), scope["y"], Touch([y]), book, scope)
    ensures Dependents(MinBook(), "z", 0) == ["y"]
    ensures !Catches(Touch([Var(Int32, "y")]), [], MinBook(), MinScope(), WrapBox(n, NamedBox(n)))
  {
    MinDependents();
    var s, w := Touch([Var(Int32, "y")]), World(MinScope(), map[], map[]);
    MinReady(w);
    assert CurrentLet(MinBook(), "y") && DefOf(MinBook(), "y") == LetDef("y", MinLet());
    MinBounds(c);
    assert SafeAsk(c, MinLet(), MinScope());
    NarrowedLetRightIff(c, "y", n, MinBook(), w);
  }

  function MinLet(): Expr { Bin(Min, Var(Int32, "z"), Var(Int32, "u")) }

  function MinBook(): Book { [LoopB("z"), LetB("y", MinLet())] }

  /** The scope once z < 5 has narrowed the loop variable. */
  function MinScope(): Scope {
    map["z" := Interval(Some(Const(Int32, 0)), Some(Const(Int32, 4))), "u" := EVERYTHING,
        "y" := Interval(None, Some(Const(Int32, 9)))]
  }

  lemma {:induction false} MinDependents()
    ensures Dependents(MinBook(), "z", 0) == ["y"] && Latest(MinBook(), "y") == 1 && Latest(MinBook(), "z") == 0
    ensures Latest(MinBook(), "u") == -1
  {
    var book := MinBook();
    assert book[..1] == [LoopB("z")] && book[..0] == [];
    assert Latest(book[..1], "z") == 0 && Latest(book, "z") == 0 && Latest(book, "y") == 1;
    assert DependsOn(book, 1, "z") && !DependsOn(book, 0, "z");
    assert Dependents(book, "z", 2) == [];
    assert !DependsOn(book, 0, "y") && !DependsOn(book, 1, "y");
    assert Dependents(book, "y", 2) == [] && Dependents(book, "y", 1) == [] && Dependents(book, "y", 0) == [];
  }

  lemma {:induction false} MinBounds(c: Tools)
    ensures Ask(c, MinLet(), MinScope()) == Interval(None, Some(Const(Int32, 4)))
  {
    var z, u := Var(Int32, "z"), Var(Int32, "u");
    assert BoundsOf(c.o, c.depth, z, MinScope(), false) == MinScope()["z"];
    assert BoundsOf(c.o, c.depth, u, MinScope(), false) == EVERYTHING;
    assert Ask(c, MinLet(), MinScope()) == ExtremeRule(MinLet(), MinScope()["z"], EVERYTHING);
  }

  lemma {:induction false} MinNames()
    ensures BookNames(MinBook()) == {"y", "z", "u"} && ScopeNames(MinScope()) == {}
      && NamesAll([Var(Int32, "y")]) == {"y"}
  {
    var book := MinBook();
    assert book[1..] == [LetB("y", MinLet())] && book[1..][1..] == [];
    assert BinderNames(book[1]) == {"y", "z", "u"} && BinderNames(book[0]) == {"z"};
    assert BookNames(book[1..]) == {"y", "z", "u"} + {};
    assert forall y :: y in MinScope() ==> IntervalNames(MinScope()[y]) == {};
    OneName("y");
  }

  lemma {:induction false} MinHolds(w: World)
    requires w == World(MinScope(), map[], map[])
    ensures LetHolds(LetDef("y", MinLet()), w)
  {
    assert Eval(Var(Int32, "z"), w.env) == 0 && Eval(Var(Int32, "u"), w.env) == 0;
  }

  lemma {:induction false} MinReady(w: World)
    requires w == World(MinScope(), map[], map[])
    ensures Ready(Touch([Var(Int32, "y")]), MinBook(), w)
      && InfinitiesUnused(Touch([Var(Int32, "y")]), MinBook(), w.scope)
  {
    var book := MinBook();
    MinDependents();
    MinNames();
    MinHolds(w);
    forall y | CurrentLet(book, y) ensures LetHolds(DefOf(book, y), w) {
      assert Latest(book, y) == 1;
      assert DefOf(book, y) == LetDef("y", MinLet());
    }
  }

  // ---- lets that are no longer current ----

  const SUM := Bin(Add, Var(Int32, "x"), Var(Int32, "z"))

  /** for z: let x = a in let y = x + z in let x = b in ... */
  function StaleBook(a: int, b: int): Book {
    [LoopB("z"), LetB("x", Const(Int32, a)), LetB("y", SUM), LetB("x", Const(Int32, b))]
  }

  function Range(l: int, h: int): Interval { Interval(Some(Const(Int32, l)), Some(Const(Int32, h))) }

  /** The scope there, with z of range `outer` narrowed to `inner` by an if. */
  function StaleScope(a: int, b: int, inner: (int, int), outer: (int, int)): Scope {
    map["z" := Range(inner.0, inner.1), "x" := Point(Const(Int32, b)), "y" := Range(a + outer.0, a + outer.1)]
  }

  /** The environment a run has there. */
  function StaleRun(a: int, b: int, z: int): Env {
    var e1: Env := map["z" := z];
    var e2 := e1["x" := a];
    var e3 := e2["y" := Eval(SUM, e2)];
    e3["x" := b]
  }

  lemma {:induction false} StaleValue(a: int, b: int, z: int)
    ensures Lookup(StaleRun(a, b, z), "y") == a + z
  {
    var e: Env := map["z" := z]["x" := a];
    assert Eval(Var(Int32, "x"), e) == a && Eval(Var(Int32, "z"), e) == z;
  }

  lemma {:induction false} StaleLatest(a: int, b: int)
    ensures var book := StaleBook(a, b);
      && Latest(book, "z") == 0 && Latest(book, "x") == 3 && Latest(book, "y") == 2
      && Latest(book[..2], "z") == 0 && Latest(book[..1], "z") == 0
  {
    var book := StaleBook(a, b);
    assert book[..3] == [LoopB("z"), LetB("x", Const(Int32, a)), LetB("y", SUM)];
    assert book[..3][..2] == book[..2] == [LoopB("z"), LetB("x", Const(Int32, a))];
    assert book[..2][..1] == book[..1] == [LoopB("z")];
    assert Latest(book[..1], "z") == 0;
    assert Latest(book[..2], "z") == 0;
    assert Latest(book[..3], "z") == 0;
  }

  /** The let of y is still narrowed with z, though it is no longer current. */
  lemma {:induction false} StaleDependents(a: int, b: int)
    ensures Dependents(StaleBook(a, b), "z", 0) == ["y"] && !CurrentLet(StaleBook(a, b), "y")
    ensures LatestLet(StaleBook(a, b), "y") == Some(SUM)
  {
    var book := StaleBook(a, b);
    StaleLatest(a, b);
    CurrentIsLatestLet(book, "y");
    assert "x" in Names(SUM);
    assert Reads(book, 2, "z", 0) && !TakenOut(book, 2, "z");
    assert !DependsOn(book, 0, "z") && !DependsOn(book, 1, "z") && !DependsOn(book, 3, "z");
    assert forall k: nat :: k < 4 ==> !DependsOn(book, k, "y");
    assert Dependents(book, "y", 4) == [] && Dependents(book, "y", 3) == [] && Dependents(book, "y", 2) == [];
    assert Dependents(book, "y", 1) == [] && Dependents(book, "y", 0) == [];
    assert Dependents(book, "z", 4) == [] && Dependents(book, "z", 3) == [];
    assert Dependents(book, "z", 2) == ["y"];
  }

  /** The bounds found again for y are those of b + z. */
  lemma {:induction false} StaleBounds(c: Tools, a: int, b: int, inner: (int, int), outer: (int, int), out: Env)
    requires OracleOk(c.o)
    ensures var i := LetBounds(c, SUM, StaleScope(a, b, inner, outer));
      IsBounded(i) && End(i.min.value, Int32, out) && End(i.max.value, Int32, out)
      && Eval(i.min.value, out) == b + inner.0 && Eval(i.max.value, out) == b + inner.1
  {
    var scope := StaleScope(a, b, inner, outer);
    var x, z := Point(Const(Int32, b)), Range(inner.0, inner.1);
    assert BoundsOf(c.o, c.depth, Var(Int32, "x"), scope, false) == x
      && BoundsOf(c.o, c.depth, Var(Int32, "z"), scope, false) == z;
    var i := AddRule(c.o, SUM, x, z);
    assert Ask(c, SUM, scope) == i;
    BinEnd(Add, x.min.value, z.min.value, Int32, out);
    BinEnd(Add, x.max.value, z.max.value, Int32, out);
    assert SimplifyOk(c.o, i.min.value, out) && SimplifyOk(c.o, i.max.value, out);
  }

  /** The let narrowed along is right exactly when the name bound again kept its value. */
  lemma {:induction false} StaleLetRightIff(c: Tools, a: int, b: int, inner: (int, int), outer: (int, int),
                                            n: Naming2, out: Env)
    requires OracleOk(c.o) && outer.0 <= inner.0 <= inner.1 <= outer.1 && NamesOk(n)
    requires var scope := StaleScope(a, b, inner, outer);
      && n.minValue == MetLow(c.o, LetBounds(c, SUM, scope), scope["y"])
      && n.maxValue == MetHigh(c.o, LetBounds(c, SUM, scope), scope["y"])
    ensures (forall z {:trigger StaleRun(a, b, z)} :: inner.0 <= z <= inner.1 ==>
               Covers(WrapBox(n, NamedBox(n)), [Lookup(StaleRun(a, b, z), "y")], out)) <==> a == b
  {
    var scope := StaleScope(a, b, inner, outer);
    var i, j := LetBounds(c, SUM, scope), scope["y"];
    StaleBounds(c, a, b, inner, outer, out);
    BinMeans(Max, i.min.value, j.min.value, Int32, out);
    BinMeans(Min, i.max.value, j.max.value, Int32, out);
    assert SimplifyOk(c.o, Bin(Max, i.min.value, j.min.value), out)
      && SimplifyOk(c.o, Bin(Min, i.max.value, j.max.value), out);
    forall z ensures Covers(WrapBox(n, NamedBox(n)), [Lookup(StaleRun(a, b, z), "y")], out) <==>
        MaxInt(b + inner.0, a + outer.0) <= a + z <= MinInt(b + inner.1, a + outer.1)
    {
      StaleValue(a, b, z);
      NamedBoxCovers(n, a + z, out);
    }
    assert StaleRun(a, b, inner.0) == StaleRun(a, b, inner.0) && StaleRun(a, b, inner.1) == StaleRun(a, b, inner.1);
  }
}
