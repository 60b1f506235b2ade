/**
 * A class of statements on which the region analysis is always right: int32 coordinates,
 * bounds and lets in the wide class, conditions over comparisons of them, finite scopes, and
 * binders that do not reuse a name read around them.
 */
module PlainRegions {
  import opened Wrappers
  import opened Ir
  import opened Intervals
  import opened BoundsArith
  import opened BoundsCast
  import opened Bounds
  import opened WideClass
  import opened Boxes
  import opened RegionIr
  import opened Regions
  import opened RegionSteps
  import opened RegionSafe

  predicate PlainStmt(s: Stmt) {
    match s
    case Skip => true
    case Touch(args) => forall k :: 0 <= k < |args| ==> IntExpr(args[k])
    case Block(a, b) => PlainStmt(a) && PlainStmt(b)
    case For(_, mn, ext, b) => IntExpr(mn) && IntExpr(ext) && PlainStmt(b)
    case LetStmt(_, v, b) => IntExpr(v) && PlainStmt(b)
    case If(c, t, f) => WideBool(c) && PlainStmt(t) && PlainStmt(f)
  }

  /** No binder in the statement reuses a name of `ns`, nor one its own lets read. */
  predicate Apart(s: Stmt, ns: set<string>) {
    match s
    case Skip => true
    case Touch(_) => true
    case Block(a, b) => Apart(a, ns) && Apart(b, ns)
    case For(x, _, _, b) => x !in ns && Apart(b, ns + {x})
    case LetStmt(x, v, b) => x !in ns && x !in Names(v) && Apart(b, ns + {x} + Names(v))
    case If(_, t, f) => Apart(t, ns) && Apart(f, ns)
  }

  /** The simplifier and the solver stay inside the class. */
  ghost predicate ToolsPlain(c: Tools) {
    && (forall e: Expr :: IsWide(TypeOf(e)) && HonestConst(e) ==> HonestConst(c.o.simplify(e)))
    && (forall e: Expr :: WideBool(e) ==> WideBool(c.o.simplify(e)))
    && (forall e: Expr, x: string :: WideBool(e) && SolvedFor(c.solve(e, x), x) ==> WideExpr(c.solve(e, x).value.cb))
  }

  predicate FiniteInterval(i: Interval) { IsBounded(i) && WideInterval(i, Int32) }

  predicate FiniteScope(scope: Scope) { forall x :: x in scope ==> FiniteInterval(scope[x]) }

  /** No binder rebinds a name that an earlier one binds or reads, or that it reads itself. */
  predicate FreshAt(book: Book, m: nat) {
    m < |book| ==>
      && (book[m].LetB? ==> book[m].x !in Names(book[m].value))
      && forall k :: 0 <= k < m ==> book[m].x !in BinderNames(book[k])
  }

  ghost predicate FreshBook(book: Book) { forall m: nat {:trigger FreshAt(book, m)} :: FreshAt(book, m) }

  lemma {:induction false} FreshBookSnoc(book: Book, b: Binder)
    requires FreshBook(book) && b.x !in BookNames(book) && (b.LetB? ==> b.x !in Names(b.value))
    ensures FreshBook(book + [b])
  {
    var longer := book + [b];
    forall m: nat ensures FreshAt(longer, m) {
      assert FreshAt(book, m);
      if m == |book| {
        forall k | 0 <= k < m ensures longer[m].x !in BinderNames(longer[k]) { BookNamesAt(book, k); }
      }
    }
  }

  /** Every let in a fresh book is current. */
  lemma {:induction false} FreshIsCurrent(book: Book, k: nat)
    requires FreshBook(book) && k < |book| && book[k].LetB?
    ensures CurrentLet(book, book[k].x) && DefOf(book, book[k].x).value == book[k].value
  {
    LatestAtLeast(book, k);
    var y := book[k].x;
    var m := Latest(book, y);
    assert FreshAt(book, m);
    assert y in BinderNames(book[k]);
    forall z | z in Names(book[k].value) ensures Latest(book, z) < k {
      var j := Latest(book, z);
      assert z in BinderNames(book[k]) && (j >= 0 ==> FreshAt(book, j));
    }
  }

  predicate LetAt(book: Book, y: string) { exists k :: 0 <= k < |book| && book[k].LetB? && book[k].x == y }

  lemma {:induction false} DependentsAreLets(book: Book, y: string, k: nat)
    ensures forall z :: z in Dependents(book, y, k) ==> LetAt(book, z)
    decreases |book| - Latest(book, y), |book| - k
  {
    if k < |book| {
      DependentsAreLets(book, y, k + 1);
      if DependsOn(book, k, y) {
        LatestAtLeast(book, k);
        DependentsAreLets(book, book[k].x, 0);
      }
    }
  }

  /** The binders of a plain statement so far: fresh, in scope, their lets in the class. */
  ghost predicate PlainBook(book: Book, scope: Scope) {
    && FreshBook(book)
    && (forall k :: 0 <= k < |book| ==> book[k].x in scope)
    && (forall k :: 0 <= k < |book| && book[k].LetB? ==> IntExpr(book[k].value))
  }

  lemma {:induction false} PlainBookSnoc(book: Book, scope: Scope, b: Binder, i: Interval)
    requires PlainBook(book, scope) && b.x !in BookNames(book)
    requires b.LetB? ==> b.x !in Names(b.value) && IntExpr(b.value)
    ensures PlainBook(book + [b], scope[b.x := i]) && BookNames(book + [b]) == BookNames(book) + BinderNames(b)
  {
    FreshBookSnoc(book, b);
    BookNamesSnoc(book, b);
  }

  lemma {:induction false} AskPlain(c: Tools, e: Expr, scope: Scope)
    requires IntExpr(e) && FiniteScope(scope)
    ensures SafeAsk(c, e, scope) && FiniteInterval(Ask(c, e, scope))
  {
    forall out: Env ensures Safe(c.o, c.depth, e, scope, false, out) {
      WideIsSafe(c.o, c.depth, e, scope, false, true, out);
    }
    WideIsSafe(c.o, c.depth, e, scope, false, true, map[]);
  }

  lemma {:induction false} LetBoundsPlain(c: Tools, e: Expr, scope: Scope)
    requires ToolsOk(c) && ToolsPlain(c) && IntExpr(e) && FiniteScope(scope)
    ensures FiniteInterval(LetBounds(c, e, scope))
  {
    AskPlain(c, e, scope);
    var i := Ask(c, e, scope);
    assert SimplifyAt(c.o, i.min.value, map[]) && SimplifyAt(c.o, i.max.value, map[]);
  }

  ghost predicate FiniteRest(rest: seq<Restrict>, scope: Scope) {
    forall r :: r in rest ==> r.x in scope && FiniteInterval(r.i)
  }

  lemma {:induction false} RestrictsPlain(c: Tools, cond: Expr, vars: seq<string>, scope: Scope)
    requires ToolsPlain(c) && WideBool(cond) && FiniteScope(scope)
    ensures SafeRestricts(c, cond, vars, scope) && FiniteRest(RestrictsOf(c, cond, vars, scope), scope)
  {
    forall x | x in vars && Restricts(c, cond, x, scope) ensures SafeAsk(c, c.solve(cond, x).value.cb, scope) {
      AskPlain(c, c.solve(cond, x).value.cb, scope);
    }
    RestrictsFinite(c, cond, vars, scope);
  }

  lemma {:induction false} RestrictsFinite(c: Tools, cond: Expr, vars: seq<string>, scope: Scope)
    requires ToolsPlain(c) && WideBool(cond) && FiniteScope(scope)
    ensures FiniteRest(RestrictsOf(c, cond, vars, scope), scope)
  {
    if vars != [] {
      var n := |vars| - 1;
      RestrictsFinite(c, cond, vars[..n], scope);
      if Restricts(c, cond, vars[n], scope) {
        AskPlain(c, c.solve(cond, vars[n]).value.cb, scope);
        assert FiniteInterval(scope[vars[n]]);
      }
    }
  }

  /** What the lemmas below need of the place where a statement stands. */
  ghost predicate PlainPlace(c: Tools, s: Stmt, scope: Scope, book: Book) {
    ToolsOk(c) && ToolsPlain(c) && PlainStmt(s) && Apart(s, BookNames(book)) && FiniteScope(scope)
      && PlainBook(book, scope)
  }

  /** Every plain statement is safe, so the analysis of it succeeds and covers every touch. */
  lemma {:induction false} PlainIsSafe(c: Tools, s: Stmt, scope: Scope, book: Book)
    requires PlainPlace(c, s, scope, book)
    ensures SafeStmt(c, s, scope, book)
    decreases s, 0, 1
  {
    match s
    case Skip =>
    case Touch(_) => PlainTouchIsSafe(c, s, scope, book);
    case Block(a, b) => PlainIsSafe(c, a, scope, book); PlainIsSafe(c, b, scope, book);
    case For(_, _, _, _) => PlainForIsSafe(c, s, scope, book);
    case LetStmt(_, _, _) => PlainLetIsSafe(c, s, scope, book);
    case If(_, _, _) => PlainIfIsSafe(c, s, scope, book);
  }

  lemma {:induction false} PlainTouchIsSafe(c: Tools, s: Stmt, scope: Scope, book: Book)
    requires s.Touch? && PlainStmt(s) && FiniteScope(scope)
    ensures SafeStmt(c, s, scope, book)
  {
    forall k | 0 <= k < |s.args| ensures SafeAsk(c, s.args[k], scope) && IntEnds(Ask(c, s.args[k], scope)) {
      AskPlain(c, s.args[k], scope);
    }
  }

  /** A finite interval for the new name keeps the place plain. */
  lemma {:induction false} PlainPlaceUnder(c: Tools, s: Stmt, scope: Scope, book: Book, b: Binder, i: Interval)
    requires ToolsOk(c) && ToolsPlain(c) && PlainStmt(s) && FiniteScope(scope) && PlainBook(book, scope)
      && FiniteInterval(i)
    requires b.x !in BookNames(book) && (b.LetB? ==> b.x !in Names(b.value) && IntExpr(b.value))
    requires Apart(s, BookNames(book) + BinderNames(b))
    ensures PlainPlace(c, s, scope[b.x := i], book + [b])
  {
    PlainBookSnoc(book, scope, b, i);
  }

  lemma {:induction false} PlainForIsSafe(c: Tools, s: Stmt, scope: Scope, book: Book)
    requires s.For? && PlainPlace(c, s, scope, book)
    ensures SafeStmt(c, s, scope, book)
    decreases s, 0, 0
  {
    AskPlain(c, s.min, scope);
    AskPlain(c, s.extent, scope);
    var b, i := LoopB(s.x), LoopInterval(Ask(c, s.min, scope), Ask(c, s.extent, scope));
    assert BookNames(book) + BinderNames(b) == BookNames(book) + {s.x};
    assert TypeOf(Bin(Add, Ask(c, s.extent, scope).max.value, Ask(c, s.min, scope).max.value)) == Int32;
    PlainPlaceUnder(c, s.body, scope, book, b, i);
    PlainIsSafe(c, s.body, scope[s.x := i], book + [b]);
  }

  lemma {:induction false} PlainLetIsSafe(c: Tools, s: Stmt, scope: Scope, book: Book)
    requires s.LetStmt? && PlainPlace(c, s, scope, book)
    ensures SafeStmt(c, s, scope, book)
    decreases s, 0, 0
  {
    var b, i := LetB(s.x, s.value), LetBounds(c, s.value, scope);
    AskPlain(c, s.value, scope);
    LetBoundsPlain(c, s.value, scope);
    assert BookNames(book) + BinderNames(b) == BookNames(book) + {s.x} + Names(s.value);
    if Small(i) {
      PlainPlaceUnder(c, s.body, scope, book, b, i);
      PlainIsSafe(c, s.body, scope[s.x := i], book + [b]);
    } else {
      forall lo, hi | FreshPair(lo, hi, s, [], scope, book)
        ensures SafeStmt(c, s.body, scope[s.x := PairInterval(lo, hi, TypeOf(s.value))], book + [b])
      {
        PlainPlaceUnder(c, s.body, scope, book, b, PairInterval(lo, hi, Int32));
        PlainIsSafe(c, s.body, scope[s.x := PairInterval(lo, hi, Int32)], book + [b]);
      }
    }
  }

  lemma {:induction false} PlainIfIsSafe(c: Tools, s: Stmt, scope: Scope, book: Book)
    requires s.If? && PlainPlace(c, s, scope, book)
    ensures SafeStmt(c, s, scope, book)
    decreases s, 0, 0
  {
    if Names(s.cond) !! scope.Keys {
      PlainIsSafe(c, s.onTrue, scope, book);
      PlainIsSafe(c, s.onFalse, scope, book);
    } else {
      var c1 := c.o.simplify(s.cond);
      var c2 := c.o.simplify(Not(c1));
      RestrictsPlain(c, c1, Occurrences(s.cond), scope);
      RestrictsPlain(c, c2, Occurrences(s.cond), scope);
      PlainNarrowIsSafe(c, RestrictsOf(c, c1, Occurrences(s.cond), scope), s.onTrue, scope, book);
      PlainNarrowIsSafe(c, RestrictsOf(c, c2, Occurrences(s.cond), scope), s.onFalse, scope, book);
    }
  }

  lemma {:induction false} PlainNarrowIsSafe(c: Tools, rest: seq<Restrict>, body: Stmt, scope: Scope, book: Book)
    requires PlainPlace(c, body, scope, book)
    requires FiniteRest(rest, scope)
    ensures SafeNarrow(c, rest, body, scope, book)
    decreases body, 1 + |rest|, 0
  {
    if rest == [] {
      PlainIsSafe(c, body, scope, book);
    } else {
      assert rest[0] in rest && forall r :: r in rest[1..] ==> r in rest;
      DependentsAreLets(book, rest[0].x, 0);
      PlainPlaceNarrowed(c, body, scope, book, rest[0].x, rest[0].i);
      PlainNarrowLetsIsSafe(c, Dependents(book, rest[0].x, 0), rest[1..], body, scope[rest[0].x := rest[0].i], book);
    }
  }

  lemma {:induction false} PlainPlaceNarrowed(c: Tools, s: Stmt, scope: Scope, book: Book, x: string, i: Interval)
    requires PlainPlace(c, s, scope, book) && FiniteInterval(i)
    ensures PlainPlace(c, s, scope[x := i], book)
  {
  }

  /** The current definition of a let in a plain place, and its bounds. */
  lemma {:induction false} PlainLetAt(c: Tools, s: Stmt, scope: Scope, book: Book, y: string)
    requires PlainPlace(c, s, scope, book) && LetAt(book, y)
    ensures CurrentLet(book, y) && y in scope && IsBounded(scope[y]) && TypeOf(DefOf(book, y).value) == Int32
    ensures SafeAsk(c, DefOf(book, y).value, scope) && IsBounded(LetBounds(c, DefOf(book, y).value, scope))
  {
    var k: nat :| k < |book| && book[k].LetB? && book[k].x == y;
    FreshIsCurrent(book, k);
    AskPlain(c, book[k].value, scope);
    LetBoundsPlain(c, book[k].value, scope);
    assert FiniteInterval(scope[book[k].x]);
  }

  /** What the rest of the narrowing needs, for any new names of one let's bounds. */
  ghost predicate RestSafe(c: Tools, ys: seq<string>, rest: seq<Restrict>, body: Stmt, scope: Scope, book: Book,
                           t: Type)
    requires ys != []
  {
    forall lo, hi {:trigger PairInterval(lo, hi, t)} :: FreshPair(lo, hi, body, rest, scope, book) ==>
      SafeNarrowLets(c, ys[1..], rest, body, scope[ys[0] := PairInterval(lo, hi, t)], book)
  }

  lemma {:induction false} NarrowLetsStep(c: Tools, ys: seq<string>, rest: seq<Restrict>, body: Stmt, scope: Scope,
                                          book: Book)
    requires ys != [] && CurrentLet(book, ys[0]) && ys[0] in scope && IsBounded(scope[ys[0]])
    requires var value := DefOf(book, ys[0]).value;
      && SafeAsk(c, value, scope) && IsBounded(LetBounds(c, value, scope))
      && RestSafe(c, ys, rest, body, scope, book, TypeOf(value))
    ensures SafeNarrowLets(c, ys, rest, body, scope, book)
  {
  }

  lemma {:induction false} PlainNarrowLetsIsSafe(c: Tools, ys: seq<string>, rest: seq<Restrict>, body: Stmt,
                                                 scope: Scope, book: Book)
    requires PlainPlace(c, body, scope, book) && FiniteRest(rest, scope) && forall y :: y in ys ==> LetAt(book, y)
    ensures SafeNarrowLets(c, ys, rest, body, scope, book)
    decreases body, 1 + |rest|, 1 + 2 * |ys|
  {
    if ys == [] {
      PlainNarrowIsSafe(c, rest, body, scope, book);
    } else {
      PlainLetAt(c, body, scope, book, ys[0]);
      PlainNarrowRest(c, ys, rest, body, scope, book);
      NarrowLetsStep(c, ys, rest, body, scope, book);
    }
  }

  lemma {:induction false} PlainNarrowRest(c: Tools, ys: seq<string>, rest: seq<Restrict>, body: Stmt, scope: Scope,
                                           book: Book)
    requires PlainPlace(c, body, scope, book) && FiniteRest(rest, scope) && forall y :: y in ys ==> LetAt(book, y)
    requires ys != []
    ensures RestSafe(c, ys, rest, body, scope, book, Int32)
    decreases body, 1 + |rest|, 2 * |ys|
  {
    forall lo, hi | FreshPair(lo, hi, body, rest, scope, book)
      ensures SafeNarrowLets(c, ys[1..], rest, body, scope[ys[0] := PairInterval(lo, hi, Int32)], book)
    {
      PlainPlaceNarrowed(c, body, scope, book, ys[0], PairInterval(lo, hi, Int32));
      PlainNarrowLetsIsSafe(c, ys[1..], rest, body, scope[ys[0] := PairInterval(lo, hi, Int32)], book);
    }
  }

  /** A plain statement on its own. */
  lemma {:induction false} PlainStatementIsSafe(c: Tools, s: Stmt, scope: Scope)
    requires ToolsOk(c) && ToolsPlain(c) && PlainStmt(s) && Apart(s, {}) && FiniteScope(scope)
    ensures SafeStmt(c, s, scope, [])
  {
    PlainIsSafe(c, s, scope, []);
  }
}
