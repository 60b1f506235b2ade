/**
 * The region visitor: scope, binders in force and the box found so far are updated in place
 * while the statement is walked.
 */
module BoxesTouched {
  import opened Wrappers
  import opened Ir
  import opened Intervals
  import opened BoundsArith
  import opened BoundsCast
  import opened Bounds
  import opened BoundsVisitor
  import opened Boxes
  import opened RegionIr
  import opened Regions
  import opened RegionSteps
  import opened RegionSafe
  import opened RegionWalk
  import opened WideClass
  import RegionTight
  import BoundsAttained

  /** What a visit found: the box, and whether it had to give up. */
  datatype Found = Found(box: Box, failed: bool)

  /**
   * The outcome of analysing `s`: on a safe statement the analysis does not give up, nothing is lost and
   * every touch is covered.
   */
  ghost predicate Done(s: Stmt, rest: seq<Restrict>, book: Book, scope: Scope, safe: bool, before: Found, after: Found)
  {
    && UsedNames(after.box) <= UsedNames(before.box) + StmtNames(s)
    && (safe && IntBox(before.box) ==>
          && IntBox(after.box) && Keeps(before.box, after.box) && Catches(s, rest, book, scope, after.box)
          && (!before.failed ==> !after.failed))
  }

  // ---- bounds passed by name ----

  /** An infinite end is itself a variable of that name. */
  function EndOr(x: Option<Expr>, infinity: string): Expr { if x.Some? then x.value else Var(Int32, infinity) }

  function LowOf(i: Interval): Expr { EndOr(i.min, "neg_inf") }

  function HighOf(i: Interval): Expr { EndOr(i.max, "pos_inf") }

  /** The bounds of a narrowed let met with its old ones; a finite and an infinite end do not meet. */
  predicate Mixed(i: Interval, j: Interval) { i.min.Some? != j.min.Some? || i.max.Some? != j.max.Some? }

  function MetLow(o: Oracle, i: Interval, j: Interval): Expr {
    if i.min.Some? && j.min.Some? then o.simplify(Bin(Max, i.min.value, j.min.value)) else Var(Int32, "neg_inf")
  }

  function MetHigh(o: Oracle, i: Interval, j: Interval): Expr {
    if i.max.Some? && j.max.Some? then o.simplify(Bin(Min, i.max.value, j.max.value)) else Var(Int32, "pos_inf")
  }

  predicate Mentions(b: Box, n: string) { n in DimNames(b.dims) }

  /** The value that is analysed again: that of the innermost let of the name. */
  function NarrowedValue(book: Book, y: string): Expr {
    var def := LatestLet(book, y);
    if def.Some? then def.value else Var(Int32, y)
  }

  class Visitor {
    const c: Tools
    const rank: nat
    var scope: Scope
    var book: Book
    var box: Box
    var failed: bool

    ghost predicate Valid() reads this {
      ToolsOk(c) && Shaped(box, rank) && forall y :: IsBound(book, y) ==> y in scope
    }

    ghost function Now(): Found reads this { Found(box, failed) }

    constructor (c: Tools, rank: nat, scope: Scope)
      requires ToolsOk(c)
      ensures Valid() && !failed && box == EMPTY && book == [] && this.scope == scope && this.rank == rank
        && this.c == c
    {
      this.c, this.rank, this.scope := c, rank, scope;
      book, box, failed := [], EMPTY, false;
    }

    method BoundsIn(e: Expr) returns (i: Interval)
      ensures i == Ask(c, e, scope)
    {
      var visitor := new BoundsVisitor.Visitor(c.o, scope, false);
      visitor.Visit(e, c.depth);
      i := visitor.interval;
    }

    /** After visiting a safe statement the box covers every point it touches, and all it covered before. */
    method Visit(s: Stmt)
      requires Valid() && Ranked(s, rank)
      modifies this
      ensures Valid() && scope == old(scope) && book == old(book)
      ensures Done(s, [], book, scope, SafeStmt(c, s, scope, book), old(Now()), Now())
      ensures NoLets(s) && LoopsOnly(book) ==> box == Walk(c, s, scope, old(box), rank) && failed == old(failed)
      decreases s, 0, 2
    {
      match s {
        case Skip =>
        case Touch(_) => VisitTouch(s);
        case Block(a, b) =>
          Visit(a);
          ghost var mid := Now();
          Visit(b);
          BlockDone(c, s, book, scope, old(Now()), mid, Now());
        case For(_, _, _, _) => VisitFor(s);
        case LetStmt(_, _, _) => VisitLet(s);
        case If(cond, _, _) =>
          if Names(cond) !! scope.Keys { VisitParamIf(s); } else { VisitIf(s); }
      }
    }

    method VisitTouch(s: Stmt)
      requires Valid() && s.Touch? && Ranked(s, rank)
      modifies this
      ensures Valid() && scope == old(scope) && book == old(book)
      ensures Done(s, [], book, scope, SafeStmt(c, s, scope, book), old(Now()), Now())
      ensures NoLets(s) && LoopsOnly(book) ==> box == Walk(c, s, scope, old(box), rank) && failed == old(failed)
    {
      var dims, k := [], 0;
      while k < |s.args|
        invariant k == |dims| <= |s.args| && scope == old(scope) && book == old(book) && box == old(box)
          && failed == old(failed)
        invariant forall j :: 0 <= j < k ==> dims[j] == Ask(c, s.args[j], scope)
      {
        var i := BoundsIn(s.args[k]);
        dims := dims + [i];
        k := k + 1;
      }
      ghost var before := box;
      assert Box(dims, None) == TouchBox(c, s.args, scope);
      box := MergeBoxes(c.o, box, Box(dims, None));
      TouchDone(c, s, book, scope, Found(before, failed), Box(dims, None), failed);
    }

    method VisitFor(s: Stmt)
      requires Valid() && s.For? && Ranked(s, rank)
      modifies this
      ensures Valid() && scope == old(scope) && book == old(book)
      ensures Done(s, [], book, scope, SafeStmt(c, s, scope, book), old(Now()), Now())
      ensures NoLets(s) && LoopsOnly(book) ==> box == Walk(c, s, scope, old(box), rank) && failed == old(failed)
      decreases s, 0, 0
    {
      var mn := BoundsIn(s.min);
      var ext := BoundsIn(s.extent);
      var outer, outerBook := scope, book;
      Enter(LoopB(s.x), LoopInterval(mn, ext));
      Visit(s.body);
      scope, book := outer, outerBook;
      ForDone(c, s, book, scope, old(Now()), Now());
    }

    /** Push a binder and its interval. */
    method Enter(b: Binder, i: Interval)
      requires Valid()
      modifies this`scope, this`book
      ensures Valid() && scope == old(scope)[b.x := i] && book == old(book) + [b]
    {
      BoundAfter(book, b);
      scope, book := scope[b.x := i], book + [b];
    }

    method VisitLet(s: Stmt)
      requires Valid() && s.LetStmt? && Ranked(s, rank)
      modifies this
      ensures Valid() && scope == old(scope) && book == old(book)
      ensures Done(s, [], book, scope, SafeStmt(c, s, scope, book), old(Now()), Now())
      decreases s, 0, 1
    {
      var raw := BoundsIn(s.value);
      var i := Simplified(c.o, raw);
      if Small(i) {
        var outer, outerBook := scope, book;
        Enter(LetB(s.x, s.value), i);
        Visit(s.body);
        scope, book := outer, outerBook;
        SmallLetDone(c, s, book, scope, old(Now()), Now());
      } else {
        VisitNamedLet(s, i);
      }
    }

    /** Bounds too large to substitute are passed by name, and the box is wrapped in lets for them. */
    method VisitNamedLet(s: Stmt, i: Interval)
      requires Valid() && s.LetStmt? && Ranked(s, rank) && i == LetBounds(c, s.value, scope) && !Small(i)
      modifies this
      ensures Valid() && scope == old(scope) && book == old(book)
      ensures Done(s, [], book, scope, SafeStmt(c, s, scope, book), old(Now()), Now())
      decreases s, 0, 0
    {
      var outer, outerBook := scope, book;
      var n := ChooseNames(s, [], HighOf(i), LowOf(i));
      Enter(LetB(s.x, s.value), NamedInterval(n, TypeOf(s.value)));
      Visit(s.body);
      scope, book := outer, outerBook;
      ghost var inner := Now();
      box := WrapBox(n, box);
      NamedLetDone(c, s, n, book, scope, old(Now()), inner);
    }

    /** Two names used nowhere near, for the given bounds. */
    method ChooseNames(s: Stmt, rest: seq<Restrict>, maxValue: Expr, minValue: Expr) returns (n: Naming2)
      requires Valid()
      ensures n.maxValue == maxValue && n.minValue == minValue && FreshNaming(n, box, s, rest, scope, book)
    {
      var used := StmtNames(s) + RestNames(rest) + BookNames(book) + ScopeNames(scope) + BoxNames(box)
        + Names(maxValue);
      var maxName := c.pick(used);
      n := Naming2(maxName, maxValue, c.pick(used + {maxName}), minValue);
      assert c.pick(used + {maxName}) !in used + {maxName};
    }

    /** A condition over parameters only: fork the boxes and make each conditional. */
    method VisitParamIf(s: Stmt)
      requires Valid() && s.If? && Ranked(s, rank) && Names(s.cond) !! scope.Keys
      modifies this
      ensures Valid() && scope == old(scope) && book == old(book)
      ensures Done(s, [], book, scope, SafeStmt(c, s, scope, book), old(Now()), Now())
      ensures NoLets(s) && LoopsOnly(book) ==> box == Walk(c, s, scope, old(box), rank) && failed == old(failed)
      decreases s, 0, 0
    {
      var orig := box;
      VisitAlone(s.onTrue);
      ghost var first := Now();
      var t := box;
      VisitAlone(s.onFalse);
      ghost var second := Now();
      MergeBranches(s.cond, orig, t, box);
      ParamIfDone(c, s, book, scope, old(Now()), first, second);
    }

    /** Each branch's box under its condition, merged into what was there before. */
    method MergeBranches(cond: Expr, orig: Box, t: Box, f: Box)
      requires Valid() && Shaped(orig, rank) && Shaped(t, rank) && Shaped(f, rank)
      modifies this`box
      ensures Valid() && box == Forked(c.o, cond, orig, t, f)
    {
      var both := MergeBoxes(c.o, Under(t, cond), Under(f, Not(cond)));
      box := MergeBoxes(c.o, orig, both);
    }

    /** The box of one statement on its own. */
    method VisitAlone(s: Stmt)
      requires Valid() && Ranked(s, rank)
      modifies this
      ensures Valid() && scope == old(scope) && book == old(book)
      ensures Done(s, [], book, scope, SafeStmt(c, s, scope, book), Found(EMPTY, old(failed)), Now())
      ensures NoLets(s) && LoopsOnly(book) ==> box == Walk(c, s, scope, EMPTY, rank) && failed == old(failed)
      decreases s, 0, 3
    {
      box := EMPTY;
      ghost var start := Now();
      Visit(s);
    }

    /** A condition over scoped variables: narrow them for each branch. */
    method VisitIf(s: Stmt)
      requires Valid() && s.If? && Ranked(s, rank) && !(Names(s.cond) !! scope.Keys)
      modifies this
      ensures Valid() && scope == old(scope) && book == old(book)
      ensures Done(s, [], book, scope, SafeStmt(c, s, scope, book), old(Now()), Now())
      ensures NoLets(s) && LoopsOnly(book) ==> box == Walk(c, s, scope, old(box), rank) && failed == old(failed)
      decreases s, 0, 0
    {
      var c1 := c.o.simplify(s.cond);
      var r1 := Restrictions(c1, Occurrences(s.cond));
      Narrow(r1, s.onTrue);
      if s.onFalse.Skip? {
        IfThenDone(c, s, book, scope, old(Now()), Now());
        return;
      }
      ghost var mid := Now();
      var r2 := Restrictions(c.o.simplify(Not(c1)), Occurrences(s.cond));
      Narrow(r2, s.onFalse);
      IfDone(c, s, book, scope, old(Now()), mid, Now());
    }

    method Restrictions(cond: Expr, vars: seq<string>) returns (rs: seq<Restrict>)
      ensures rs == RestrictsOf(c, cond, vars, scope)
    {
      rs := [];
      var k := 0;
      while k < |vars|
        invariant k <= |vars| && rs == RestrictsOf(c, cond, vars[..k], scope)
      {
        var x := vars[k];
        if x in scope && SolvedFor(c.solve(cond, x), x) {
          var s := c.solve(cond, x).value;
          var bi := BoundsIn(s.cb);
          rs := rs + [Restrict(x, Trimmed(s.cop, scope[x], bi))];
        }
        assert vars[..k + 1][..k] == vars[..k];
        k := k + 1;
      }
      assert vars[..k] == vars;
    }

    /** Push each restricted variable and the lets that depend on it, visit the body, pop them all. */
    method Narrow(rest: seq<Restrict>, body: Stmt)
      requires Valid() && Ranked(body, rank)
      modifies this
      ensures Valid() && scope == old(scope) && book == old(book)
      ensures Done(body, rest, book, scope, SafeNarrow(c, rest, body, scope, book), old(Now()), Now())
      ensures NoLets(body) && LoopsOnly(book) ==>
        box == Walk(c, body, Restricted(scope, rest), old(box), rank) && failed == old(failed)
      decreases body, 1 + |rest|, 0
    {
      if rest == [] {
        Visit(body);
      } else {
        var r, outer := rest[0], scope;
        DependentsAreBound(book, r.x, 0);
        if LoopsOnly(book) { NoDependents(book, r.x, 0); }
        scope := scope[r.x := r.i];
        NarrowLets(Dependents(book, r.x, 0), rest[1..], body);
        scope := outer;
        NarrowDone(c, rest, body, book, scope, old(Now()), Now());
      }
    }

    /** The dependent lets in turn: new names for their bounds, the body, then lets around the box that define them. */
    method NarrowLets(ys: seq<string>, rest: seq<Restrict>, body: Stmt)
      requires Valid() && Ranked(body, rank) && forall y :: y in ys ==> IsBound(book, y)
      modifies this
      ensures Valid() && scope == old(scope) && book == old(book)
      ensures Done(body, rest, book, scope, SafeNarrowLets(c, ys, rest, body, scope, book), old(Now()), Now())
      ensures NoLets(body) && LoopsOnly(book) && ys == [] ==>
        box == Walk(c, body, Restricted(scope, rest), old(box), rank) && failed == old(failed)
      decreases body, 1 + |rest|, 1 + |ys|
    {
      if ys == [] {
        Narrow(rest, body);
        return;
      }
      var outer := scope;
      assert IsBound(book, ys[0]);
      var n, mixed := PushNarrowed(ys[0], rest, body);
      NarrowLets(ys[1..], rest, body);
      scope := outer;
      ghost var inner := Now();
      if mixed && (Mentions(box, n.maxName) || Mentions(box, n.minName)) { failed := true; }
      box := WrapBox(n, box);
      NarrowLetDone(c, ys, rest, body, n, book, scope, old(Now()), inner, Now());
    }

    /** New names for the bounds of one dependent let. */
    method PushNarrowed(y: string, rest: seq<Restrict>, body: Stmt) returns (n: Naming2, mixed: bool)
      requires Valid() && y in scope
      modifies this`scope
      ensures Valid() && FreshNaming(n, box, body, rest, old(scope), book)
      ensures scope == old(scope)[y := NamedInterval(n, TypeOf(NarrowedValue(book, y)))]
      ensures var i, j := LetBounds(c, NarrowedValue(book, y), old(scope)), old(scope)[y];
        n.minValue == MetLow(c.o, i, j) && n.maxValue == MetHigh(c.o, i, j) && mixed == Mixed(i, j)
    {
      var value := NarrowedValue(book, y);
      var raw := BoundsIn(value);
      var i, j := Simplified(c.o, raw), scope[y];
      n := ChooseNames(body, rest, MetHigh(c.o, i, j), MetLow(c.o, i, j));
      scope := scope[y := NamedInterval(n, TypeOf(value))];
      mixed := Mixed(i, j);
    }
  }

  /** Two usable names that occur nowhere near. */
  predicate FreshNaming(n: Naming2, box: Box, s: Stmt, rest: seq<Restrict>, scope: Scope, book: Book) {
    && NamesOk(n) && FreshPair(n.minName, n.maxName, s, rest, scope, book)
    && n.maxName !in BoxNames(box) && n.minName !in BoxNames(box)
  }

  lemma {:induction false} BoundAfter(book: Book, b: Binder)
    ensures forall y :: IsBound(book + [b], y) ==> y == b.x || IsBound(book, y)
  {
    forall y | IsBound(book + [b], y) ensures y == b.x || IsBound(book, y) {
      var k :| 0 <= k < |book + [b]| && (book + [b])[k].x == y;
      if k < |book| { assert book[k].x == y; }
    }
  }

  // ---- each visit, from what it visited ----

  lemma {:induction false} TouchDone(c: Tools, s: Stmt, book: Book, scope: Scope, before: Found, b: Box, failed: bool)
    requires ToolsOk(c) && s.Touch? && b.used.None? && |b.dims| == |s.args| && SameShape(before.box, b)
      && before.failed == failed
    requires forall k :: 0 <= k < |s.args| ==> b.dims[k] == Ask(c, s.args[k], scope)
    ensures Done(s, [], book, scope, SafeStmt(c, s, scope, book), before, Found(Merged(c.o, before.box, b), failed))
  {
    MergeUsedNames(c.o, before.box, b);
    if SafeStmt(c, s, scope, book) && IntBox(before.box) {
      MergeKeeps(c.o, before.box, b);
      TouchCatches(c.o, c.depth, s, book, scope, b);
      CatchesLater(s, [], book, scope, b, Merged(c.o, before.box, b));
    }
  }

  lemma {:induction false} BlockDone(c: Tools, s: Stmt, book: Book, scope: Scope, before: Found, mid: Found,
                                     after: Found)
    requires s.Block?
    requires Done(s.first, [], book, scope, SafeStmt(c, s.first, scope, book), before, mid)
    requires Done(s.rest, [], book, scope, SafeStmt(c, s.rest, scope, book), mid, after)
    ensures Done(s, [], book, scope, SafeStmt(c, s, scope, book), before, after)
  {
    if SafeStmt(c, s, scope, book) && IntBox(before.box) {
      KeepsTrans(before.box, mid.box, after.box);
      CatchesLater(s.first, [], book, scope, mid.box, after.box);
      BlockCatches(s, book, scope, after.box);
    }
  }

  lemma {:induction false} ForDone(c: Tools, s: Stmt, book: Book, scope: Scope, before: Found, after: Found)
    requires ToolsOk(c) && s.For?
    requires var inner := scope[s.x := LoopInterval(Ask(c, s.min, scope), Ask(c, s.extent, scope))];
      Done(s.body, [], book + [LoopB(s.x)], inner, SafeStmt(c, s.body, inner, book + [LoopB(s.x)]), before, after)
    ensures Done(s, [], book, scope, SafeStmt(c, s, scope, book), before, after)
  {
    if SafeStmt(c, s, scope, book) && IntBox(before.box) { ForCatches(c.o, c.depth, s, book, scope, after.box); }
  }

  lemma {:induction false} SmallLetDone(c: Tools, s: Stmt, book: Book, scope: Scope, before: Found, after: Found)
    requires ToolsOk(c) && s.LetStmt? && Small(LetBounds(c, s.value, scope))
    requires var inner := scope[s.x := LetBounds(c, s.value, scope)];
      Done(s.body, [], book + [LetB(s.x, s.value)], inner, SafeStmt(c, s.body, inner, book + [LetB(s.x, s.value)]),
           before, after)
    ensures Done(s, [], book, scope, SafeStmt(c, s, scope, book), before, after)
  {
    if SafeStmt(c, s, scope, book) && IntBox(before.box) { LetCatches(c.o, c.depth, s, book, scope, after.box); }
  }

  /** Wrapping in lets for fresh names keeps what is known of the box. */
  lemma {:induction false} WrapDone(n: Naming2, before: Box, inner: Box)
    requires NamesOk(n) && n.minName !in BoxNames(before) && n.maxName !in BoxNames(before)
    requires n.minName !in UsedNames(inner) && n.maxName !in UsedNames(inner) && Keeps(before, inner) && IntBox(inner)
    ensures Keeps(before, WrapBox(n, inner)) && IntBox(WrapBox(n, inner))
  {
    WrapKeeps(n, before, inner);
    WrapInt(n, inner);
  }

  lemma {:induction false} NamedLetDone(c: Tools, s: Stmt, n: Naming2, book: Book, scope: Scope, before: Found,
                                        inner: Found)
    requires ToolsOk(c) && s.LetStmt? && !Small(LetBounds(c, s.value, scope))
    requires var i := LetBounds(c, s.value, scope); n.minValue == LowOf(i) && n.maxValue == HighOf(i)
    requires FreshNaming(n, before.box, s, [], scope, book)
    requires var sc, bk := scope[s.x := NamedInterval(n, TypeOf(s.value))], book + [LetB(s.x, s.value)];
      Done(s.body, [], bk, sc, SafeStmt(c, s.body, sc, bk), before, inner)
    ensures Done(s, [], book, scope, SafeStmt(c, s, scope, book), before, Found(WrapBox(n, inner.box), inner.failed))
  {
    if SafeStmt(c, s, scope, book) && IntBox(before.box) {
      assert NamedInterval(n, TypeOf(s.value)) == PairInterval(n.minName, n.maxName, TypeOf(s.value));
      WrapDone(n, before.box, inner.box);
      NamedLetCatches(c.o, c.depth, s, n, book, scope, inner.box);
    }
  }

  lemma {:induction false} UnderNames(b: Box, c: Expr)
    ensures UsedNames(Under(b, c)) <= UsedNames(b) + Names(c)
    ensures IntBox(b) ==> IntBox(Under(b, c))
  {
  }

  lemma {:induction false} ForkedNames(o: Oracle, c: Expr, orig: Box, t: Box, f: Box)
    requires OracleOk(o) && SameShape(orig, t) && SameShape(orig, f) && SameShape(t, f)
    ensures UsedNames(Forked(o, c, orig, t, f)) <= UsedNames(orig) + UsedNames(t) + UsedNames(f) + Names(c)
  {
    var t', f' := Under(t, c), Under(f, Not(c));
    UnderNames(t, c);
    UnderNames(f, Not(c));
    MergeUsedNames(o, t', f');
    MergeUsedNames(o, orig, Merged(o, t', f'));
  }

  lemma {:induction false} ForkedCatches(o: Oracle, s: Stmt, book: Book, scope: Scope, orig: Box, t: Box, f: Box)
    requires OracleOk(o) && SimplifyTotal(o) && s.If? && Names(s.cond) !! scope.Keys
    requires IntBox(orig) && IntBox(t) && IntBox(f) && SameShape(orig, t) && SameShape(orig, f) && SameShape(t, f)
    requires Catches(s.onTrue, [], book, scope, t) && Catches(s.onFalse, [], book, scope, f)
    ensures var box := Forked(o, s.cond, orig, t, f);
      IntBox(box) && Keeps(orig, box) && Catches(s, [], book, scope, box)
  {
    var t', f' := Under(t, s.cond), Under(f, Not(s.cond));
    var both, box := Merged(o, t', f'), Forked(o, s.cond, orig, t, f);
    UnderNames(t, s.cond);
    UnderNames(f, Not(s.cond));
    MergeKeeps(o, t', f');
    MergeKeeps(o, orig, both);
    KeepsTrans(t', both, box);
    KeepsTrans(f', both, box);
    ParamIfCatches(s, book, scope, t, f, box);
  }

  lemma {:induction false} ParamIfDone(c: Tools, s: Stmt, book: Book, scope: Scope, before: Found, t: Found, f: Found)
    requires ToolsOk(c) && s.If? && Names(s.cond) !! scope.Keys
    requires SameShape(before.box, t.box) && SameShape(before.box, f.box) && SameShape(t.box, f.box)
    requires Done(s.onTrue, [], book, scope, SafeStmt(c, s.onTrue, scope, book), Found(EMPTY, before.failed), t)
    requires Done(s.onFalse, [], book, scope, SafeStmt(c, s.onFalse, scope, book), Found(EMPTY, t.failed), f)
    ensures Done(s, [], book, scope, SafeStmt(c, s, scope, book), before,
                 Found(Forked(c.o, s.cond, before.box, t.box, f.box), f.failed))
  {
    ForkedNames(c.o, s.cond, before.box, t.box, f.box);
    if SafeStmt(c, s, scope, book) && IntBox(before.box) {
      ForkedCatches(c.o, s, book, scope, before.box, t.box, f.box);
    }
  }

  /** Without an else branch there is nothing more to analyse. */
  lemma {:induction false} IfThenDone(c: Tools, s: Stmt, book: Book, scope: Scope, before: Found, after: Found)
    requires ToolsOk(c) && s.If? && !(Names(s.cond) !! scope.Keys) && s.onFalse.Skip?
    requires var r1 := RestrictsOf(c, c.o.simplify(s.cond), Occurrences(s.cond), scope);
      Done(s.onTrue, r1, book, scope, SafeNarrow(c, r1, s.onTrue, scope, book), before, after)
    ensures Done(s, [], book, scope, SafeStmt(c, s, scope, book), before, after)
  {
    if SafeStmt(c, s, scope, book) && IntBox(before.box) {
      var c1 := c.o.simplify(s.cond);
      var r1 := RestrictsOf(c, c1, Occurrences(s.cond), scope);
      RestrictsAreBy(c, c1, Occurrences(s.cond), scope);
      assert Catches(s.onFalse, [], book, scope, after.box);
      IfCatches(c.o, c.depth, c.solve, c.pick, s, book, scope, r1, [], after.box);
    }
  }

  lemma {:induction false} IfDone(c: Tools, s: Stmt, book: Book, scope: Scope, before: Found, mid: Found, after: Found)
    requires ToolsOk(c) && s.If? && !(Names(s.cond) !! scope.Keys) && !s.onFalse.Skip?
    requires var c1 := c.o.simplify(s.cond);
      var r1 := RestrictsOf(c, c1, Occurrences(s.cond), scope);
      var r2 := RestrictsOf(c, c.o.simplify(Not(c1)), Occurrences(s.cond), scope);
      && Done(s.onTrue, r1, book, scope, SafeNarrow(c, r1, s.onTrue, scope, book), before, mid)
      && Done(s.onFalse, r2, book, scope, SafeNarrow(c, r2, s.onFalse, scope, book), mid, after)
    ensures Done(s, [], book, scope, SafeStmt(c, s, scope, book), before, after)
  {
    if SafeStmt(c, s, scope, book) && IntBox(before.box) {
      var c1 := c.o.simplify(s.cond);
      var c2 := c.o.simplify(Not(c1));
      var r1, r2 := RestrictsOf(c, c1, Occurrences(s.cond), scope), RestrictsOf(c, c2, Occurrences(s.cond), scope);
      RestrictsAreBy(c, c1, Occurrences(s.cond), scope);
      RestrictsAreBy(c, c2, Occurrences(s.cond), scope);
      KeepsTrans(before.box, mid.box, after.box);
      CatchesLater(s.onTrue, r1, book, scope, mid.box, after.box);
      IfCatches(c.o, c.depth, c.solve, c.pick, s, book, scope, r1, r2, after.box);
    }
  }

  lemma {:induction false} NarrowDone(c: Tools, rest: seq<Restrict>, body: Stmt, book: Book, scope: Scope,
                                      before: Found, after: Found)
    requires rest != []
    requires var ys, sc := Dependents(book, rest[0].x, 0), scope[rest[0].x := rest[0].i];
      Done(body, rest[1..], book, sc, SafeNarrowLets(c, ys, rest[1..], body, sc, book), before, after)
    ensures Done(body, rest, book, scope, SafeNarrow(c, rest, body, scope, book), before, after)
  {
    if SafeNarrow(c, rest, body, scope, book) && IntBox(before.box) {
      RestrictCatches(body, rest[0], rest[1..], book, scope, after.box);
      assert [rest[0]] + rest[1..] == rest;
    }
  }

  lemma {:induction false} NarrowLetDone(c: Tools, ys: seq<string>, rest: seq<Restrict>, body: Stmt, n: Naming2,
                                         book: Book, scope: Scope,
                                         before: Found, inner: Found, after: Found)
    requires ToolsOk(c) && ys != [] && ys[0] in scope && FreshNaming(n, before.box, body, rest, scope, book)
    requires var i, j := LetBounds(c, NarrowedValue(book, ys[0]), scope), scope[ys[0]];
      && n.minValue == MetLow(c.o, i, j) && n.maxValue == MetHigh(c.o, i, j)
      && after.box == WrapBox(n, inner.box) && (!Mixed(i, j) ==> after.failed == inner.failed)
    requires var sc := scope[ys[0] := NamedInterval(n, TypeOf(NarrowedValue(book, ys[0])))];
      Done(body, rest, book, sc, SafeNarrowLets(c, ys[1..], rest, body, sc, book), before, inner)
    ensures Done(body, rest, book, scope, SafeNarrowLets(c, ys, rest, body, scope, book), before, after)
  {
    if SafeNarrowLets(c, ys, rest, body, scope, book) && IntBox(before.box) {
      var y := ys[0];
      CurrentIsLatestLet(book, y);
      var l := DefOf(book, y);
      assert NamedInterval(n, TypeOf(l.value)) == PairInterval(n.minName, n.maxName, TypeOf(l.value));
      WrapDone(n, before.box, inner.box);
      TrimLetCatches(c.o, c.depth, body, l, n, rest, book, scope, inner.box);
    }
  }

  /**
   * boxes_touched: on a safe statement the analysis succeeds, and the returned box covers every
   * point that any run inside the scope touches, and is in use then; on rectangular nests each of its
   * ends is a coordinate of a point that is touched.
   */
  method FindBox(c: Tools, rank: nat, scope: Scope, s: Stmt) returns (r: Option<Box>)
    requires ToolsOk(c) && Ranked(s, rank)
    ensures SafeStmt(c, s, scope, []) ==>
      r.Some? && forall env, out, p {:trigger Touched(s, env, p), Covers(r.value, p, out)} ::
      StmtFine(s, env) && StmtIn(s, map[], World(scope, env, out)) && Touched(s, env, p) && p != [] ==>
        Covers(r.value, p, out)
    ensures NoLets(s) ==> r == Some(Walk(c, s, scope, EMPTY, rank))
    ensures forall out: Env ::
      RegionTight.Rectangular(c, s, scope, out) && WideScope(scope) && BoundsAttained.GoodScope(scope, out) ==>
        r.Some? && RegionTight.TightBox(s, scope, r.value, out)
  {
    var visitor := new Visitor(c, rank, scope);
    visitor.Visit(s);
    r := if visitor.failed then None else Some(visitor.box);
    if SafeStmt(c, s, scope, []) {
      forall env, out, p | StmtFine(s, env) && StmtIn(s, map[], World(scope, env, out)) && Touched(s, env, p) && p != []
        ensures Covers(r.value, p, out)
      {
        assert Ready(s, [], World(scope, env, out));
        Caught(s, [], [], World(scope, env, out), r.value, p);
      }
    }
    forall out: Env |
      RegionTight.Rectangular(c, s, scope, out) && WideScope(scope) && BoundsAttained.GoodScope(scope, out)
      ensures r.Some? && RegionTight.TightBox(s, scope, r.value, out)
    {
      RegionTight.RectangularNoLets(c, s, scope, out);
      RegionTight.NestBoxIsTight(c, s, scope, rank, out);
    }
  }
}
