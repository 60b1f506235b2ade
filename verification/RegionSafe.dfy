/**
 * The statements on which the region analysis is right: a recursive condition on statement,
 * scope and binders that follows the analysis down and asks, at each step, for the guard of
 * the rule about to be used.
 */
module RegionSafe {
  import opened Wrappers
  import opened Ir
  import opened Intervals
  import opened BoundsArith
  import opened BoundsCast
  import opened Bounds
  import opened Boxes
  import opened RegionIr
  import opened Regions
  import opened RegionSteps

  /** What the analysis is given besides the statement. */
  datatype Tools = Tools(o: Oracle, depth: nat, solve: Solver, pick: set<string> -> string)

  ghost predicate ToolsOk(c: Tools) { OraclesOk(c.o, c.solve, c.pick) }

  function Ask(c: Tools, e: Expr, scope: Scope): Interval { Query(c.o, c.depth, e, scope) }

  ghost predicate SafeAsk(c: Tools, e: Expr, scope: Scope) { SafeQuery(c.o, c.depth, e, scope) }

  /** The bounds recorded for a let. */
  function LetBounds(c: Tools, value: Expr, scope: Scope): Interval { Simplified(c.o, Ask(c, value, scope)) }

  /** How many variables occur: large bounds are passed by name instead of substituted. */
  function VarCount(e: Expr): nat {
    match e
    case Const(_, _) => 0
    case Var(_, _) => 1
    case Cast(_, a) => VarCount(a)
    case Bin(_, a, b) => VarCount(a) + VarCount(b)
    case Cmp(_, a, b) => VarCount(a) + VarCount(b)
    case And(a, b) => VarCount(a) + VarCount(b)
    case Or(a, b) => VarCount(a) + VarCount(b)
    case Not(a) => VarCount(a)
    case Select(c, t, f) => VarCount(c) + VarCount(t) + VarCount(f)
    case Let(_, v, b) => VarCount(v) + VarCount(b)
  }

  predicate SmallEnd(x: Option<Expr>) { x.Some? ==> VarCount(x.value) < 10 }

  predicate Small(i: Interval) { SmallEnd(i.min) && SmallEnd(i.max) }

  /** The variable occurrences of a condition, in order. */
  function Occurrences(e: Expr): seq<string> {
    match e
    case Const(_, _) => []
    case Var(_, x) => [x]
    case Cast(_, a) => Occurrences(a)
    case Bin(_, a, b) => Occurrences(a) + Occurrences(b)
    case Cmp(_, a, b) => Occurrences(a) + Occurrences(b)
    case And(a, b) => Occurrences(a) + Occurrences(b)
    case Or(a, b) => Occurrences(a) + Occurrences(b)
    case Not(a) => Occurrences(a)
    case Select(c, t, f) => Occurrences(c) + Occurrences(t) + Occurrences(f)
    case Let(_, v, b) => Occurrences(v) + Occurrences(b)
  }

  // ---- restrictions ----

  predicate Restricts(c: Tools, cond: Expr, x: string, scope: Scope) {
    x in scope && SolvedFor(c.solve(cond, x), x)
  }

  function RestrictOf(c: Tools, cond: Expr, x: string, scope: Scope): Restrict
    requires Restricts(c, cond, x, scope)
  {
    var s := c.solve(cond, x).value;
    Restrict(x, Trimmed(s.cop, scope[x], Ask(c, s.cb, scope)))
  }

  /** What the condition, solved for each scoped variable in it, says about that variable. */
  function RestrictsOf(c: Tools, cond: Expr, vars: seq<string>, scope: Scope): seq<Restrict> {
    if vars == [] then []
    else
      var n := |vars| - 1;
      var done := RestrictsOf(c, cond, vars[..n], scope);
      if Restricts(c, cond, vars[n], scope) then done + [RestrictOf(c, cond, vars[n], scope)] else done
  }

  ghost predicate SafeRestricts(c: Tools, cond: Expr, vars: seq<string>, scope: Scope) {
    forall x {:trigger Restricts(c, cond, x, scope)} ::
      x in vars && Restricts(c, cond, x, scope) ==> SafeAsk(c, c.solve(cond, x).value.cb, scope)
  }

  lemma {:induction false} RestrictsAreBy(c: Tools, cond: Expr, vars: seq<string>, scope: Scope)
    requires SafeRestricts(c, cond, vars, scope)
    ensures AllRestrictedBy(c.o, c.depth, c.solve, cond, scope, RestrictsOf(c, cond, vars, scope))
  {
    if vars != [] {
      var n := |vars| - 1;
      assert forall x :: x in vars[..n] ==> x in vars;
      RestrictsAreBy(c, cond, vars[..n], scope);
      if Restricts(c, cond, vars[n], scope) {
        var r := RestrictOf(c, cond, vars[n], scope);
        assert RestrictedBy(c.o, c.depth, c.solve, cond, scope, r);
      }
    }
  }

  // ---- fresh pairs of names ----

  predicate FreshPair(lo: string, hi: string, s: Stmt, rest: seq<Restrict>, scope: Scope, book: Book) {
    && lo != hi
    && lo !in StmtNames(s) + RestNames(rest) + BookNames(book) + ScopeNames(scope)
    && hi !in StmtNames(s) + RestNames(rest) + BookNames(book) + ScopeNames(scope)
  }

  function PairInterval(lo: string, hi: string, t: Type): Interval { Interval(Some(Var(t, lo)), Some(Var(t, hi))) }

  // ---- the condition ----

  /** The innermost let of a name. */
  function LatestLet(book: Book, y: string): Option<Expr> {
    if book == [] then None
    else
      var b := book[|book| - 1];
      if b.LetB? && b.x == y then Some(b.value) else LatestLet(book[..|book| - 1], y)
  }

  lemma {:induction false} CurrentIsLatestLet(book: Book, y: string)
    requires Latest(book, y) >= 0 && book[Latest(book, y)].LetB?
    ensures LatestLet(book, y) == Some(book[Latest(book, y)].value)
  {
    if book[|book| - 1].x != y { CurrentIsLatestLet(book[..|book| - 1], y); }
  }

  ghost predicate SafeStmt(c: Tools, s: Stmt, scope: Scope, book: Book)
    decreases s, 0, 0
  {
    match s
    case Skip => true
    case Touch(args) => forall k :: 0 <= k < |args| ==> SafeAsk(c, args[k], scope) && IntEnds(Ask(c, args[k], scope))
    case Block(a, b) => SafeStmt(c, a, scope, book) && SafeStmt(c, b, scope, book)
    case For(x, mn, ext, b) =>
      && SafeAsk(c, mn, scope) && SafeAsk(c, ext, scope)
      && SafeStmt(c, b, scope[x := LoopInterval(Ask(c, mn, scope), Ask(c, ext, scope))], book + [LoopB(x)])
    case LetStmt(x, v, b) =>
      var i := LetBounds(c, v, scope);
      && SafeAsk(c, v, scope)
      && (if Small(i) then SafeStmt(c, b, scope[x := i], book + [LetB(x, v)])
          else IsBounded(i) && forall lo, hi {:trigger PairInterval(lo, hi, TypeOf(v))} ::
            FreshPair(lo, hi, s, [], scope, book) ==>
            SafeStmt(c, b, scope[x := PairInterval(lo, hi, TypeOf(v))], book + [LetB(x, v)]))
    case If(cond, t, f) =>
      if Names(cond) !! scope.Keys then SafeStmt(c, t, scope, book) && SafeStmt(c, f, scope, book)
      else
        var c1 := c.o.simplify(cond);
        var c2 := c.o.simplify(Not(c1));
        && SafeRestricts(c, c1, Occurrences(cond), scope)
        && SafeNarrow(c, RestrictsOf(c, c1, Occurrences(cond), scope), t, scope, book)
        && (f.Skip? || (SafeRestricts(c, c2, Occurrences(cond), scope)
                        && SafeNarrow(c, RestrictsOf(c, c2, Occurrences(cond), scope), f, scope, book)))
  }

  ghost predicate SafeNarrow(c: Tools, rest: seq<Restrict>, body: Stmt, scope: Scope, book: Book)
    decreases body, 1 + |rest|, 0
  {
    if rest == [] then SafeStmt(c, body, scope, book)
    else SafeNarrowLets(c, Dependents(book, rest[0].x, 0), rest[1..], body, scope[rest[0].x := rest[0].i], book)
  }

  /** A let that is narrowed along must be current and have finite bounds, old and new. */
  ghost predicate SafeNarrowLets(c: Tools, ys: seq<string>, rest: seq<Restrict>, body: Stmt, scope: Scope, book: Book)
    decreases body, 1 + |rest|, 1 + |ys|
  {
    if ys == [] then SafeNarrow(c, rest, body, scope, book)
    else
      var y := ys[0];
      && CurrentLet(book, y) && y in scope && IsBounded(scope[y])
      && var value := DefOf(book, y).value;
         && SafeAsk(c, value, scope) && IsBounded(LetBounds(c, value, scope))
         && forall lo, hi {:trigger PairInterval(lo, hi, TypeOf(value))} ::
           FreshPair(lo, hi, body, rest, scope, book) ==>
              SafeNarrowLets(c, ys[1..], rest, body, scope[y := PairInterval(lo, hi, TypeOf(value))], book)
  }
}
