/**
 * The box of a statement without lets, as a function of the statement: what the visitor's walk
 * adds up to when no let has to be narrowed along with a variable.
 */
module RegionWalk {
  import opened Wrappers
  import opened Ir
  import opened Intervals
  import opened BoundsArith
  import opened BoundsCast
  import opened Boxes
  import opened RegionIr
  import opened Regions
  import opened RegionSteps
  import opened RegionSafe

  /** All touches have the function's dimensionality. */
  predicate Ranked(s: Stmt, rank: nat) {
    match s
    case Skip => true
    case Touch(args) => |args| == rank
    case Block(a, b) => Ranked(a, rank) && Ranked(b, rank)
    case For(_, _, _, b) => Ranked(b, rank)
    case LetStmt(_, _, b) => Ranked(b, rank)
    case If(_, t, f) => Ranked(t, rank) && Ranked(f, rank)
  }

  predicate Shaped(b: Box, rank: nat) { b.dims == [] || |b.dims| == rank }

  predicate SameShape(a: Box, b: Box) { a.dims != [] && b.dims != [] ==> |a.dims| == |b.dims| }

  const EMPTY := Box([], None)

  predicate NoLets(s: Stmt) {
    match s
    case Skip => true
    case Touch(_) => true
    case Block(a, b) => NoLets(a) && NoLets(b)
    case For(_, _, _, b) => NoLets(b)
    case LetStmt(_, _, _) => false
    case If(_, t, f) => NoLets(t) && NoLets(f)
  }

  predicate LoopsOnly(book: Book) { forall k :: 0 <= k < |book| ==> book[k].LoopB? }

  lemma {:induction false} NoDependents(book: Book, y: string, k: nat)
    requires LoopsOnly(book)
    ensures Dependents(book, y, k) == []
    decreases |book| - k
  {
    if k < |book| { NoDependents(book, y, k + 1); }
  }

  function TouchBox(c: Tools, args: seq<Expr>, scope: Scope): Box {
    Box(seq(|args|, k requires 0 <= k < |args| => Ask(c, args[k], scope)), None)
  }

  /** The box of an if over parameters. */
  function Forked(o: Oracle, c: Expr, orig: Box, t: Box, f: Box): Box
    requires SameShape(orig, t) && SameShape(orig, f) && SameShape(t, f)
  {
    Merged(o, orig, Merged(o, Under(t, c), Under(f, Not(c))))
  }

  /** The scope with each restricted variable narrowed in turn. */
  function Restricted(scope: Scope, rest: seq<Restrict>): Scope
    decreases |rest|
  {
    if rest == [] then scope else Restricted(scope[rest[0].x := rest[0].i], rest[1..])
  }

  /** The box found before, grown by what the statement touches. */
  function Walk(c: Tools, s: Stmt, scope: Scope, box: Box, rank: nat): (r: Box)
    requires Ranked(s, rank) && NoLets(s) && Shaped(box, rank)
    ensures Shaped(r, rank)
  {
    match s
    case Skip => box
    case Touch(args) => Merged(c.o, box, TouchBox(c, args, scope))
    case Block(a, b) => Walk(c, b, scope, Walk(c, a, scope, box, rank), rank)
    case For(x, mn, ext, b) => Walk(c, b, scope[x := LoopInterval(Ask(c, mn, scope), Ask(c, ext, scope))], box, rank)
    case If(cond, t, f) =>
      if Names(cond) !! scope.Keys then
        Forked(c.o, cond, box, Walk(c, t, scope, EMPTY, rank), Walk(c, f, scope, EMPTY, rank))
      else
        var c1 := c.o.simplify(cond);
        var one := Walk(c, t, Restricted(scope, RestrictsOf(c, c1, Occurrences(cond), scope)), box, rank);
        if f.Skip? then one
        else
          var c2 := c.o.simplify(Not(c1));
          Walk(c, f, Restricted(scope, RestrictsOf(c, c2, Occurrences(cond), scope)), one, rank)
  }
}
