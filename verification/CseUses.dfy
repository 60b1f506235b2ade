/**
 * Use counting over a numbered graph: nodes not worth a let are stepped through on every
 * visit, every other node is counted on every visit and expanded on the first.
 */
module CseUses {
  import opened ExprGraph
  import opened CseNumbering

  /** `a` occurs in `e`. */
  ghost predicate Within(a: Expr, e: Expr)
    decreases e
  {
    a == e ||
    match e
    case Op(_, _, args) => exists i :: 0 <= i < |args| && Within(a, args[i])
    case Let(_, _, v, b) => Within(a, v) || Within(a, b)
    case _ => false
  }

  lemma {:induction false} WithinTrans(a: Expr, b: Expr, c: Expr)
    requires Within(a, b) && Within(b, c)
    ensures Within(a, c)
    decreases c
  {
    if b != c {
      match c
      case Op(_, _, args) =>
        var i :| 0 <= i < |args| && Within(b, args[i]);
        WithinTrans(a, b, args[i]);
      case Let(_, _, v, body) =>
        if Within(b, v) { WithinTrans(a, b, v); } else { WithinTrans(a, b, body); }
    }
  }

  function Height(e: Expr): nat
    decreases e, 1
  {
    match e
    case Op(_, _, args) => 1 + HeightAll(args)
    case Let(_, _, v, b) => 1 + Height(v) + Height(b)
    case _ => 0
  }

  function HeightAll(es: seq<Expr>): nat
    decreases es, 0
  {
    if es == [] then 0 else Height(es[0]) + HeightAll(es[1..])
  }

  lemma {:induction false} HeightAllAt(es: seq<Expr>, i: nat)
    requires i < |es|
    ensures Height(es[i]) <= HeightAll(es)
  {
    if i > 0 { HeightAllAt(es[1..], i - 1); }
  }

  lemma {:induction false} WithinIsLower(a: Expr, e: Expr)
    requires Within(a, e)
    ensures Height(a) <= Height(e) && (a != e ==> Height(a) < Height(e))
    decreases e
  {
    if a != e {
      match e
      case Op(_, _, args) =>
        var i :| 0 <= i < |args| && Within(a, args[i]);
        WithinIsLower(a, args[i]);
        HeightAllAt(args, i);
      case Let(_, _, v, b) =>
        if Within(a, v) { WithinIsLower(a, v); } else { WithinIsLower(a, b); }
    }
  }

  // -- The specification of a use count -------------------------------------------------

  /** How often `e` refers to `n`: directly, or through nodes that get no let of their own. */
  function Refs(e: Expr, n: Expr, liftAll: bool): nat
    decreases e, 1
  {
    if ShouldExtract(e, liftAll) then (if e == n then 1 else 0)
    else if e.Op? then RefsAll(e.args, n, liftAll)
    else 0
  }

  function RefsAll(es: seq<Expr>, n: Expr, liftAll: bool): nat
    decreases es, 0
  {
    if es == [] then 0 else Refs(es[0], n, liftAll) + RefsAll(es[1..], n, liftAll)
  }

  function ChildRefs(e: Expr, n: Expr, liftAll: bool): nat {
    if e.Op? then RefsAll(e.args, n, liftAll) else 0
  }

  /** The references made by the children of each node in `es`. */
  function Uses(es: seq<Expr>, n: Expr, liftAll: bool): nat {
    if es == [] then 0 else ChildRefs(es[0], n, liftAll) + Uses(es[1..], n, liftAll)
  }

  lemma {:induction false} RefsAllSnoc(es: seq<Expr>, i: nat, n: Expr, liftAll: bool)
    requires i < |es|
    ensures RefsAll(es[..i + 1], n, liftAll) == RefsAll(es[..i], n, liftAll) + Refs(es[i], n, liftAll)
  {
    if i > 0 {
      RefsAllSnoc(es[1..], i - 1, n, liftAll);
      assert es[..i + 1][1..] == es[1..][..i] && es[..i][1..] == es[1..][..i - 1];
    }
  }

  lemma {:induction false} UsesConcat(a: seq<Expr>, b: seq<Expr>, n: Expr, liftAll: bool)
    ensures Uses(a + b, n, liftAll) == Uses(a, n, liftAll) + Uses(b, n, liftAll)
  {
    if a == [] {
      assert a + b == b;
    } else {
      assert (a + b)[1..] == a[1..] + b;
      UsesConcat(a[1..], b, n, liftAll);
    }
  }

  // -- The visited set --------------------------------------------------------------------

  /** The extractable nodes inside a visited node of `e` have been visited too. */
  ghost predicate Finished(visited: set<Expr>, e: Expr, liftAll: bool) {
    forall a, b :: a in visited && Within(a, e) && Within(b, a) && ShouldExtract(b, liftAll) ==> b in visited
  }

  ghost predicate Adds(before: set<Expr>, after: set<Expr>, e: Expr, liftAll: bool) {
    forall a :: a in after <==> a in before || (Within(a, e) && ShouldExtract(a, liftAll))
  }

  /** What the first `i` children add. */
  ghost predicate AddsChildren(before: set<Expr>, after: set<Expr>, e: Expr, i: nat, liftAll: bool) {
    forall a :: a in after <==> a in before || (WithinFirst(a, e, i) && ShouldExtract(a, liftAll))
  }

  ghost predicate WithinFirst(a: Expr, e: Expr, i: nat) {
    e.Op? && exists j :: 0 <= j < i && j < |e.args| && Within(a, e.args[j])
  }

  lemma {:induction false} NextChildFinished(before: set<Expr>, after: set<Expr>, e: Expr, i: nat, liftAll: bool)
    requires e.Op? && i < |e.args| && AddsChildren(before, after, e, i, liftAll)
    requires forall c :: Within(c, e) && c != e ==> Finished(before, c, liftAll)
    ensures Finished(after, e.args[i], liftAll)
  {
    var c := e.args[i];
    forall a, b | a in after && Within(a, c) && Within(b, a) && ShouldExtract(b, liftAll)
      ensures b in after
    {
      if a in before {
        assert Within(c, c) && Within(c, e);
        WithinIsLower(c, e);
        HeightAllAt(e.args, i);
        assert Finished(before, c, liftAll);
      } else {
        var j :| 0 <= j < i && j < |e.args| && Within(a, e.args[j]);
        WithinTrans(b, a, e.args[j]);
        assert WithinFirst(b, e, i);
      }
    }
  }

  lemma {:induction false} NextChildAdds(before: set<Expr>, mid: set<Expr>, after: set<Expr>, e: Expr, i: nat,
                                         liftAll: bool)
    requires e.Op? && i < |e.args| && AddsChildren(before, mid, e, i, liftAll) && Adds(mid, after, e.args[i], liftAll)
    ensures AddsChildren(before, after, e, i + 1, liftAll)
  {
    forall a ensures WithinFirst(a, e, i + 1) <==> WithinFirst(a, e, i) || Within(a, e.args[i]) {
      if WithinFirst(a, e, i + 1) {
        var j :| 0 <= j < i + 1 && j < |e.args| && Within(a, e.args[j]);
      }
    }
  }

  /** A first visit: `e` itself, then its children. */
  lemma {:induction false} FirstVisitAdds(before: set<Expr>, after: set<Expr>, e: Expr, liftAll: bool)
    requires e.Op? && AddsChildren(before + {e}, after, e, |e.args|, liftAll) && ShouldExtract(e, liftAll)
    ensures Adds(before, after, e, liftAll)
  {
    forall a ensures Within(a, e) <==> a == e || WithinFirst(a, e, |e.args|) {}
  }

  lemma {:induction false} StepThroughAdds(before: set<Expr>, after: set<Expr>, e: Expr, liftAll: bool)
    requires !ShouldExtract(e, liftAll) && !e.Let?
    requires if e.Op? then AddsChildren(before, after, e, |e.args|, liftAll) else after == before
    ensures Adds(before, after, e, liftAll)
  {
    forall a ensures Within(a, e) <==> a == e || (e.Op? && WithinFirst(a, e, |e.args|)) {}
  }

  lemma {:induction false} RevisitAdds(visited: set<Expr>, e: Expr, liftAll: bool)
    requires e in visited && Finished(visited, e, liftAll)
    ensures Adds(visited, visited, e, liftAll)
  {
    assert Within(e, e);
  }

  /** Being finished for `e` is enough for everything strictly inside, even once `e` is visited. */
  lemma {:induction false} FinishedInside(visited: set<Expr>, e: Expr, liftAll: bool)
    requires Finished(visited, e, liftAll)
    ensures forall c :: Within(c, e) && c != e ==> Finished(visited, c, liftAll)
    ensures forall c :: Within(c, e) && c != e ==> Finished(visited + {e}, c, liftAll)
  {
    forall c | Within(c, e) && c != e
      ensures Finished(visited, c, liftAll) && Finished(visited + {e}, c, liftAll)
    {
      WithinIsLower(c, e);
      forall a, b | a in visited + {e} && Within(a, c) && Within(b, a) && ShouldExtract(b, liftAll)
        ensures a in visited && b in visited
      {
        WithinIsLower(a, c);
        WithinTrans(a, c, e);
      }
    }
  }

  // -- The counts ---------------------------------------------------------------------------

  ghost predicate CountAt(entries: seq<Expr>, before: seq<nat>, after: seq<nat>, es: seq<Expr>, first: seq<Expr>,
                          liftAll: bool, k: nat)
  {
    k < |entries| == |before| == |after| ==>
      after[k] == before[k] + RefsAll(es, entries[k], liftAll) + Uses(first, entries[k], liftAll)
  }

  /** Each count grew by the references from `es` and from the children of the nodes in `first`. */
  ghost predicate Counted(entries: seq<Expr>, before: seq<nat>, after: seq<nat>, es: seq<Expr>, first: seq<Expr>,
                          liftAll: bool)
  {
    && |before| == |after| == |entries|
    && forall k: nat {:trigger CountAt(entries, before, after, es, first, liftAll, k)} ::
         CountAt(entries, before, after, es, first, liftAll, k)
  }

  lemma {:induction false} CountedNext(entries: seq<Expr>, c0: seq<nat>, c1: seq<nat>, c2: seq<nat>,
                                       es: seq<Expr>, i: nat, f: seq<Expr>, g: seq<Expr>, liftAll: bool)
    requires i < |es| && Counted(entries, c0, c1, es[..i], f, liftAll)
    requires Counted(entries, c1, c2, [es[i]], g, liftAll)
    ensures Counted(entries, c0, c2, es[..i + 1], f + g, liftAll)
  {
    var fg, next := f + g, es[..i + 1];
    forall k: nat ensures CountAt(entries, c0, c2, next, fg, liftAll, k) {
      if k < |entries| {
        assert CountAt(entries, c0, c1, es[..i], f, liftAll, k) && CountAt(entries, c1, c2, [es[i]], g, liftAll, k);
        RefsAllSnoc(es, i, entries[k], liftAll);
        UsesConcat(f, g, entries[k], liftAll);
        assert RefsAll([es[i]], entries[k], liftAll) == Refs(es[i], entries[k], liftAll);
      }
    }
  }

  /** A first visit counts `e` and adds its children's references. */
  lemma {:induction false} CountedFirst(entries: seq<Expr>, output: Numbering, c0: seq<nat>, c1: seq<nat>, e: Expr,
                                        f: seq<Expr>, liftAll: bool)
    requires e.Op? && ShouldExtract(e, liftAll) && e in output && |c0| == |entries|
    requires AllEntriesOk(entries, output) && NumberOk(entries, output, e)
    requires Counted(entries, c0[output[e] := c0[output[e]] + 1], c1, e.args, f, liftAll)
    ensures Counted(entries, c0, c1, [e], [e] + f, liftAll)
  {
    var n, ef := output[e], [e] + f;
    var mid := c0[n := c0[n] + 1];
    forall k: nat ensures CountAt(entries, c0, c1, [e], ef, liftAll, k) {
      if k < |entries| {
        assert CountAt(entries, mid, c1, e.args, f, liftAll, k) && EntryOk(entries, output, k);
        assert ef[1..] == f;
        assert RefsAll([e], entries[k], liftAll) == Refs(e, entries[k], liftAll);
      }
    }
  }

  lemma {:induction false} CountedAgain(entries: seq<Expr>, output: Numbering, c0: seq<nat>, e: Expr, liftAll: bool)
    requires ShouldExtract(e, liftAll) && e in output && |c0| == |entries|
    requires AllEntriesOk(entries, output) && NumberOk(entries, output, e)
    ensures Counted(entries, c0, c0[output[e] := c0[output[e]] + 1], [e], [], liftAll)
  {
    var c1 := c0[output[e] := c0[output[e]] + 1];
    forall k: nat ensures CountAt(entries, c0, c1, [e], [], liftAll, k) {
      if k < |entries| {
        assert EntryOk(entries, output, k);
        assert RefsAll([e], entries[k], liftAll) == Refs(e, entries[k], liftAll);
      }
    }
  }

  lemma {:induction false} CountedThrough(entries: seq<Expr>, c0: seq<nat>, c1: seq<nat>, e: Expr,
                                          f: seq<Expr>, liftAll: bool)
    requires !ShouldExtract(e, liftAll)
    requires Counted(entries, c0, c1, if e.Op? then e.args else [], f, liftAll)
    ensures Counted(entries, c0, c1, [e], f, liftAll)
  {
    var es := if e.Op? then e.args else [];
    forall k: nat ensures CountAt(entries, c0, c1, [e], f, liftAll, k) {
      if k < |entries| {
        assert CountAt(entries, c0, c1, es, f, liftAll, k);
        assert RefsAll([e], entries[k], liftAll) == Refs(e, entries[k], liftAll);
      }
    }
  }

  /** A list without repetition of exactly the nodes of a set. */
  ghost predicate Lists(order: seq<Expr>, nodes: set<Expr>) {
    && (forall a :: a in order <==> a in nodes)
    && (forall i, j :: 0 <= i < j < |order| ==> order[i] != order[j])
  }

  class ComputeUseCounts {
    const entries: seq<Expr>
    const output: Numbering
    const liftAll: bool
    var useCount: seq<nat>
    var visited: set<Expr>
    ghost var order: seq<Expr>   // the visited nodes, in order of first visit

    ghost predicate Valid() reads this {
      && AllEntriesOk(entries, output) && AllNumbersOk(entries, output)
      && |useCount| == |entries| && Lists(order, visited)
    }

    constructor (entries: seq<Expr>, output: Numbering, liftAll: bool)
      requires AllEntriesOk(entries, output) && AllNumbersOk(entries, output)
      ensures Valid() && this.entries == entries && this.output == output && this.liftAll == liftAll
      ensures visited == {} && order == [] && forall k :: 0 <= k < |entries| ==> useCount[k] == 0
    {
      this.entries, this.output, this.liftAll := entries, output, liftAll;
      useCount := seq(|entries|, _ => 0);
      visited, order := {}, [];
    }

    /** One more use of `e`; the lookup of its number cannot fail. */
    method Include(e: Expr)
      requires Valid() && e in output && Finished(visited, e, liftAll)
      modifies this
      ensures Valid() && Adds(old(visited), visited, e, liftAll)
      ensures old(order) <= order
      ensures Counted(entries, old(useCount), useCount, [e], order[|old(order)|..], liftAll)
      decreases e, 1
    {
      assert NumberOk(entries, output, e) && EntryOk(entries, output, output[e]);
      FinishedInside(visited, e, liftAll);
      ghost var visited0, count0, order0 := visited, useCount, order;
      if !ShouldExtract(e, liftAll) {
        VisitChildren(e);
        CountedThrough(entries, count0, useCount, e, order[|order0|..], liftAll);
        StepThroughAdds(visited0, visited, e, liftAll);
        return;
      }
      useCount := useCount[output[e] := useCount[output[e]] + 1];
      if e in visited {
        CountedAgain(entries, output, count0, e, liftAll);
        RevisitAdds(visited, e, liftAll);
      } else {
        visited, order := visited + {e}, order + [e];
        VisitChildren(e);
        CountedFirst(entries, output, count0, useCount, e, order[|order0| + 1..], liftAll);
        assert order[|order0|..] == [e] + order[|order0| + 1..];
        FirstVisitAdds(visited0, visited, e, liftAll);
      }
    }

    method VisitChildren(e: Expr)
      requires Valid() && BuiltFrom(e, output, |entries|)
      requires forall c :: Within(c, e) && c != e ==> Finished(visited, c, liftAll)
      modifies this
      ensures Valid() && old(order) <= order
      ensures if e.Op? then AddsChildren(old(visited), visited, e, |e.args|, liftAll) else visited == old(visited)
      ensures Counted(entries, old(useCount), useCount, if e.Op? then e.args else [], order[|old(order)|..], liftAll)
      decreases e, 0
    {
      CountedNothing(entries, useCount, liftAll);
      if !e.Op? { return; }
      ghost var visited0, count0, order0 := visited, useCount, order;
      var i := 0;
      while i < |e.args|
        invariant i <= |e.args| && Valid() && order0 <= order
        invariant AddsChildren(visited0, visited, e, i, liftAll)
        invariant Counted(entries, count0, useCount, e.args[..i], order[|order0|..], liftAll)
      {
        ghost var visited1, count1, order1 := visited, useCount, order;
        NextChildFinished(visited0, visited, e, i, liftAll);
        Include(e.args[i]);
        NextChildAdds(visited0, visited1, visited, e, i, liftAll);
        CountedNext(entries, count0, count1, useCount, e.args, i, order1[|order0|..], order[|order1|..], liftAll);
        assert order[|order0|..] == order1[|order0|..] + order[|order1|..];
        i := i + 1;
      }
      assert e.args[..i] == e.args;
    }
  }

  lemma {:induction false} CountedNothing(entries: seq<Expr>, c: seq<nat>, liftAll: bool)
    requires |c| == |entries|
    ensures Counted(entries, c, c, [], [], liftAll)
  {
    forall k: nat ensures CountAt(entries, c, c, [], [], liftAll, k) {}
  }

  /**
   * The use counts of a whole expression: each is the number of references to the entry from
   * the root and from the children of every extractable node inside, each such node once.
   */
  method CountUses(e: Expr, entries: seq<Expr>, output: Numbering, liftAll: bool)
    returns (useCount: seq<nat>, ghost order: seq<Expr>)
    requires AllEntriesOk(entries, output) && AllNumbersOk(entries, output) && e in output
    ensures |useCount| == |entries|
    ensures forall a :: a in order <==> Within(a, e) && ShouldExtract(a, liftAll)
    ensures forall i, j :: 0 <= i < j < |order| ==> order[i] != order[j]
    ensures forall k :: 0 <= k < |entries| ==>
      useCount[k] == Refs(e, entries[k], liftAll) + Uses(order, entries[k], liftAll)
  {
    var counter := new ComputeUseCounts(entries, output, liftAll);
    ghost var zero := counter.useCount;
    counter.Include(e);
    useCount, order := counter.useCount, counter.order;
    assert order[0..] == order;
    forall k: nat | k < |entries|
      ensures useCount[k] == Refs(e, entries[k], liftAll) + Uses(order, entries[k], liftAll)
    {
      assert CountAt(entries, zero, useCount, [e], order, liftAll, k);
      assert RefsAll([e], entries[k], liftAll) == Refs(e, entries[k], liftAll);
    }
  }
}
