/**
 * Which regions of which producers a function stage requires: the auto-scheduler's
 * dependence worklist, as a function on states.
 *
 * Box analysis of one stage, the bounds of a function's stages and the final substitution of
 * pipeline estimates are arbitrary functions here; the traversal is the subject.
 */
module Dependence {
  import opened Wrappers
  import opened Positions

  /** A missing end is an infinity. */
  datatype Range = Range(min: Option<int>, max: Option<int>)

  type Box = seq<Range>

  type DimBounds = map<string, Range>

  datatype Stage = Stage(func: string, stage: nat)

  datatype Demand = Demand(func: string, box: Box)

  type Estimates = map<string, Range>

  datatype Pipeline = Pipeline(
    order: seq<string>,
    args: string -> seq<string>,
    dims: string -> nat,
    stages: string -> nat,
    need: (Stage, DimBounds, Estimates) -> seq<Demand>,
    stageBounds: (string, DimBounds, nat) -> DimBounds,
    finish: map<string, Box> -> map<string, Box>)

  /** Consumers come later in the realization order than what they demand. */
  ghost predicate Topological(p: Pipeline) {
    forall s: Stage, b: DimBounds, est: Estimates, k: nat {:trigger p.need(s, b, est)[k]} ::
      s.func in p.order && k < |p.need(s, b, est)| && p.need(s, b, est)[k].func in p.order
        && p.need(s, b, est)[k].func != s.func ==>
        Pos(p, p.need(s, b, est)[k].func) < Pos(p, s.func)
  }

  /** All boxes of a function have its dimensionality. */
  ghost predicate Sized(p: Pipeline) {
    forall s: Stage, b: DimBounds, est: Estimates, k: nat {:trigger p.need(s, b, est)[k]} ::
      k < |p.need(s, b, est)| ==> |p.need(s, b, est)[k].box| == p.dims(p.need(s, b, est)[k].func)
  }

  ghost predicate WellFormed(p: Pipeline) {
    (forall i, j :: 0 <= i < j < |p.order| ==> p.order[i] != p.order[j]) && Topological(p) && Sized(p)
  }

  function Pos(p: Pipeline, f: string): nat { IndexOf(p.order, f) }

  // ---- joining ranges ----

  function JoinMin(a: Option<int>, b: Option<int>): Option<int> {
    if a.Some? && b.Some? then Some(if a.value <= b.value then a.value else b.value) else None
  }

  function JoinMax(a: Option<int>, b: Option<int>): Option<int> {
    if a.Some? && b.Some? then Some(if a.value <= b.value then b.value else a.value) else None
  }

  function JoinRange(a: Range, b: Range): Range { Range(JoinMin(a.min, b.min), JoinMax(a.max, b.max)) }

  predicate RangeIn(a: Range, b: Range) {
    && (b.min.Some? ==> a.min.Some? && b.min.value <= a.min.value)
    && (b.max.Some? ==> a.max.Some? && a.max.value <= b.max.value)
  }

  predicate BoxIn(a: Box, b: Box) { a == [] || (|a| == |b| && forall i :: 0 <= i < |a| ==> RangeIn(a[i], b[i])) }

  /** Boxes of one function have one size; an empty box adds nothing. */
  function JoinBox(a: Box, b: Box): Box {
    if b == [] then a
    else if a == [] || |a| != |b| then b
    else seq(|a|, i requires 0 <= i < |a| => JoinRange(a[i], b[i]))
  }

  function JoinBounds(a: DimBounds, b: DimBounds): DimBounds {
    map x | x in a.Keys + b.Keys :: if x in a && x in b then JoinRange(a[x], b[x]) else if x in a then a[x] else b[x]
  }

  predicate BoundsIn(a: DimBounds, b: DimBounds) { forall x :: x in a ==> x in b && RangeIn(a[x], b[x]) }

  lemma JoinBoundsUpper(a: DimBounds, b: DimBounds)
    ensures BoundsIn(a, JoinBounds(a, b)) && BoundsIn(b, JoinBounds(a, b))
  {
  }

  lemma BoundsInTrans(a: DimBounds, b: DimBounds, c: DimBounds)
    requires BoundsIn(a, b) && BoundsIn(b, c)
    ensures BoundsIn(a, c)
  {
  }

  lemma JoinBoxUpper(a: Box, b: Box)
    requires a == [] || b == [] || |a| == |b|
    ensures BoxIn(a, JoinBox(a, b)) && BoxIn(b, JoinBox(a, b))
  {
  }

  // ---- the traversal ----

  /** A query: which producers count, whether the stage's own function is left out, and the estimates. */
  datatype Query = Query(prods: set<string>, onlyComputed: bool)

  /**
   * `queue` holds the stages still to be traversed; `visited` the stages traversed, compared by
   * stage and number of dimensions; `done` and `dropped` record the traversal.
   */
  datatype State = State(queue: map<Stage, DimBounds>, regions: map<string, Box>, visited: set<(Stage, nat)>,
                         done: map<Stage, DimBounds>, dropped: nat)

  function Pure(p: Pipeline, d: Demand): DimBounds {
    map v | 0 <= v < |p.args(d.func)| && v < |d.box| && LastAt(p.args(d.func), v) :: p.args(d.func)[v] := d.box[v]
  }

  /** Assigning in turn keeps the last range of a name. */
  predicate LastAt(xs: seq<string>, v: nat) { v < |xs| && xs[v] !in xs[v + 1..] }

  function QueueStage(st: State, t: Stage, b: DimBounds): State {
    if (t, |b|) in st.visited then st.(dropped := st.dropped + 1)
    else st.(queue := st.queue[t := if t in st.queue then JoinBounds(st.queue[t], b) else b])
  }

  /** queue_func_regions, for the stages of `f` below `k`. */
  function QueueStages(p: Pipeline, st: State, f: string, pure_: DimBounds, k: nat): State {
    if k == 0 then st
    else QueueStage(QueueStages(p, st, f, pure_, k - 1), Stage(f, k - 1), p.stageBounds(f, pure_, k - 1))
  }

  predicate Records(q: Query, f: string, d: Demand) { !q.onlyComputed || d.func != f }

  predicate Follows(p: Pipeline, q: Query, f: string, d: Demand) {
    d.func in q.prods && d.func in p.order && d.func != f
  }

  function Record(st: State, q: Query, f: string, d: Demand): State {
    if !Records(q, f, d) then st
    else st.(regions := st.regions[d.func := if d.func in st.regions then JoinBox(st.regions[d.func], d.box)
      else d.box])
  }

  /** merge_and_queue_regions, for one demand of a stage of `f`. */
  function Absorb(p: Pipeline, q: Query, st: State, f: string, d: Demand): State {
    var st1 := Record(st, q, f, d);
    if Follows(p, q, f, d) then QueueStages(p, st1, d.func, Pure(p, d), p.stages(d.func)) else st1
  }

  function AbsorbFirst(p: Pipeline, q: Query, st: State, f: string, ds: seq<Demand>, n: nat): State
    requires n <= |ds|
  {
    if n == 0 then st else Absorb(p, q, AbsorbFirst(p, q, st, f, ds, n - 1), f, ds[n - 1])
  }

  function Process(p: Pipeline, q: Query, est: Estimates, st: State, s: Stage): State
    requires s in st.queue
  {
    var b := st.queue[s];
    var ds := p.need(s, b, est);
    var st1 := AbsorbFirst(p, q, st.(visited := st.visited + {(s, |b|)}), s.func, ds, |ds|);
    st1.(queue := st1.queue - {s}, done := st1.done[s := b])
  }

  function Turn(p: Pipeline, q: Query, est: Estimates, st: State, s: Stage): State {
    if s in st.queue then Process(p, q, est, st, s) else st
  }

  /** The stages of the function at position `i`, below `k`. */
  function SweepStages(p: Pipeline, q: Query, est: Estimates, st: State, i: nat, k: nat): State
    requires i < |p.order|
  {
    if k == 0 then st else Turn(p, q, est, SweepStages(p, q, est, st, i, k - 1), Stage(p.order[i], k - 1))
  }

  /** The reverse sweep over the functions from the last down to position `i`. */
  function SweepDown(p: Pipeline, q: Query, est: Estimates, st: State, i: nat): State
    requires i <= |p.order|
    decreases |p.order| - i
  {
    if i == |p.order| then st
    else SweepStages(p, q, est, SweepDown(p, q, est, st, i + 1), i, p.stages(p.order[i]))
  }

  function Start(s: Stage, b: DimBounds): State { State(map[s := b], map[], {}, map[], 0) }

  function Sweep(p: Pipeline, q: Query, est: Estimates, s: Stage, b: DimBounds): State {
    SweepDown(p, q, est, Start(s, b), 0)
  }

  // ---- what every state of the sweep keeps ----

  predicate IsStage(p: Pipeline, s: Stage) { s.func in p.order && s.stage < p.stages(s.func) }

  /** The sweep at (i, k) has passed the stage. */
  predicate Swept(p: Pipeline, s: Stage, i: int, k: nat) { Pos(p, s.func) > i || (Pos(p, s.func) == i && s.stage < k) }

  ghost predicate QueuedAt(p: Pipeline, st: State, s: Stage, i: int, k: nat, cur: set<Stage>) {
    s in st.queue && s !in cur ==> IsStage(p, s) && !Swept(p, s, i, k)
  }

  ghost predicate VisitedAt(p: Pipeline, st: State, v: (Stage, nat), i: int, k: nat) {
    v in st.visited ==> Swept(p, v.0, i, k)
  }

  ghost predicate FinishedAt(p: Pipeline, st: State, s: Stage, i: int, k: nat) {
    s in st.done ==> Swept(p, s, i, k)
  }

  /**
   * Nothing is queued where the sweep has been, except the stage at hand; nothing has been visited
   * where it has not; nothing was dropped.
   */
  ghost predicate Ahead(p: Pipeline, st: State, i: int, k: nat, cur: set<Stage>) {
    && (forall s {:trigger QueuedAt(p, st, s, i, k, cur)} :: QueuedAt(p, st, s, i, k, cur))
    && (forall v {:trigger VisitedAt(p, st, v, i, k)} :: VisitedAt(p, st, v, i, k))
    && (forall s {:trigger FinishedAt(p, st, s, i, k)} :: FinishedAt(p, st, s, i, k))
    && st.dropped == 0
  }

  ghost predicate RegionSized(p: Pipeline, st: State) {
    forall f :: f in st.regions ==> |st.regions[f]| == p.dims(f)
  }

  /** The stage is queued or done with at least the bounds `b`. */
  predicate Pending(st: State, t: Stage, b: DimBounds) {
    || (t in st.queue && BoundsIn(b, st.queue[t]))
    || (t in st.done && t !in st.queue && BoundsIn(b, st.done[t]))
  }

  ghost predicate AllPending(p: Pipeline, st: State, f: string, pure_: DimBounds, k: nat) {
    forall t: nat {:trigger p.stageBounds(f, pure_, t)} :: t < k ==>
      Pending(st, Stage(f, t), p.stageBounds(f, pure_, t))
  }

  /** A demand of a stage of `f` has been merged, and its function queued if it is to be followed. */
  ghost predicate Met(p: Pipeline, q: Query, st: State, f: string, d: Demand) {
    && (Records(q, f, d) ==> d.func in st.regions && BoxIn(d.box, st.regions[d.func]))
    && (Follows(p, q, f, d) ==> AllPending(p, st, d.func, Pure(p, d), p.stages(d.func)))
  }

  ghost predicate AllMet(p: Pipeline, q: Query, st: State, f: string, ds: seq<Demand>, n: nat) {
    forall k {:trigger ds[k]} :: 0 <= k < n && k < |ds| ==> Met(p, q, st, f, ds[k])
  }

  ghost predicate DoneAt(p: Pipeline, q: Query, est: Estimates, st: State, s: Stage) {
    s in st.done ==>
      s.func in p.order && AllMet(p, q, st, s.func, p.need(s, st.done[s], est), |p.need(s, st.done[s], est)|)
  }

  /** Everything a finished stage demands has been taken up. */
  ghost predicate Closed(p: Pipeline, q: Query, est: Estimates, st: State) {
    forall s {:trigger DoneAt(p, q, est, st, s)} :: DoneAt(p, q, est, st, s)
  }

  /** Later states keep what earlier ones took up. */
  ghost predicate Grows(a: State, b: State) {
    && (forall f {:trigger f in b.regions} :: f in a.regions ==> f in b.regions && BoxIn(a.regions[f], b.regions[f]))
    && (forall t, c {:trigger Pending(b, t, c)} :: Pending(a, t, c) ==> Pending(b, t, c))
  }

  lemma GrowsRefl(a: State)
    ensures Grows(a, a)
  {
  }

  lemma {:induction false} BoxInTrans(a: Box, b: Box, c: Box)
    requires BoxIn(a, b) && BoxIn(b, c)
    ensures BoxIn(a, c)
  {
  }

  lemma {:induction false} GrowsTrans(a: State, b: State, c: State)
    requires Grows(a, b) && Grows(b, c)
    ensures Grows(a, c)
  {
    forall f | f in a.regions ensures f in c.regions && BoxIn(a.regions[f], c.regions[f]) {
      assert f in b.regions && f in c.regions;
      BoxInTrans(a.regions[f], b.regions[f], c.regions[f]);
    }
    forall t, d | Pending(a, t, d) ensures Pending(c, t, d) { assert Pending(b, t, d); }
  }

  lemma {:induction false} MetGrows(p: Pipeline, q: Query, a: State, b: State, f: string, d: Demand)
    requires Met(p, q, a, f, d) && Grows(a, b)
    ensures Met(p, q, b, f, d)
  {
    if Records(q, f, d) { BoxInTrans(d.box, a.regions[d.func], b.regions[d.func]); }
    if Follows(p, q, f, d) {
      forall t: nat | t < p.stages(d.func) ensures Pending(b, Stage(d.func, t), p.stageBounds(d.func, Pure(p, d), t)) {
        assert Pending(a, Stage(d.func, t), p.stageBounds(d.func, Pure(p, d), t));
      }
    }
  }

  lemma {:induction false} AllMetGrows(p: Pipeline, q: Query, a: State, b: State, f: string, ds: seq<Demand>, n: nat)
    requires AllMet(p, q, a, f, ds, n) && Grows(a, b)
    ensures AllMet(p, q, b, f, ds, n)
  {
    forall k | 0 <= k < n && k < |ds| ensures Met(p, q, b, f, ds[k]) { MetGrows(p, q, a, b, f, ds[k]); }
  }

  // ---- one step at a time ----

  lemma {:induction false} QueueStageStep(p: Pipeline, st: State, t: Stage, b: DimBounds, i: int, k: nat,
                                          cur: set<Stage>)
    requires Ahead(p, st, i, k, cur) && IsStage(p, t) && !Swept(p, t, i, k)
    ensures var st' := QueueStage(st, t, b);
      Ahead(p, st', i, k, cur) && Grows(st, st') && Pending(st', t, b)
  {
    assert VisitedAt(p, st, (t, |b|), i, k) && FinishedAt(p, st, t, i, k);
    var st' := QueueStage(st, t, b);
    forall s ensures QueuedAt(p, st', s, i, k, cur) { assert QueuedAt(p, st, s, i, k, cur); }
    forall v ensures VisitedAt(p, st', v, i, k) { assert VisitedAt(p, st, v, i, k); }
    forall s ensures FinishedAt(p, st', s, i, k) { assert FinishedAt(p, st, s, i, k); }
    if t in st.queue { JoinBoundsUpper(st.queue[t], b); }
    forall x, c | Pending(st, x, c) ensures Pending(st', x, c) {
      if x == t { BoundsInTrans(c, st.queue[t], st'.queue[t]); }
    }
    forall f | f in st.regions ensures BoxIn(st.regions[f], st'.regions[f]) {}
  }

  /** Queueing a function touches only its own stages' queue entries. */
  ghost predicate OnlyQueues(st: State, st': State, f: string) {
    && st'.regions == st.regions && st'.visited == st.visited && st'.done == st.done
    && forall x: Stage :: x.func != f ==>
      (x in st.queue <==> x in st'.queue) && (x in st.queue ==> st'.queue[x] == st.queue[x])
  }

  lemma {:induction false} QueueStagesStep(p: Pipeline, st: State, f: string, pure_: DimBounds, n: nat, i: int,
                                           k: nat, cur: set<Stage>)
    requires Ahead(p, st, i, k, cur) && f in p.order && Pos(p, f) < i && n <= p.stages(f)
    ensures var st' := QueueStages(p, st, f, pure_, n);
      Ahead(p, st', i, k, cur) && Grows(st, st') && AllPending(p, st', f, pure_, n)
  {
    if n == 0 {
      GrowsRefl(st);
    } else {
      QueueStagesStep(p, st, f, pure_, n - 1, i, k, cur);
      var mid, t, b := QueueStages(p, st, f, pure_, n - 1), Stage(f, n - 1), p.stageBounds(f, pure_, n - 1);
      QueueStageStep(p, mid, t, b, i, k, cur);
      GrowsTrans(st, mid, QueueStage(mid, t, b));
      PendingMore(p, mid, QueueStage(mid, t, b), f, pure_, n);
    }
  }

  lemma {:induction false} PendingMore(p: Pipeline, mid: State, st: State, f: string, pure_: DimBounds, n: nat)
    requires n > 0 && AllPending(p, mid, f, pure_, n - 1) && Grows(mid, st)
    requires Pending(st, Stage(f, n - 1), p.stageBounds(f, pure_, n - 1))
    ensures AllPending(p, st, f, pure_, n)
  {
    forall u: nat | u < n ensures Pending(st, Stage(f, u), p.stageBounds(f, pure_, u)) {
      if u < n - 1 { assert Pending(mid, Stage(f, u), p.stageBounds(f, pure_, u)); }
    }
  }

  lemma {:induction false} QueueStagesOnly(p: Pipeline, st: State, f: string, pure_: DimBounds, n: nat)
    ensures OnlyQueues(st, QueueStages(p, st, f, pure_, n), f)
  {
    if n > 0 { QueueStagesOnly(p, st, f, pure_, n - 1); }
  }

  lemma {:induction false} RecordStep(p: Pipeline, q: Query, st: State, f: string, d: Demand, i: int, k: nat,
                                      cur: set<Stage>)
    requires Ahead(p, st, i, k, cur) && RegionSized(p, st) && |d.box| == p.dims(d.func)
    ensures var st' := Record(st, q, f, d);
      && Ahead(p, st', i, k, cur) && Grows(st, st') && RegionSized(p, st')
      && (Records(q, f, d) ==> d.func in st'.regions && BoxIn(d.box, st'.regions[d.func]))
  {
    var st' := Record(st, q, f, d);
    forall s ensures QueuedAt(p, st', s, i, k, cur) { assert QueuedAt(p, st, s, i, k, cur); }
    forall v ensures VisitedAt(p, st', v, i, k) { assert VisitedAt(p, st, v, i, k); }
    forall s ensures FinishedAt(p, st', s, i, k) { assert FinishedAt(p, st, s, i, k); }
    if d.func in st.regions { JoinBoxUpper(st.regions[d.func], d.box); }
    forall x, c | Pending(st, x, c) ensures Pending(st', x, c) {}
  }

  /** The stage at hand keeps its place in the queue while its demands are taken up. */
  ghost predicate Holds(st: State, st': State, s: Stage) {
    && st'.done == st.done && st'.visited == st.visited
    && (s in st.queue ==> s in st'.queue && st'.queue[s] == st.queue[s])
  }

  lemma {:induction false} AbsorbStep(p: Pipeline, q: Query, st: State, s: Stage, d: Demand, i: int, k: nat)
    requires Ahead(p, st, i, k, {s}) && RegionSized(p, st) && |d.box| == p.dims(d.func)
    requires Follows(p, q, s.func, d) ==> Pos(p, d.func) < i
    ensures var st' := Absorb(p, q, st, s.func, d);
      Ahead(p, st', i, k, {s}) && RegionSized(p, st') && Grows(st, st') && Met(p, q, st', s.func, d)
        && Holds(st, st', s)
  {
    RecordStep(p, q, st, s.func, d, i, k, {s});
    var st1 := Record(st, q, s.func, d);
    if Follows(p, q, s.func, d) {
      QueueStagesStep(p, st1, d.func, Pure(p, d), p.stages(d.func), i, k, {s});
      QueueStagesOnly(p, st1, d.func, Pure(p, d), p.stages(d.func));
      GrowsTrans(st, st1, Absorb(p, q, st, s.func, d));
    }
  }

  lemma {:induction false} AbsorbFirstStep(p: Pipeline, q: Query, est: Estimates, st: State, s: Stage, b: DimBounds,
                                           n: nat, i: int, k: nat)
    requires WellFormed(p) && Ahead(p, st, i, k, {s}) && RegionSized(p, st) && s.func in p.order && Pos(p, s.func) == i
    requires n <= |p.need(s, b, est)|
    ensures var ds := p.need(s, b, est);
      var st' := AbsorbFirst(p, q, st, s.func, ds, n);
      Ahead(p, st', i, k, {s}) && RegionSized(p, st') && Grows(st, st') && AllMet(p, q, st', s.func, ds, n)
        && Holds(st, st', s)
  {
    var ds := p.need(s, b, est);
    if n == 0 {
      GrowsRefl(st);
    } else {
      AbsorbFirstStep(p, q, est, st, s, b, n - 1, i, k);
      var mid, d := AbsorbFirst(p, q, st, s.func, ds, n - 1), ds[n - 1];
      assert p.need(s, b, est)[n - 1] == d;
      AbsorbStep(p, q, mid, s, d, i, k);
      var st' := Absorb(p, q, mid, s.func, d);
      GrowsTrans(st, mid, st');
      AllMetGrows(p, q, mid, st', s.func, ds, n - 1);
    }
  }

  /** Taking the stage at (i, k) as the one at hand. */
  lemma {:induction false} TakeStage(p: Pipeline, st: State, s: Stage, i: int, k: nat)
    requires WellFormed(p) && Ahead(p, st, i, k, {}) && 0 <= i < |p.order| && s == Stage(p.order[i], k) && s in st.queue
    ensures var st' := st.(visited := st.visited + {(s, |st.queue[s]|)});
      Pos(p, s.func) == i && Ahead(p, st', i, k + 1, {s}) && Grows(st, st') && s !in st.done
  {
    IndexOfAt(p.order, i);
    assert FinishedAt(p, st, s, i, k);
    var st' := st.(visited := st.visited + {(s, |st.queue[s]|)});
    var k', cur := k + 1, {s};
    forall x ensures QueuedAt(p, st', x, i, k', cur) {
      assert QueuedAt(p, st, x, i, k, {});
      if x in st.queue && Pos(p, x.func) == i { IndexOfIn(p.order, x.func); }
    }
    forall v ensures VisitedAt(p, st', v, i, k') { assert VisitedAt(p, st, v, i, k); }
    forall x ensures FinishedAt(p, st', x, i, k') { assert FinishedAt(p, st, x, i, k); }
    forall x, c | Pending(st, x, c) ensures Pending(st', x, c) {}
    forall f | f in st.regions ensures BoxIn(st.regions[f], st'.regions[f]) {}
  }

  /** Removing the finished stage from the queue. */
  lemma {:induction false} DropStage(p: Pipeline, st: State, s: Stage, i: int, k: nat)
    requires Ahead(p, st, i, k + 1, {s}) && s in st.queue && Swept(p, s, i, k + 1)
    ensures var st' := st.(queue := st.queue - {s}, done := st.done[s := st.queue[s]]);
      Ahead(p, st', i, k + 1, {}) && Grows(st, st')
  {
    var st' := st.(queue := st.queue - {s}, done := st.done[s := st.queue[s]]);
    var k' := k + 1;
    forall x ensures QueuedAt(p, st', x, i, k', {}) { assert QueuedAt(p, st, x, i, k', {s}); }
    forall v ensures VisitedAt(p, st', v, i, k') { assert VisitedAt(p, st, v, i, k'); }
    forall x ensures FinishedAt(p, st', x, i, k') { assert FinishedAt(p, st, x, i, k'); }
    forall x, c | Pending(st, x, c) ensures Pending(st', x, c) {}
    forall f | f in st.regions ensures BoxIn(st.regions[f], st'.regions[f]) {}
  }

  ghost predicate Inv(p: Pipeline, q: Query, est: Estimates, st: State, i: int, k: nat) {
    Ahead(p, st, i, k, {}) && RegionSized(p, st) && Closed(p, q, est, st)
  }

  lemma {:induction false} ProcessStep(p: Pipeline, q: Query, est: Estimates, st: State, s: Stage, i: int, k: nat)
    requires WellFormed(p) && Inv(p, q, est, st, i, k) && 0 <= i < |p.order| && s == Stage(p.order[i], k)
      && s in st.queue
    ensures var st' := Process(p, q, est, st, s); Inv(p, q, est, st', i, k + 1) && Grows(st, st')
  {
    TakeStage(p, st, s, i, k);
    var b := st.queue[s];
    var ds := p.need(s, b, est);
    var st1 := st.(visited := st.visited + {(s, |b|)});
    AbsorbFirstStep(p, q, est, st1, s, b, |ds|, i, k + 1);
    var st2 := AbsorbFirst(p, q, st1, s.func, ds, |ds|);
    DropStage(p, st2, s, i, k);
    var st' := Process(p, q, est, st, s);
    GrowsTrans(st, st1, st2);
    GrowsTrans(st, st2, st');
    forall x ensures DoneAt(p, q, est, st', x) {
      if x == s {
        AllMetGrows(p, q, st2, st', s.func, ds, |ds|);
      } else if x in st.done {
        assert DoneAt(p, q, est, st, x);
        AllMetGrows(p, q, st, st', x.func, p.need(x, st.done[x], est), |p.need(x, st.done[x], est)|);
      }
    }
  }

  lemma {:induction false} SkipStep(p: Pipeline, q: Query, est: Estimates, st: State, s: Stage, i: int, k: nat)
    requires WellFormed(p) && Inv(p, q, est, st, i, k) && 0 <= i < |p.order| && s == Stage(p.order[i], k)
      && s !in st.queue
    ensures Inv(p, q, est, st, i, k + 1)
  {
    var k' := k + 1;
    forall x ensures QueuedAt(p, st, x, i, k', {}) {
      assert QueuedAt(p, st, x, i, k, {});
      if x in st.queue && Pos(p, x.func) == i { IndexOfIn(p.order, x.func); }
    }
    forall v ensures VisitedAt(p, st, v, i, k') { assert VisitedAt(p, st, v, i, k); }
    forall x ensures FinishedAt(p, st, x, i, k') { assert FinishedAt(p, st, x, i, k); }
  }

  lemma {:induction false} TurnStep(p: Pipeline, q: Query, est: Estimates, st: State, s: Stage, i: int, k: nat)
    requires WellFormed(p) && Inv(p, q, est, st, i, k) && 0 <= i < |p.order| && s == Stage(p.order[i], k)
    ensures Inv(p, q, est, Turn(p, q, est, st, s), i, k + 1) && Grows(st, Turn(p, q, est, st, s))
  {
    if s in st.queue {
      ProcessStep(p, q, est, st, s, i, k);
    } else {
      SkipStep(p, q, est, st, s, i, k);
      GrowsRefl(st);
    }
  }

  lemma {:induction false} SweepStagesStep(p: Pipeline, q: Query, est: Estimates, st: State, i: nat, k: nat)
    requires WellFormed(p) && i < |p.order| && Inv(p, q, est, st, i, 0)
    ensures var st' := SweepStages(p, q, est, st, i, k); Inv(p, q, est, st', i, k) && Grows(st, st')
  {
    if k == 0 {
      GrowsRefl(st);
    } else {
      SweepStagesStep(p, q, est, st, i, k - 1);
      var mid, s := SweepStages(p, q, est, st, i, k - 1), Stage(p.order[i], k - 1);
      TurnStep(p, q, est, mid, s, i, k - 1);
      GrowsTrans(st, mid, Turn(p, q, est, mid, s));
    }
  }

  /** All stages of the function passed: on to the one before it. */
  lemma {:induction false} NextFunction(p: Pipeline, q: Query, est: Estimates, st: State, i: nat)
    requires WellFormed(p) && i < |p.order| && Inv(p, q, est, st, i, p.stages(p.order[i]))
    ensures Inv(p, q, est, st, i - 1, 0)
  {
    var n, j := p.stages(p.order[i]), i - 1;
    forall x ensures QueuedAt(p, st, x, j, 0, {}) {
      assert QueuedAt(p, st, x, i, n, {});
      if x in st.queue && Pos(p, x.func) == i { IndexOfIn(p.order, x.func); }
    }
    forall v ensures VisitedAt(p, st, v, j, 0) { assert VisitedAt(p, st, v, i, n); }
    forall x ensures FinishedAt(p, st, x, j, 0) { assert FinishedAt(p, st, x, i, n); }
  }

  lemma {:induction false} SweepDownStep(p: Pipeline, q: Query, est: Estimates, st: State, i: nat)
    requires WellFormed(p) && i <= |p.order| && Inv(p, q, est, st, |p.order| - 1, 0)
    ensures var st' := SweepDown(p, q, est, st, i); Inv(p, q, est, st', i - 1, 0) && Grows(st, st')
    decreases |p.order| - i
  {
    if i == |p.order| {
      GrowsRefl(st);
    } else {
      SweepDownStep(p, q, est, st, i + 1);
      var mid := SweepDown(p, q, est, st, i + 1);
      SweepStagesStep(p, q, est, mid, i, p.stages(p.order[i]));
      NextFunction(p, q, est, SweepDown(p, q, est, st, i), i);
      GrowsTrans(st, mid, SweepDown(p, q, est, st, i));
    }
  }

  lemma {:induction false} StartInv(p: Pipeline, q: Query, est: Estimates, s: Stage, b: DimBounds)
    requires IsStage(p, s)
    ensures Inv(p, q, est, Start(s, b), |p.order| - 1, 0)
  {
    IndexOfIn(p.order, s.func);
    var st, last := Start(s, b), |p.order| - 1;
    forall x ensures QueuedAt(p, st, x, last, 0, {}) {}
  }

  /** The demand was merged, and followed into stages traversed with bounds that already include it. */
  ghost predicate Satisfied(p: Pipeline, q: Query, st: State, f: string, d: Demand) {
    && (Records(q, f, d) ==> d.func in st.regions && BoxIn(d.box, st.regions[d.func]))
    && (Follows(p, q, f, d) ==> forall t: nat {:trigger Stage(d.func, t)} :: t < p.stages(d.func) ==>
          Stage(d.func, t) in st.done && BoundsIn(p.stageBounds(d.func, Pure(p, d), t), st.done[Stage(d.func, t)]))
  }

  /**
   * One reverse sweep empties the queue and drops nothing, the queried stage was traversed with its
   * bounds, and the result is closed under "required by" through the producers.
   */
  lemma {:induction false} SweepCloses(p: Pipeline, q: Query, est: Estimates, s: Stage, b: DimBounds)
    requires WellFormed(p) && IsStage(p, s)
    ensures var st := Sweep(p, q, est, s, b);
      && st.queue == map[] && st.dropped == 0
      && s in st.done && BoundsIn(b, st.done[s])
      && forall x, k {:trigger p.need(x, st.done[x], est)[k]} ::
        x in st.done && 0 <= k < |p.need(x, st.done[x], est)| ==>
           Satisfied(p, q, st, x.func, p.need(x, st.done[x], est)[k])
  {
    StartInv(p, q, est, s, b);
    SweepDownStep(p, q, est, Start(s, b), 0);
    var st := Sweep(p, q, est, s, b);
    forall x ensures x !in st.queue { assert QueuedAt(p, st, x, -1, 0, {}); }
    assert st.queue == map[];
    assert Pending(Start(s, b), s, b);
    assert Pending(st, s, b);
    forall x, k | x in st.done && 0 <= k < |p.need(x, st.done[x], est)|
      ensures Satisfied(p, q, st, x.func, p.need(x, st.done[x], est)[k])
    {
      assert DoneAt(p, q, est, st, x);
      var d := p.need(x, st.done[x], est)[k];
      assert Met(p, q, st, x.func, d);
      if Follows(p, q, x.func, d) {
        forall t: nat | t < p.stages(d.func)
          ensures Stage(d.func, t) in st.done
            && BoundsIn(p.stageBounds(d.func, Pure(p, d), t), st.done[Stage(d.func, t)])
        {
          assert Pending(st, Stage(d.func, t), p.stageBounds(d.func, Pure(p, d), t));
        }
      }
    }
  }
}
