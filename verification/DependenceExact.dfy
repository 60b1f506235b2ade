/**
 * What the sweep computes, end by end: a followed demand reaches every stage of its function
 * argument by argument, and every region and every set of bounds is the least that holds what
 * is demanded of it.
 */
module DependenceExact {
  import opened Wrappers
  import opened Positions
  import opened Dependence
  import opened DependenceAnalysis

  // ---- a demand reaches the arguments it is for ----

  predicate Distinct(args: seq<string>) { forall i, j :: 0 <= i < j < |args| ==> args[i] != args[j] }

  /** Each argument has the range of its own dimension, and nothing else has one. */
  predicate RangeByArgument(args: seq<string>, box: Box, m: DimBounds) {
    && |args| == |box| && (forall v :: 0 <= v < |args| ==> args[v] in m && m[args[v]] == box[v])
    && forall x :: x in m ==> x in args
  }

  lemma {:induction false} PureAt(p: Pipeline, d: Demand, v: nat)
    requires Distinct(p.args(d.func)) && v < |p.args(d.func)| == |d.box|
    ensures p.args(d.func)[v] in Pure(p, d) && Pure(p, d)[p.args(d.func)[v]] == d.box[v]
  {
    assert LastAt(p.args(d.func), v);
  }

  lemma {:induction false} PureIs(p: Pipeline, d: Demand, m: DimBounds)
    requires Distinct(p.args(d.func)) && RangeByArgument(p.args(d.func), d.box, m)
    ensures Pure(p, d) == m
  {
    var args := p.args(d.func);
    forall x | x in m ensures x in Pure(p, d) && Pure(p, d)[x] == m[x] {
      var v :| 0 <= v < |args| && args[v] == x;
      PureAt(p, d, v);
    }
  }

  /**
   * Every stage of a function that is followed has been traversed with bounds that include those of
   * the demand, argument by argument.
   */
  lemma {:induction false} DemandsReachArguments(p: Pipeline, q: Query, est: Estimates, root: Stage, b: DimBounds,
                                                 x: Stage, k: nat, m: DimBounds, t: nat)
    requires WellFormed(p) && IsStage(p, root) && x in Sweep(p, q, est, root, b).done
    requires k < |p.need(x, Sweep(p, q, est, root, b).done[x], est)|
    requires var d := p.need(x, Sweep(p, q, est, root, b).done[x], est)[k];
      && Follows(p, q, x.func, d) && t < p.stages(d.func)
      && Distinct(p.args(d.func)) && RangeByArgument(p.args(d.func), d.box, m)
    ensures var st := Sweep(p, q, est, root, b);
      var f := p.need(x, st.done[x], est)[k].func;
      Stage(f, t) in st.done && BoundsIn(p.stageBounds(f, m, t), st.done[Stage(f, t)])
  {
    var st := Sweep(p, q, est, root, b);
    SweepCloses(p, q, est, root, b);
    var d := p.need(x, st.done[x], est)[k];
    PureIs(p, d, m);
    assert Satisfied(p, q, st, x.func, d);
    assert Stage(d.func, t) == Stage(d.func, t);
  }

  // ---- nothing is larger than it must be ----

  lemma JoinRangeLeast(a: Range, b: Range, c: Range)
    requires RangeIn(a, c) && RangeIn(b, c)
    ensures RangeIn(JoinRange(a, b), c)
  {
  }

  lemma {:induction false} JoinBoxLeast(a: Box, b: Box, c: Box)
    requires BoxIn(a, c) && BoxIn(b, c)
    ensures BoxIn(JoinBox(a, b), c)
  {
    if a != [] && b != [] {
      var j := JoinBox(a, b);
      forall i | 0 <= i < |j| ensures RangeIn(j[i], c[i]) { JoinRangeLeast(a[i], b[i], c[i]); }
    }
  }

  lemma {:induction false} JoinBoundsLeast(a: DimBounds, b: DimBounds, c: DimBounds)
    requires BoundsIn(a, c) && BoundsIn(b, c)
    ensures BoundsIn(JoinBounds(a, b), c)
  {
    var j := JoinBounds(a, b);
    forall x | x in j ensures x in c && RangeIn(j[x], c[x]) {
      if x in a && x in b { JoinRangeLeast(a[x], b[x], c[x]); }
    }
  }

  /** The query: a pipeline, what is asked, and where the sweep starts. */
  datatype Ask = Ask(p: Pipeline, q: Query, est: Estimates, root: Stage, b: DimBounds)

  type History = map<Stage, DimBounds>

  function DemandOf(a: Ask, hist: History, s: Stage, k: nat): Demand
    requires s in hist && k < |a.p.need(s, hist[s], a.est)|
  {
    a.p.need(s, hist[s], a.est)[k]
  }

  /** The box holds every demand for the function that is recorded. */
  ghost predicate HoldsRecorded(a: Ask, hist: History, f: string, box: Box) {
    forall s, k {:trigger RecordedBy(a.p, a.q, a.est, hist, f, s, k)} ::
      RecordedBy(a.p, a.q, a.est, hist, f, s, k) ==> BoxIn(DemandOf(a, hist, s, k).box, box)
  }

  /** The bounds hold the query's, for the queried stage, and those of every demand that is followed to the stage. */
  ghost predicate HoldsFollowed(a: Ask, hist: History, x: Stage, c: DimBounds) {
    && (x == a.root ==> BoundsIn(a.b, c))
    && forall s, k {:trigger FollowedBy(a.p, a.q, a.est, hist, x.func, s, k)} ::
      FollowedBy(a.p, a.q, a.est, hist, x.func, s, k) ==>
        BoundsIn(a.p.stageBounds(x.func, Pure(a.p, DemandOf(a, hist, s, k)), x.stage), c)
  }

  ghost predicate RegionLeast(a: Ask, hist: History, st: State, f: string) {
    f in st.regions ==>
      forall box {:trigger BoxIn(st.regions[f], box)} :: HoldsRecorded(a, hist, f, box) ==> BoxIn(st.regions[f], box)
  }

  ghost predicate QueuedLeast(a: Ask, hist: History, st: State, x: Stage) {
    x in st.queue ==>
      forall c {:trigger BoundsIn(st.queue[x], c)} :: HoldsFollowed(a, hist, x, c) ==> BoundsIn(st.queue[x], c)
  }

  ghost predicate DoneLeast(a: Ask, hist: History, st: State, x: Stage) {
    x in st.done ==>
      forall c {:trigger BoundsIn(st.done[x], c)} :: HoldsFollowed(a, hist, x, c) ==> BoundsIn(st.done[x], c)
  }

  ghost predicate Least(a: Ask, hist: History, st: State) {
    && (forall f {:trigger RegionLeast(a, hist, st, f)} :: RegionLeast(a, hist, st, f))
    && (forall x {:trigger QueuedLeast(a, hist, st, x)} :: QueuedLeast(a, hist, st, x))
    && (forall x {:trigger DoneLeast(a, hist, st, x)} :: DoneLeast(a, hist, st, x))
  }

  lemma {:induction false} RecordedEarlier(a: Ask, hist: History, more: History, f: string, box: Box)
    requires Extends(hist, more) && HoldsRecorded(a, more, f, box)
    ensures HoldsRecorded(a, hist, f, box)
  {
    forall s, k | RecordedBy(a.p, a.q, a.est, hist, f, s, k) ensures BoxIn(DemandOf(a, hist, s, k).box, box) {
      assert RecordedBy(a.p, a.q, a.est, more, f, s, k);
    }
  }

  lemma {:induction false} FollowedEarlier(a: Ask, hist: History, more: History, x: Stage, c: DimBounds)
    requires Extends(hist, more) && HoldsFollowed(a, more, x, c)
    ensures HoldsFollowed(a, hist, x, c)
  {
    forall s, k | FollowedBy(a.p, a.q, a.est, hist, x.func, s, k)
      ensures BoundsIn(a.p.stageBounds(x.func, Pure(a.p, DemandOf(a, hist, s, k)), x.stage), c)
    {
      assert FollowedBy(a.p, a.q, a.est, more, x.func, s, k);
    }
  }

  lemma {:induction false} LeastLater(a: Ask, hist: History, more: History, st: State)
    requires Least(a, hist, st) && Extends(hist, more)
    ensures Least(a, more, st)
  {
    forall f ensures RegionLeast(a, more, st, f) {
      assert RegionLeast(a, hist, st, f);
      if f in st.regions {
        forall box | HoldsRecorded(a, more, f, box) ensures BoxIn(st.regions[f], box) {
          RecordedEarlier(a, hist, more, f, box);
        }
      }
    }
    forall x ensures QueuedLeast(a, more, st, x) {
      assert QueuedLeast(a, hist, st, x);
      if x in st.queue {
        forall c | HoldsFollowed(a, more, x, c) ensures BoundsIn(st.queue[x], c) {
          FollowedEarlier(a, hist, more, x, c);
        }
      }
    }
    forall x ensures DoneLeast(a, more, st, x) {
      assert DoneLeast(a, hist, st, x);
      if x in st.done {
        forall c | HoldsFollowed(a, more, x, c) ensures BoundsIn(st.done[x], c) {
          FollowedEarlier(a, hist, more, x, c);
        }
      }
    }
  }

  lemma {:induction false} RecordLeast(a: Ask, hist: History, st: State, s: Stage, k: nat)
    requires s in hist && k < |a.p.need(s, hist[s], a.est)| && Least(a, hist, st)
    ensures Least(a, hist, Record(st, a.q, s.func, DemandOf(a, hist, s, k)))
  {
    var d := DemandOf(a, hist, s, k);
    var st' := Record(st, a.q, s.func, d);
    forall f ensures RegionLeast(a, hist, st', f) {
      assert RegionLeast(a, hist, st, f);
      if f == d.func && Records(a.q, s.func, d) {
        assert RecordedBy(a.p, a.q, a.est, hist, f, s, k);
        forall box | HoldsRecorded(a, hist, f, box) ensures BoxIn(st'.regions[f], box) {
          if f in st.regions { JoinBoxLeast(st.regions[f], d.box, box); }
        }
      }
    }
    forall x ensures QueuedLeast(a, hist, st', x) { assert QueuedLeast(a, hist, st, x); }
    forall x ensures DoneLeast(a, hist, st', x) { assert DoneLeast(a, hist, st, x); }
  }

  lemma {:induction false} QueueLeast(a: Ask, hist: History, st: State, s: Stage, k: nat, n: nat)
    requires s in hist && k < |a.p.need(s, hist[s], a.est)| && Least(a, hist, st)
    requires Follows(a.p, a.q, s.func, DemandOf(a, hist, s, k))
    ensures var d := DemandOf(a, hist, s, k); Least(a, hist, QueueStages(a.p, st, d.func, Pure(a.p, d), n))
  {
    if n > 0 {
      var d := DemandOf(a, hist, s, k);
      QueueLeast(a, hist, st, s, k, n - 1);
      var mid := QueueStages(a.p, st, d.func, Pure(a.p, d), n - 1);
      QueueOneLeast(a, hist, mid, s, k, n - 1);
    }
  }

  lemma {:induction false} QueueOneLeast(a: Ask, hist: History, st: State, s: Stage, k: nat, t: nat)
    requires s in hist && k < |a.p.need(s, hist[s], a.est)| && Least(a, hist, st)
    requires Follows(a.p, a.q, s.func, DemandOf(a, hist, s, k))
    ensures var d := DemandOf(a, hist, s, k);
      Least(a, hist, QueueStage(st, Stage(d.func, t), a.p.stageBounds(d.func, Pure(a.p, d), t)))
  {
    var d := DemandOf(a, hist, s, k);
    var y, b := Stage(d.func, t), a.p.stageBounds(d.func, Pure(a.p, d), t);
    var st' := QueueStage(st, y, b);
    forall f ensures RegionLeast(a, hist, st', f) { assert RegionLeast(a, hist, st, f); }
    forall x ensures DoneLeast(a, hist, st', x) { assert DoneLeast(a, hist, st, x); }
    forall x ensures QueuedLeast(a, hist, st', x) {
      assert QueuedLeast(a, hist, st, x);
      if x == y && st'.queue != st.queue {
        assert FollowedBy(a.p, a.q, a.est, hist, x.func, s, k);
        forall c | HoldsFollowed(a, hist, x, c) ensures BoundsIn(st'.queue[x], c) {
          if x in st.queue { JoinBoundsLeast(st.queue[x], b, c); }
        }
      }
    }
  }

  lemma {:induction false} AbsorbLeast(a: Ask, hist: History, st: State, s: Stage, n: nat)
    requires s in hist && n <= |a.p.need(s, hist[s], a.est)| && Least(a, hist, st)
    ensures Least(a, hist, AbsorbFirst(a.p, a.q, st, s.func, a.p.need(s, hist[s], a.est), n))
  {
    if n > 0 {
      AbsorbLeast(a, hist, st, s, n - 1);
      var mid := AbsorbFirst(a.p, a.q, st, s.func, a.p.need(s, hist[s], a.est), n - 1);
      var d := DemandOf(a, hist, s, n - 1);
      RecordLeast(a, hist, mid, s, n - 1);
      if Follows(a.p, a.q, s.func, d) {
        QueueLeast(a, hist, Record(mid, a.q, s.func, d), s, n - 1, a.p.stages(d.func));
      }
    }
  }

  /** The least state by its own history. */
  ghost predicate SelfLeast(a: Ask, st: State) { Least(a, st.done, st) }

  lemma {:induction false} ProcessLeast(a: Ask, st: State, s: Stage)
    requires SelfLeast(a, st) && s in st.queue && s !in st.done
    ensures SelfLeast(a, Process(a.p, a.q, a.est, st, s))
  {
    var b := st.queue[s];
    var hist, st1 := st.done[s := b], st.(visited := st.visited + {(s, |b|)});
    LeastLater(a, st.done, hist, st);
    assert Least(a, hist, st1) by { SameLeast(a, hist, st, st1); }
    var ds := a.p.need(s, b, a.est);
    AbsorbLeast(a, hist, st1, s, |ds|);
    AbsorbDone(a.p, a.q, st1, s.func, ds, |ds|);
    var st2 := AbsorbFirst(a.p, a.q, st1, s.func, ds, |ds|);
    var st' := Process(a.p, a.q, a.est, st, s);
    assert st'.done == hist;
    FinishLeast(a, hist, st, st2, st', s);
  }

  lemma {:induction false} SameLeast(a: Ask, hist: History, st: State, st': State)
    requires Least(a, hist, st) && st'.queue == st.queue && st'.done == st.done && st'.regions == st.regions
    ensures Least(a, hist, st')
  {
    forall f ensures RegionLeast(a, hist, st', f) { assert RegionLeast(a, hist, st, f); }
    forall x ensures QueuedLeast(a, hist, st', x) { assert QueuedLeast(a, hist, st, x); }
    forall x ensures DoneLeast(a, hist, st', x) { assert DoneLeast(a, hist, st, x); }
  }

  /** The stage goes from the queue to the finished ones with the bounds it had. */
  lemma {:induction false} FinishLeast(a: Ask, hist: History, st: State, st2: State, st': State, s: Stage)
    requires Least(a, hist, st) && Least(a, hist, st2) && s in st.queue && st2.done == st.done
    requires st' == st2.(queue := st2.queue - {s}, done := st2.done[s := st.queue[s]])
    ensures Least(a, hist, st')
  {
    forall f ensures RegionLeast(a, hist, st', f) { assert RegionLeast(a, hist, st2, f); }
    forall x ensures QueuedLeast(a, hist, st', x) { assert QueuedLeast(a, hist, st2, x); }
    forall x ensures DoneLeast(a, hist, st', x) {
      assert DoneLeast(a, hist, st2, x) && QueuedLeast(a, hist, st, x);
    }
  }

  lemma {:induction false} SweepStagesLeast(a: Ask, st: State, i: nat, k: nat)
    requires WellFormed(a.p) && i < |a.p.order| && Inv(a.p, a.q, a.est, st, i, 0) && SelfLeast(a, st)
    ensures SelfLeast(a, SweepStages(a.p, a.q, a.est, st, i, k))
  {
    if k > 0 {
      SweepStagesLeast(a, st, i, k - 1);
      SweepStagesStep(a.p, a.q, a.est, st, i, k - 1);
      var mid, s := SweepStages(a.p, a.q, a.est, st, i, k - 1), Stage(a.p.order[i], k - 1);
      if s in mid.queue {
        assert FinishedAt(a.p, mid, s, i, k - 1);
        IndexOfAt(a.p.order, i);
        ProcessLeast(a, mid, s);
      }
    }
  }

  lemma {:induction false} SweepDownLeast(a: Ask, st: State, i: nat)
    requires WellFormed(a.p) && i <= |a.p.order| && Inv(a.p, a.q, a.est, st, |a.p.order| - 1, 0) && SelfLeast(a, st)
    ensures SelfLeast(a, SweepDown(a.p, a.q, a.est, st, i))
    decreases |a.p.order| - i
  {
    if i < |a.p.order| {
      SweepDownLeast(a, st, i + 1);
      SweepDownStep(a.p, a.q, a.est, st, i + 1);
      SweepStagesLeast(a, SweepDown(a.p, a.q, a.est, st, i + 1), i, a.p.stages(a.p.order[i]));
    }
  }

  /**
   * Every region reported lies in any box that holds the demands for it, and every stage was
   * traversed with bounds that lie in any that hold what is followed to it: both are least.
   */
  lemma {:induction false} SweepIsLeast(a: Ask, f: string, box: Box, x: Stage, c: DimBounds)
    requires WellFormed(a.p) && IsStage(a.p, a.root)
    ensures var st := Sweep(a.p, a.q, a.est, a.root, a.b);
      && (f in st.regions && HoldsRecorded(a, st.done, f, box) ==> BoxIn(st.regions[f], box))
      && (x in st.done && HoldsFollowed(a, st.done, x, c) ==> BoundsIn(st.done[x], c))
  {
    var start := Start(a.root, a.b);
    StartInv(a.p, a.q, a.est, a.root, a.b);
    StartLeast(a);
    SweepDownLeast(a, start, 0);
    var st := Sweep(a.p, a.q, a.est, a.root, a.b);
    assert RegionLeast(a, st.done, st, f) && DoneLeast(a, st.done, st, x);
  }

  lemma {:induction false} StartLeast(a: Ask)
    ensures SelfLeast(a, Start(a.root, a.b))
  {
    var st := Start(a.root, a.b);
    forall f ensures RegionLeast(a, st.done, st, f) {}
    forall x ensures QueuedLeast(a, st.done, st, x) {}
    forall x ensures DoneLeast(a, st.done, st, x) {}
  }
}
