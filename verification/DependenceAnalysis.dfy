/**
 * The dependence analysis as the loops of regions_required, with its memo table, and the
 * converse of closure: nothing is traversed or reported that is not required.
 */
module DependenceAnalysis {
  import opened Wrappers
  import opened Positions
  import opened Dependence

  // ---- nothing superfluous ----

  /** Some finished stage demands the function and follows it. */
  ghost predicate FollowedBy(p: Pipeline, q: Query, est: Estimates, hist: map<Stage, DimBounds>, f: string, s: Stage,
                             k: nat) {
    s in hist && k < |p.need(s, hist[s], est)| && p.need(s, hist[s], est)[k].func == f
      && Follows(p, q, s.func, p.need(s, hist[s], est)[k])
  }

  ghost predicate RecordedBy(p: Pipeline, q: Query, est: Estimates, hist: map<Stage, DimBounds>, f: string, s: Stage,
                             k: nat) {
    s in hist && k < |p.need(s, hist[s], est)| && p.need(s, hist[s], est)[k].func == f
      && Records(q, s.func, p.need(s, hist[s], est)[k])
  }

  ghost predicate Wanted(p: Pipeline, q: Query, est: Estimates, hist: map<Stage, DimBounds>, root: Stage, x: Stage) {
    x == root || exists s, k :: FollowedBy(p, q, est, hist, x.func, s, k)
  }

  ghost predicate Reported(p: Pipeline, q: Query, est: Estimates, hist: map<Stage, DimBounds>, f: string) {
    exists s, k :: RecordedBy(p, q, est, hist, f, s, k)
  }

  ghost predicate Justified(p: Pipeline, q: Query, est: Estimates, hist: map<Stage, DimBounds>, root: Stage,
                            st: State) {
    && (forall x {:trigger Wanted(p, q, est, hist, root, x)} :: x in st.queue || x in st.done ==>
      Wanted(p, q, est, hist, root, x))
    && (forall f {:trigger Reported(p, q, est, hist, f)} :: f in st.regions ==> Reported(p, q, est, hist, f))
  }

  /** A longer history justifies no less. */
  ghost predicate Extends(a: map<Stage, DimBounds>, b: map<Stage, DimBounds>) {
    forall s :: s in a ==> s in b && b[s] == a[s]
  }

  lemma {:induction false} JustifiedLater(p: Pipeline, q: Query, est: Estimates, a: map<Stage, DimBounds>,
                                          b: map<Stage, DimBounds>, root: Stage, st: State)
    requires Justified(p, q, est, a, root, st) && Extends(a, b)
    ensures Justified(p, q, est, b, root, st)
  {
    forall x | x in st.queue || x in st.done ensures Wanted(p, q, est, b, root, x) {
      assert Wanted(p, q, est, a, root, x);
      if x != root {
        var s, k :| FollowedBy(p, q, est, a, x.func, s, k);
        assert FollowedBy(p, q, est, b, x.func, s, k);
      }
    }
    forall f | f in st.regions ensures Reported(p, q, est, b, f) {
      assert Reported(p, q, est, a, f);
      var s, k :| RecordedBy(p, q, est, a, f, s, k);
      assert RecordedBy(p, q, est, b, f, s, k);
    }
  }

  lemma {:induction false} QueueKeys(p: Pipeline, st: State, f: string, pure_: DimBounds, n: nat)
    ensures var st' := QueueStages(p, st, f, pure_, n);
      && st'.regions == st.regions && st'.done == st.done
      && forall x :: x in st'.queue ==> x in st.queue || x.func == f
  {
    if n > 0 { QueueKeys(p, st, f, pure_, n - 1); }
  }

  lemma {:induction false} AbsorbJustified(p: Pipeline, q: Query, est: Estimates, hist: map<Stage, DimBounds>,
                                           root: Stage, st: State, s: Stage, n: nat)
    requires s in hist && n <= |p.need(s, hist[s], est)| && Justified(p, q, est, hist, root, st)
    ensures Justified(p, q, est, hist, root, AbsorbFirst(p, q, st, s.func, p.need(s, hist[s], est), n))
    ensures AbsorbFirst(p, q, st, s.func, p.need(s, hist[s], est), n).done == st.done
  {
    if n > 0 {
      AbsorbJustified(p, q, est, hist, root, st, s, n - 1);
      var ds := p.need(s, hist[s], est);
      var mid, d := AbsorbFirst(p, q, st, s.func, ds, n - 1), ds[n - 1];
      OneJustified(p, q, est, hist, root, mid, s, n - 1);
    }
  }

  lemma {:induction false} OneJustified(p: Pipeline, q: Query, est: Estimates, hist: map<Stage, DimBounds>,
                                        root: Stage, st: State, s: Stage, k: nat)
    requires s in hist && k < |p.need(s, hist[s], est)| && Justified(p, q, est, hist, root, st)
    ensures var st' := Absorb(p, q, st, s.func, p.need(s, hist[s], est)[k]);
      Justified(p, q, est, hist, root, st') && st'.done == st.done
  {
    var d := p.need(s, hist[s], est)[k];
    var st1 := Record(st, q, s.func, d);
    var st' := Absorb(p, q, st, s.func, d);
    QueueKeys(p, st1, d.func, Pure(p, d), p.stages(d.func));
    forall x | x in st'.queue || x in st'.done ensures Wanted(p, q, est, hist, root, x) {
      if x in st.queue || x in st.done {
        assert Wanted(p, q, est, hist, root, x);
      } else {
        assert FollowedBy(p, q, est, hist, x.func, s, k);
      }
    }
    forall f | f in st'.regions ensures Reported(p, q, est, hist, f) {
      if f in st.regions {
        assert Reported(p, q, est, hist, f);
      } else {
        assert RecordedBy(p, q, est, hist, f, s, k);
      }
    }
  }

  /** The state justified by its own finished stages. */
  ghost predicate SelfJustified(p: Pipeline, q: Query, est: Estimates, root: Stage, st: State) {
    Justified(p, q, est, st.done, root, st)
  }

  lemma {:induction false} ProcessJustified(p: Pipeline, q: Query, est: Estimates, root: Stage, st: State, s: Stage)
    requires SelfJustified(p, q, est, root, st) && s in st.queue && s !in st.done
    ensures SelfJustified(p, q, est, root, Process(p, q, est, st, s))
  {
    var b := st.queue[s];
    var hist, st1 := st.done[s := b], st.(visited := st.visited + {(s, |b|)});
    JustifiedLater(p, q, est, st.done, hist, root, st);
    assert Justified(p, q, est, hist, root, st1);
    AbsorbJustified(p, q, est, hist, root, st1, s, |p.need(s, b, est)|);
    var st2 := AbsorbFirst(p, q, st1, s.func, p.need(s, b, est), |p.need(s, b, est)|);
    var st' := Process(p, q, est, st, s);
    assert st'.done == hist;
    assert Wanted(p, q, est, hist, root, s);
    forall x | x in st'.queue || x in st'.done ensures Wanted(p, q, est, hist, root, x) {
      if x != s { assert x in st2.queue || x in st2.done; }
    }
  }

  lemma {:induction false} SweepStagesJustified(p: Pipeline, q: Query, est: Estimates, root: Stage, st: State, i: nat,
                                                k: nat)
    requires WellFormed(p) && i < |p.order| && Inv(p, q, est, st, i, 0) && SelfJustified(p, q, est, root, st)
    ensures SelfJustified(p, q, est, root, SweepStages(p, q, est, st, i, k))
  {
    if k > 0 {
      SweepStagesJustified(p, q, est, root, st, i, k - 1);
      SweepStagesStep(p, q, est, st, i, k - 1);
      TurnJustified(p, q, est, root, SweepStages(p, q, est, st, i, k - 1), Stage(p.order[i], k - 1), i, k - 1);
    }
  }

  lemma {:induction false} TurnJustified(p: Pipeline, q: Query, est: Estimates, root: Stage, st: State, s: Stage,
                                         i: nat, k: nat)
    requires WellFormed(p) && i < |p.order| && s == Stage(p.order[i], k) && Ahead(p, st, i, k, {})
      && SelfJustified(p, q, est, root, st)
    ensures SelfJustified(p, q, est, root, Turn(p, q, est, st, s))
  {
    if s in st.queue {
      assert FinishedAt(p, st, s, i, k);
      IndexOfAt(p.order, i);
      ProcessJustified(p, q, est, root, st, s);
    }
  }

  lemma {:induction false} SweepDownJustified(p: Pipeline, q: Query, est: Estimates, root: Stage, st: State, i: nat)
    requires WellFormed(p) && i <= |p.order| && Inv(p, q, est, st, |p.order| - 1, 0)
      && SelfJustified(p, q, est, root, st)
    ensures SelfJustified(p, q, est, root, SweepDown(p, q, est, st, i))
    decreases |p.order| - i
  {
    if i < |p.order| {
      SweepDownJustified(p, q, est, root, st, i + 1);
      SweepDownStep(p, q, est, st, i + 1);
      SweepStagesJustified(p, q, est, root, SweepDown(p, q, est, st, i + 1), i, p.stages(p.order[i]));
    }
  }

  /**
   * Every stage traversed is the queried one or follows from a traversed stage's demand, and so does every
   * region reported.
   */
  lemma {:induction false} SweepIsRequired(p: Pipeline, q: Query, est: Estimates, s: Stage, b: DimBounds)
    requires WellFormed(p) && IsStage(p, s)
    ensures var st := Sweep(p, q, est, s, b);
      && (forall x :: x in st.done ==> Wanted(p, q, est, st.done, s, x))
      && (forall f :: f in st.regions ==> Reported(p, q, est, st.done, f))
  {
    StartInv(p, q, est, s, b);
    var start := Start(s, b);
    assert SelfJustified(p, q, est, s, start) by {
      forall x | x in start.queue || x in start.done ensures Wanted(p, q, est, map[], s, x) {}
    }
    SweepDownJustified(p, q, est, s, start, 0);
  }

  // ---- the loops and the memo table ----

  function Compute(p: Pipeline, q: Query, est: Estimates, s: Stage, b: DimBounds): map<string, Box> {
    p.finish(Sweep(p, q, est, s, b).regions)
  }

  type Key = (Stage, Query)

  datatype Memo = Memo(bounds: DimBounds, regions: map<string, Box>)

  type Cache = map<Key, seq<Memo>>

  /** The first memo with these bounds. */
  function Recall(memos: seq<Memo>, b: DimBounds): Option<map<string, Box>> {
    if memos == [] then None
    else if memos[0].bounds == b then Some(memos[0].regions)
    else Recall(memos[1..], b)
  }

  function Memos(cache: Cache, key: Key): seq<Memo> { if key in cache then cache[key] else [] }

  /** One query: where, for which bounds and producers, under which estimates. */
  datatype Call = Call(s: Stage, b: DimBounds, q: Query, est: Estimates)

  predicate SameQuestion(a: Call, c: Call) { a.s == c.s && a.b == c.b && a.q == c.q }

  function Fresh(p: Pipeline, c: Call): map<string, Box> { Compute(p, c.q, c.est, c.s, c.b) }

  /** A remembered answer, or a computed one that is remembered. */
  function Answer(p: Pipeline, cache: Cache, c: Call): map<string, Box> {
    var known := Recall(Memos(cache, (c.s, c.q)), c.b);
    if known.Some? then known.value else Fresh(p, c)
  }

  function After(p: Pipeline, cache: Cache, c: Call): Cache {
    var memos := Memos(cache, (c.s, c.q));
    if Recall(memos, c.b).Some? then cache else cache[(c.s, c.q) := memos + [Memo(c.b, Fresh(p, c))]]
  }

  class Analysis {
    const p: Pipeline
    var cache: map<Key, seq<Memo>>

    constructor (p: Pipeline)
      ensures this.p == p && cache == map[]
    {
      this.p := p;
      cache := map[];
    }

    /** The answer remembered for the question, or else a fresh computation, by one sweep. */
    method RegionsRequired(s: Stage, b: DimBounds, q: Query, est: Estimates) returns (r: map<string, Box>)
      requires WellFormed(p) && IsStage(p, s)
      modifies this
      ensures r == Answer(p, old(cache), Call(s, b, q, est)) && cache == After(p, old(cache), Call(s, b, q, est))
    {
      if (s, q) in cache {
        var memos, j := cache[(s, q)], 0;
        while j < |memos|
          invariant j <= |memos| && cache == old(cache) && Recall(memos, b) == Recall(memos[j..], b)
        {
          if memos[j].bounds == b { return memos[j].regions; }
          j := j + 1;
        }
      }
      assert Recall(Memos(cache, (s, q)), b).None?;
      var st := Start(s, b);
      SweepCloses(p, q, est, s, b);
      ghost var sweeps := 0;
      while st.queue != map[]
        invariant if sweeps == 0 then st == Start(s, b) else st == Sweep(p, q, est, s, b) && st.queue == map[]
        invariant cache == old(cache)
        decreases if st.queue == map[] then 0 else 1
      {
        st := SweepOnce(st, q, est);
        sweeps := sweeps + 1;
      }
      assert sweeps == 0 ==> s in st.queue;
      r := p.finish(st.regions);
      cache := cache[(s, q) := (if (s, q) in cache then cache[(s, q)] else []) + [Memo(b, r)]];
    }

    method SweepOnce(st0: State, q: Query, est: Estimates) returns (st: State)
      ensures st == SweepDown(p, q, est, st0, 0)
    {
      st := st0;
      var i := |p.order|;
      while i > 0
        invariant 0 <= i <= |p.order| && st == SweepDown(p, q, est, st0, i)
      {
        i := i - 1;
        ghost var before := st;
        var k := 0;
        while k < p.stages(p.order[i])
          invariant k <= p.stages(p.order[i]) && st == SweepStages(p, q, est, before, i, k)
        {
          var x := Stage(p.order[i], k);
          if x in st.queue { st := ProcessOnce(st, x, q, est); }
          k := k + 1;
        }
      }
    }

    method ProcessOnce(st0: State, x: Stage, q: Query, est: Estimates) returns (st: State)
      requires x in st0.queue
      ensures st == Process(p, q, est, st0, x)
    {
      var bounds := st0.queue[x];
      var ds := p.need(x, bounds, est);
      st := AbsorbOnce(st0.(visited := st0.visited + {(x, |bounds|)}), x.func, ds, q);
      st := st.(queue := st.queue - {x}, done := st.done[x := bounds]);
    }

    method AbsorbOnce(st0: State, f: string, ds: seq<Demand>, q: Query) returns (st: State)
      ensures st == AbsorbFirst(p, q, st0, f, ds, |ds|)
    {
      st := st0;
      var n := 0;
      while n < |ds|
        invariant n <= |ds| && st == AbsorbFirst(p, q, st0, f, ds, n)
      {
        st := MergeAndQueue(st, f, ds[n], q);
        n := n + 1;
      }
    }

    method MergeAndQueue(st0: State, f: string, d: Demand, q: Query) returns (st: State)
      ensures st == Absorb(p, q, st0, f, d)
    {
      st := st0;
      if !q.onlyComputed || d.func != f {
        var box := if d.func in st.regions then JoinBox(st.regions[d.func], d.box) else d.box;
        st := st.(regions := st.regions[d.func := box]);
      }
      if !(d.func in q.prods && d.func in p.order && d.func != f) { return; }
      var pureBounds, t := Pure(p, d), 0;
      ghost var start := st;
      while t < p.stages(d.func)
        invariant t <= p.stages(d.func) && st == QueueStages(p, start, d.func, pureBounds, t)
      {
        st := QueueStage(st, Stage(d.func, t), p.stageBounds(d.func, pureBounds, t));
        t := t + 1;
      }
    }
  }

  // ---- runs of queries: the memo key leaves the estimates out ----

  function CacheAfter(p: Pipeline, calls: seq<Call>): Cache {
    if calls == [] then map[]
    else After(p, CacheAfter(p, calls[..|calls| - 1]), calls[|calls| - 1])
  }

  /** The answer to the n-th of a run of queries. */
  function AnswerTo(p: Pipeline, calls: seq<Call>, n: nat): map<string, Box>
    requires n < |calls|
  {
    Answer(p, CacheAfter(p, calls[..n]), calls[n])
  }

  /** The first query that asks the same question. */
  function FirstAsked(calls: seq<Call>, c: Call): (k: nat)
    ensures k <= |calls| && (k < |calls| ==> SameQuestion(calls[k], c))
    ensures forall j :: 0 <= j < k ==> !SameQuestion(calls[j], c)
  {
    if calls == [] then 0
    else
      var k := FirstAsked(calls[..|calls| - 1], c);
      if k < |calls| - 1 || SameQuestion(calls[|calls| - 1], c) then k else |calls|
  }

  lemma {:induction false} RecallSnoc(memos: seq<Memo>, m: Memo, b: DimBounds)
    ensures Recall(memos + [m], b) ==
      if Recall(memos, b).Some? then Recall(memos, b) else if m.bounds == b then Some(m.regions) else None
  {
    if memos != [] {
      assert (memos + [m])[1..] == memos[1..] + [m];
      RecallSnoc(memos[1..], m, b);
    }
  }

  /** What is remembered of a question is the answer computed when it was first asked. */
  lemma {:induction false} RemembersFirst(p: Pipeline, calls: seq<Call>, c: Call)
    ensures var k := FirstAsked(calls, c);
      Recall(Memos(CacheAfter(p, calls), (c.s, c.q)), c.b) == if k < |calls| then Some(Fresh(p, calls[k])) else None
  {
    if calls != [] {
      var n := |calls| - 1;
      RemembersFirst(p, calls[..n], c);
      RemembersFirst(p, calls[..n], calls[n]);
      var cache, last := CacheAfter(p, calls[..n]), calls[n];
      RecallSnoc(Memos(cache, (last.s, last.q)), Memo(last.b, Fresh(p, last)), c.b);
    }
  }

  /** In every run, each answer is the one computed under the estimates of the first query that asked it. */
  lemma {:induction false} AnswersFirst(p: Pipeline, calls: seq<Call>, n: nat)
    requires n < |calls|
    ensures AnswerTo(p, calls, n) == Fresh(p, calls[FirstAsked(calls, calls[n])])
  {
    RemembersFirst(p, calls[..n], calls[n]);
    var k := FirstAsked(calls[..n], calls[n]);
    assert forall j :: 0 <= j < n ==> calls[..n][j] == calls[j];
    assert FirstAsked(calls, calls[n]) == k;
  }

  /** A run is answered rightly exactly when no question changes its answer between its first query and a later one. */
  lemma {:induction false} RunRightIff(p: Pipeline, calls: seq<Call>)
    ensures (forall n :: 0 <= n < |calls| ==> AnswerTo(p, calls, n) == Fresh(p, calls[n])) <==>
      forall k, n :: 0 <= k <= n < |calls| && SameQuestion(calls[k], calls[n]) ==>
        Fresh(p, calls[k]) == Fresh(p, calls[n])
  {
    forall n | 0 <= n < |calls| ensures AnswerTo(p, calls, n) == Fresh(p, calls[FirstAsked(calls, calls[n])]) {
      AnswersFirst(p, calls, n);
    }
    if forall n :: 0 <= n < |calls| ==> AnswerTo(p, calls, n) == Fresh(p, calls[n]) {
      forall k, n | 0 <= k <= n < |calls| && SameQuestion(calls[k], calls[n])
        ensures Fresh(p, calls[k]) == Fresh(p, calls[n])
      {
        assert AnswerTo(p, calls, n) == Fresh(p, calls[n]) && AnswerTo(p, calls, k) == Fresh(p, calls[k]);
        SameFirst(calls, calls[k], calls[n]);
      }
    }
  }

  lemma {:induction false} SameFirst(calls: seq<Call>, a: Call, c: Call)
    requires SameQuestion(a, c)
    ensures FirstAsked(calls, a) == FirstAsked(calls, c)
  {
    assert forall j :: 0 <= j < |calls| ==> (SameQuestion(calls[j], a) <==> SameQuestion(calls[j], c));
  }

  // ---- when two estimates give the same answer ----

  /** The two estimates ask the same of every stage in the history. */
  ghost predicate SameNeeds(p: Pipeline, hist: map<Stage, DimBounds>, est: Estimates, est': Estimates) {
    forall x {:trigger hist[x]} :: x in hist ==> p.need(x, hist[x], est) == p.need(x, hist[x], est')
  }

  lemma {:induction false} StagesAgree(p: Pipeline, q: Query, est: Estimates, est': Estimates, st: State, i: nat,
                                       k: nat)
    requires WellFormed(p) && i < |p.order| && Inv(p, q, est, st, i, 0)
    requires SameNeeds(p, SweepStages(p, q, est, st, i, k).done, est, est')
    ensures SweepStages(p, q, est', st, i, k) == SweepStages(p, q, est, st, i, k)
  {
    if k > 0 {
      var mid, s := SweepStages(p, q, est, st, i, k - 1), Stage(p.order[i], k - 1);
      SweepStagesStep(p, q, est, st, i, k - 1);
      TurnExtends(p, q, est, mid, s, i, k - 1);
      var hist := SweepStages(p, q, est, st, i, k).done;
      assert forall x :: x in mid.done ==> hist[x] == mid.done[x];
      StagesAgree(p, q, est, est', st, i, k - 1);
      if s in mid.queue { assert hist[s] == mid.queue[s]; }
    }
  }

  lemma {:induction false} TurnExtends(p: Pipeline, q: Query, est: Estimates, st: State, s: Stage, i: nat, k: nat)
    requires WellFormed(p) && i < |p.order| && s == Stage(p.order[i], k) && Ahead(p, st, i, k, {})
    ensures Extends(st.done, Turn(p, q, est, st, s).done)
    ensures s in st.queue ==> s in Turn(p, q, est, st, s).done && Turn(p, q, est, st, s).done[s] == st.queue[s]
  {
    if s in st.queue {
      assert FinishedAt(p, st, s, i, k);
      IndexOfAt(p.order, i);
      var ds := p.need(s, st.queue[s], est);
      AbsorbDone(p, q, st.(visited := st.visited + {(s, |st.queue[s]|)}), s.func, ds, |ds|);
    }
  }

  lemma {:induction false} AbsorbDone(p: Pipeline, q: Query, st: State, f: string, ds: seq<Demand>, n: nat)
    requires n <= |ds|
    ensures AbsorbFirst(p, q, st, f, ds, n).done == st.done
  {
    if n > 0 {
      AbsorbDone(p, q, st, f, ds, n - 1);
      var d := ds[n - 1];
      QueueKeys(p, Record(AbsorbFirst(p, q, st, f, ds, n - 1), q, f, d), d.func, Pure(p, d), p.stages(d.func));
    }
  }

  lemma {:induction false} StagesExtend(p: Pipeline, q: Query, est: Estimates, st: State, i: nat, k: nat)
    requires WellFormed(p) && i < |p.order| && Inv(p, q, est, st, i, 0)
    ensures Extends(st.done, SweepStages(p, q, est, st, i, k).done)
  {
    if k > 0 {
      StagesExtend(p, q, est, st, i, k - 1);
      SweepStagesStep(p, q, est, st, i, k - 1);
      TurnExtends(p, q, est, SweepStages(p, q, est, st, i, k - 1), Stage(p.order[i], k - 1), i, k - 1);
    }
  }

  lemma {:induction false} DownAgree(p: Pipeline, q: Query, est: Estimates, est': Estimates, st: State, i: nat)
    requires WellFormed(p) && i <= |p.order| && Inv(p, q, est, st, |p.order| - 1, 0)
    requires SameNeeds(p, SweepDown(p, q, est, st, i).done, est, est')
    ensures SweepDown(p, q, est', st, i) == SweepDown(p, q, est, st, i)
    decreases |p.order| - i
  {
    if i < |p.order| {
      SweepDownStep(p, q, est, st, i + 1);
      var mid, n := SweepDown(p, q, est, st, i + 1), p.stages(p.order[i]);
      StagesExtend(p, q, est, mid, i, n);
      var hist := SweepDown(p, q, est, st, i).done;
      assert forall x :: x in mid.done ==> hist[x] == mid.done[x];
      DownAgree(p, q, est, est', st, i + 1);
      StagesAgree(p, q, est, est', mid, i, n);
    }
  }

  /** Two estimates under which every traversed stage needs the same give the same answer. */
  lemma {:induction false} EstimatesAgree(p: Pipeline, c: Call, est: Estimates)
    requires WellFormed(p) && IsStage(p, c.s) && SameNeeds(p, Sweep(p, c.q, c.est, c.s, c.b).done, c.est, est)
    ensures Fresh(p, c) == Fresh(p, Call(c.s, c.b, c.q, est))
  {
    StartInv(p, c.q, c.est, c.s, c.b);
    DownAgree(p, c.q, c.est, est, Start(c.s, c.b), 0);
  }

  /** The same question under other estimates: the second answer is the first. */
  method AskTwice(p: Pipeline, c: Call, est: Estimates) returns (first: map<string, Box>, second: map<string, Box>)
    requires WellFormed(p) && IsStage(p, c.s)
    ensures first == Fresh(p, c) && second == first
  {
    var analysis := new Analysis(p);
    first := analysis.RegionsRequired(c.s, c.b, c.q, c.est);
    assert Memos(analysis.cache, (c.s, c.q)) == [Memo(c.b, first)];
    second := analysis.RegionsRequired(c.s, c.b, c.q, est);
  }

  // ---- which runs are answered rightly ----

  /** Every answer is what computing it under its own estimates gives. */
  ghost predicate Answered(p: Pipeline, calls: seq<Call>) {
    forall n :: 0 <= n < |calls| ==> AnswerTo(p, calls, n) == Fresh(p, calls[n])
  }

  /** The queries are about stages of the pipeline. */
  predicate Asks(p: Pipeline, calls: seq<Call>) { forall n :: 0 <= n < |calls| ==> IsStage(p, calls[n].s) }

  /** A question asked again is asked under the same estimates. */
  predicate Steady(calls: seq<Call>) {
    forall k, n :: 0 <= k <= n < |calls| && SameQuestion(calls[k], calls[n]) ==> calls[k].est == calls[n].est
  }

  lemma {:induction false} SteadyIsRight(p: Pipeline, calls: seq<Call>)
    requires Steady(calls)
    ensures Answered(p, calls)
  {
    RunRightIff(p, calls);
    forall k, n | 0 <= k <= n < |calls| && SameQuestion(calls[k], calls[n])
      ensures Fresh(p, calls[k]) == Fresh(p, calls[n])
    {
      assert calls[k] == calls[n];
    }
  }

  /** Under fixed estimates the memo table returns what recomputation would. */
  lemma {:induction false} FixedEstimatesAreRight(p: Pipeline, calls: seq<Call>, est: Estimates)
    requires forall n :: 0 <= n < |calls| ==> calls[n].est == est
    ensures Answered(p, calls)
  {
    SteadyIsRight(p, calls);
  }

  /** The functions asked about, each once. */
  function Asked(calls: seq<Call>): (fs: seq<string>)
    ensures forall n :: 0 <= n < |calls| ==> calls[n].s.func in fs
    ensures forall i, j :: 0 <= i < j < |fs| ==> fs[i] != fs[j]
  {
    if calls == [] then []
    else
      var fs, f := Asked(calls[..|calls| - 1]), calls[|calls| - 1].s.func;
      if f in fs then fs else fs + [f]
  }

  function Deepest(calls: seq<Call>): (d: nat)
    ensures forall n :: 0 <= n < |calls| ==> calls[n].s.stage < d
  {
    if calls == [] then 0
    else
      var d, k := Deepest(calls[..|calls| - 1]), calls[|calls| - 1].s.stage;
      if k < d then d else k + 1
  }

  /** A name longer than all of these. */
  function LongName(fs: seq<string>): (g: string)
    ensures g != "" && forall i :: 0 <= i < |fs| ==> |fs[i]| < |g|
  {
    if fs == [] then "g" else LongName(fs[..|fs| - 1]) + fs[|fs| - 1]
  }

  /** The stages asked about, which need one more function under `est0` and nothing under other estimates. */
  function Probe(calls: seq<Call>, est0: Estimates): Pipeline {
    var g, d := LongName(Asked(calls)), Deepest(calls);
    Pipeline(Asked(calls), _ => [], _ => 0, _ => d,
             (s: Stage, b: DimBounds, est: Estimates) => if est == est0 then [Demand(g, [])] else [],
             (f: string, b: DimBounds, k: nat) => map[], (r: map<string, Box>) => r)
  }

  lemma {:induction false} ProbeIsWellFormed(calls: seq<Call>, est0: Estimates)
    ensures WellFormed(Probe(calls, est0)) && Asks(Probe(calls, est0), calls) && LongName(Asked(calls)) !in Asked(calls)
  {
    var g := LongName(Asked(calls));
    assert forall i :: 0 <= i < |Asked(calls)| ==> |Asked(calls)[i]| < |g|;
  }

  /** The extra function is in the answer exactly under `est0`. */
  lemma {:induction false} ProbeTells(calls: seq<Call>, est0: Estimates, n: nat)
    requires n < |calls|
    ensures LongName(Asked(calls)) in Fresh(Probe(calls, est0), calls[n]) <==> calls[n].est == est0
  {
    var p, c, g := Probe(calls, est0), calls[n], LongName(Asked(calls));
    ProbeIsWellFormed(calls, est0);
    var st := Sweep(p, c.q, c.est, c.s, c.b);
    SweepCloses(p, c.q, c.est, c.s, c.b);
    SweepIsRequired(p, c.q, c.est, c.s, c.b);
    assert c.s.func in p.order && c.s.func != g;
    assert g in st.regions ==> Reported(p, c.q, c.est, st.done, g);
    if c.est == est0 {
      assert p.need(c.s, st.done[c.s], c.est)[0] == Demand(g, []);
      assert Satisfied(p, c.q, st, c.s.func, p.need(c.s, st.done[c.s], c.est)[0]);
    }
  }

  /**
   * A run of queries is answered rightly for every pipeline if and only if every question that is
   * asked again is asked under the same estimates.
   */
  lemma {:induction false} AlwaysRightIff(calls: seq<Call>)
    ensures (forall p: Pipeline {:trigger Asks(p, calls)} :: WellFormed(p) && Asks(p, calls) ==> Answered(p, calls))
      <==> Steady(calls)
  {
    if Steady(calls) {
      forall p: Pipeline ensures Answered(p, calls) { SteadyIsRight(p, calls); }
    } else {
      var k, n :| 0 <= k <= n < |calls| && SameQuestion(calls[k], calls[n]) && calls[k].est != calls[n].est;
      var p := UnsteadyRun(calls, k, n);
    }
  }

  lemma {:induction false} UnsteadyRun(calls: seq<Call>, k: nat, n: nat) returns (p: Pipeline)
    requires k <= n < |calls| && SameQuestion(calls[k], calls[n]) && calls[k].est != calls[n].est
    ensures WellFormed(p) && Asks(p, calls) && !Answered(p, calls)
  {
    p := Probe(calls, calls[n].est);
    ProbeIsWellFormed(calls, calls[n].est);
    ProbeTells(calls, calls[n].est, n);
    ProbeTells(calls, calls[n].est, k);
    RunRightIff(p, calls);
    assert Fresh(p, calls[k]) != Fresh(p, calls[n]);
  }

  /** Asking once under each of two different estimates gets a wrong second answer from some pipeline. */
  lemma {:induction false} StaleMemo(c: Call, est: Estimates) returns (p: Pipeline)
    requires c.est != est
    ensures var again := Call(c.s, c.b, c.q, est);
      WellFormed(p) && IsStage(p, c.s) && AnswerTo(p, [c, again], 1) == Fresh(p, c) != Fresh(p, again)
  {
    var again := Call(c.s, c.b, c.q, est);
    var calls := [c, again];
    p := Probe(calls, est);
    ProbeIsWellFormed(calls, est);
    assert IsStage(p, calls[0].s);
    ProbeTells(calls, est, 0);
    ProbeTells(calls, est, 1);
    AnswersFirst(p, calls, 1);
    assert SameQuestion(calls[0], calls[1]) && FirstAsked(calls, calls[1]) == 0;
  }
}
