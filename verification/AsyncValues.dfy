/**
 * Exactly when a consume node sees the values of the sequential program in every
 * interleaving of the forked tasks, for every run and not only for those in lockstep.
 */
module AsyncValues {
  import opened Wrappers
  import opened Ir
  import opened AsyncIr
  import opened AsyncFork
  import opened AsyncProtocol
  import opened AsyncLockstep
  import opened AsyncScopes

  /** Memory holds at least what the other memory holds. */
  predicate Includes(m: map<int, int>, n: map<int, int>) { forall loc :: loc in n ==> loc in m && m[loc] == n[loc] }

  /** The run is past the entry, and its memory holds what the sequential program had stored there. */
  ghost predicate SeesAt(t: seq<Step>, f: string, n: nat, w: Effect, run: seq<Config>, r: nat, b: nat)
    requires r < |run| && b < |t|
  {
    run[r].i <= |ProducerView(t, f, n)| && Includes(Store(ProducerView(t, f, n)[..run[r].i], w), SeqStore(t[..b], w))
  }

  /** For every effect that writes each location once, and in every interleaving. */
  ghost predicate SeesSequential(t: seq<Step>, f: string, n: nat, b: nat)
    requires b < |t|
  {
    forall w: Effect, run: seq<Config>, r: nat {:trigger SeesAt(t, f, n, w, run, r, b)}
      | WriteOnce(ProducerView(t, f, n), w) && IsRun(ProducerView(t, f, n), ConsumerView(t, f), run)
        && r < |run| && ConsumerAt(t, b + 1, f) <= run[r].j
      :: SeesAt(t, f, n, w, run, r, b)
  }

  /** A piece of the producer's work that is done only once, so that it may write a location of its own. */
  predicate Unrepeated(t: seq<Step>, a: nat) {
    a < |t| && t[a].Prod? && IsWork(t[a].pa) && forall x :: 0 <= x < |t| && t[x] == t[a] ==> x == a
  }

  /** Some consume node had been entered more often than f was produced before the work. */
  predicate Awaited(t: seq<Step>, n: nat, a: nat, b: nat)
    requires a < |t| && b < |t|
  {
    exists k: nat :: k < n && WaitedFor(t, a, b, k)
  }

  // ---- positions ----

  lemma {:induction false} WorkPosition(t: seq<Step>, f: string, n: nat, a: nat)
    requires a < |t| && t[a].Prod? && IsWork(t[a].pa)
    ensures ProducerAt(t, a + 1, f, n) == ProducerAt(t, a, f, n) + 1 <= |ProducerView(t, f, n)|
    ensures ProducerView(t, f, n)[ProducerAt(t, a, f, n)] == t[a].pa
  {
    assert t[..a + 1] == t[..a] + [t[a]];
    ProducerViewConcat(t[..a], [t[a]], f, n);
    ViewsOfOne(t[a], f, n);
    PrefixViews(t, a + 1, f, n);
    var p, i := ProducerView(t, f, n), ProducerAt(t, a, f, n);
    assert ProducerView(t[..a + 1], f, n)[i] == t[a].pa;
    assert p[..i + 1][i] == p[i];
  }

  lemma {:induction false} WorkOrigin(t: seq<Step>, f: string, n: nat, x: nat) returns (a: nat)
    requires x < |ProducerView(t, f, n)| && IsWork(ProducerView(t, f, n)[x])
    ensures a < |t| && t[a] == Prod(ProducerView(t, f, n)[x]) && ProducerAt(t, a, f, n) == x
    decreases |t|
  {
    var most, last := t[..|t| - 1], t[|t| - 1];
    assert t == most + [last];
    ProducerViewConcat(most, [last], f, n);
    ViewsOfOne(last, f, n);
    if x < |ProducerView(most, f, n)| {
      a := WorkOrigin(most, f, n, x);
      assert t[..a] == most[..a];
    } else {
      a := |t| - 1;
      StepOrigin(last, f, n, x - |ProducerView(most, f, n)|);
    }
  }

  lemma {:induction false} StepOrigin(st: Step, f: string, n: nat, x: nat)
    requires x < |ProducerStep(st, f, n)| && IsWork(ProducerStep(st, f, n)[x])
    ensures x == 0 && st == Prod(ProducerStep(st, f, n)[x])
  {
    if st == Prod(Ev(Produced)) {
      ReleasesContain(f, n, 0);
    }
  }

  // ---- enough ----

  lemma {:induction false} SeqWriter(t: seq<Step>, w: Effect, loc: int) returns (a: nat)
    requires loc in SeqStore(t, w)
    ensures a < |t| && t[a].Prod? && WriteOf(t[a].pa, w).Some? && WriteOf(t[a].pa, w).value.0 == loc
    ensures loc in SeqStore(t[..a + 1], w) && SeqStore(t[..a + 1], w)[loc] == SeqStore(t, w)[loc]
    decreases |t|
  {
    var most, last := t[..|t| - 1], t[|t| - 1];
    if last.Prod? && WriteOf(last.pa, w).Some? && WriteOf(last.pa, w).value.0 == loc {
      a := |t| - 1;
      assert t[..a + 1] == t;
    } else {
      a := SeqWriter(most, w, loc);
      assert most[..a + 1] == t[..a + 1];
    }
  }

  lemma {:induction false} WritersUnrepeated(t: seq<Step>, f: string, n: nat, w: Effect, a: nat)
    requires WriteOnce(ProducerView(t, f, n), w) && a < |t| && t[a].Prod? && WriteOf(t[a].pa, w).Some?
    ensures Unrepeated(t, a)
  {
    WorkPosition(t, f, n, a);
    forall x | 0 <= x < |t| && t[x] == t[a] ensures x == a {
      WorkPosition(t, f, n, x);
      if x < a { PositionsGrow(t, f, n, x + 1, a); }
      if a < x { PositionsGrow(t, f, n, a + 1, x); }
    }
  }

  lemma {:induction false} PositionsGrow(t: seq<Step>, f: string, n: nat, a: nat, b: nat)
    requires a <= b <= |t|
    ensures ProducerAt(t, a, f, n) <= ProducerAt(t, b, f, n)
  {
    assert t[..b][..a] == t[..a];
    PrefixViews(t[..b], a, f, n);
  }

  lemma {:induction false} AwaitedSees(t: seq<Step>, f: string, n: nat, b: nat, w: Effect, run: seq<Config>, r: nat)
    requires Tidy(t, n) && b < |t| && forall a: nat :: a < b && Unrepeated(t, a) ==> Awaited(t, n, a, b)
    requires WriteOnce(ProducerView(t, f, n), w) && IsRun(ProducerView(t, f, n), ConsumerView(t, f), run)
    requires r < |run| && ConsumerAt(t, b + 1, f) <= run[r].j
    ensures SeesAt(t, f, n, w, run, r, b)
  {
    var p := ProducerView(t, f, n);
    ViewsAreTasks(t, f, n);
    RunIsBalanced(p, ConsumerView(t, f), run, r);
    forall loc | loc in SeqStore(t[..b], w)
      ensures loc in Store(p[..run[r].i], w) && Store(p[..run[r].i], w)[loc] == SeqStore(t[..b], w)[loc]
    {
      var a := SeqWriter(t[..b], w, loc);
      assert t[..b][a] == t[a] && t[..b][..a + 1] == t[..a + 1];
      WritersUnrepeated(t, f, n, w, a);
      var k: nat :| k < n && WaitedFor(t, a, b, k);
      CoveredEntryIsOrdered(t, f, n, a, b, k);
      WorkPosition(t, f, n, a);
      PrefixViews(t, a + 1, f, n);
      StoreOfView(t[..a + 1], f, n, w);
      StoreGrows(p, ProducerAt(t, a + 1, f, n), run[r].i, w, loc);
    }
  }

  // ---- and needed ----

  /** Only this work writes. */
  function OnlyWrites(act: Action): Effect
    requires IsWork(act)
  {
    (id, args) => if id == act.e.id && args == act.e.args then Some((0, 0)) else None
  }

  lemma {:induction false} OnlyOneWrites(t: seq<Step>, f: string, n: nat, a: nat)
    requires Unrepeated(t, a)
    ensures WriteOnce(ProducerView(t, f, n), OnlyWrites(t[a].pa))
  {
    var p, w := ProducerView(t, f, n), OnlyWrites(t[a].pa);
    forall x | 0 <= x < |p| && WriteOf(p[x], w).Some? ensures x == ProducerAt(t, a, f, n) {
      assert p[x] == t[a].pa;
      var i := WorkOrigin(t, f, n, x);
    }
  }

  lemma {:induction false} NotYetWritten(t: seq<Step>, a: nat, m: nat)
    requires Unrepeated(t, a) && m <= |t|
    ensures 0 in SeqStore(t[..m], OnlyWrites(t[a].pa)) <==> a < m
    decreases m
  {
    var w := OnlyWrites(t[a].pa);
    if m > 0 {
      assert t[..m][..m - 1] == t[..m - 1] && t[..m][m - 1] == t[m - 1];
      NotYetWritten(t, a, m - 1);
      if t[m - 1].Prod? && WriteOf(t[m - 1].pa, w).Some? {
        assert t[m - 1] == t[a];
      }
    }
  }

  lemma {:induction false} UnawaitedMisses(t: seq<Step>, f: string, n: nat, a: nat, b: nat)
    requires Tidy(t, n) && n > 0 && a < b < |t| && Unrepeated(t, a) && !Awaited(t, n, a, b)
    ensures !SeesSequential(t, f, n, b)
  {
    var p, w := ProducerView(t, f, n), OnlyWrites(t[a].pa);
    var run := OvertakingRun(t, f, n, a, b);
    var r := |run| - 1;
    assert run[r] == Last(run);
    OnlyOneWrites(t, f, n, a);
    PrefixViews(t, a, f, n);
    StoreOfView(t[..a], f, n, w);
    NotYetWritten(t, a, a);
    NotYetWritten(t, a, b);
    assert !SeesAt(t, f, n, w, run, r, b);
  }

  /**
   * An entry sees the sequential values in every interleaving exactly when each unrepeated piece of
   * work before it is awaited: some consume node is entered more often by then than f was produced.
   */
  lemma {:induction false} SeesSequentialIff(t: seq<Step>, f: string, n: nat, b: nat)
    requires Tidy(t, n) && n > 0 && b < |t|
    ensures SeesSequential(t, f, n, b) <==> forall a: nat :: a < b && Unrepeated(t, a) ==> Awaited(t, n, a, b)
  {
    if forall a: nat :: a < b && Unrepeated(t, a) ==> Awaited(t, n, a, b) {
      forall w: Effect, run: seq<Config>, r: nat
        | WriteOnce(ProducerView(t, f, n), w) && IsRun(ProducerView(t, f, n), ConsumerView(t, f), run)
          && r < |run| && ConsumerAt(t, b + 1, f) <= run[r].j
        ensures SeesAt(t, f, n, w, run, r, b)
      {
        AwaitedSees(t, f, n, b, w, run, r);
      }
    } else {
      var a: nat :| a < b && Unrepeated(t, a) && !Awaited(t, n, a, b);
      UnawaitedMisses(t, f, n, a, b);
    }
  }

  // ---- every accepted body ----

  /**
   * A forked body: its tasks never get stuck exactly when no consume node is entered more often than
   * the function is produced, and an entry sees the sequential values exactly when the work is awaited.
   */
  lemma {:induction false} ForkIsRightIff(body: Stmt, env: Env, f: string, b: nat)
    requires Plain(body) && Flat(body, f) && ForkRealize(f, body).Some? && Visited(body, f) > 0
    requires b < |SeqRun(body, env, f, Visited(body, f))|
    ensures var n, t := Visited(body, f), SeqRun(body, env, f, Visited(body, f));
      var p, q := ProducerTask(body, env, f), ConsumerTask(body, env, f);
      && Run(ForkRealize(f, body).value, env, f) == Together(p, q) && p == ProducerView(t, f, n)
        && q == ConsumerView(t, f)
      && WellScoped(ForkRealize(f, body).value, f, n)
      && (NeverStuck(p, q) <==> EnoughProduces(t, n))
      && (SeesSequential(t, f, n, b) <==> forall a: nat :: a < b && Unrepeated(t, a) ==> Awaited(t, n, a, b))
  {
    var n := Visited(body, f);
    ForkRunsTasks(body, env, f);
    ForkIsScoped(f, body);
    TasksAreShares(body, env, f);
    ShapeOfSeqRun(body, env, f, n);
    DeadlockFreeIff(SeqRun(body, env, f, n), f, n);
    SeesSequentialIff(SeqRun(body, env, f, n), f, n, b);
  }
}
