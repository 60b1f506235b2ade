/**
 * The two tasks of a forked realization, run concurrently with counting semaphores.
 *
 * A configuration says how far each task has got and what the semaphores hold.
 * The lemmas quantify over every interleaving.
 */
module AsyncProtocol {
  import opened Ir
  import opened AsyncIr
  import opened AsyncFork

  // ---- the machine ----

  datatype Config = Config(i: nat, j: nat, sem: map<string, int>)

  function Held(sem: map<string, int>, x: string): int { if x in sem then sem[x] else 0 }

  predicate Enabled(a: Action, sem: map<string, int>)
  {
    a.Ev? && a.e.Acq? ==> Held(sem, a.e.sema) >= a.e.count
  }

  function Perform(a: Action, sem: map<string, int>): map<string, int>
  {
    match a
    case Ev(Acq(x, count)) => sem[x := Held(sem, x) - count]
    case Ev(Rel(x)) => sem[x := Held(sem, x) + 1]
    case _ => sem
  }

  predicate ProducerMoves(p: seq<Action>, c: Config, c': Config)
  {
    c.i < |p| && Enabled(p[c.i], c.sem) && c' == Config(c.i + 1, c.j, Perform(p[c.i], c.sem))
  }

  predicate ConsumerMoves(q: seq<Action>, c: Config, c': Config)
  {
    c.j < |q| && Enabled(q[c.j], c.sem) && c' == Config(c.i, c.j + 1, Perform(q[c.j], c.sem))
  }

  predicate Moves(p: seq<Action>, q: seq<Action>, c: Config, c': Config)
  {
    ProducerMoves(p, c, c') || ConsumerMoves(q, c, c')
  }

  predicate CanMove(p: seq<Action>, q: seq<Action>, c: Config)
  {
    (c.i < |p| && Enabled(p[c.i], c.sem)) || (c.j < |q| && Enabled(q[c.j], c.sem))
  }

  predicate Finished(p: seq<Action>, q: seq<Action>, c: Config) { c.i == |p| && c.j == |q| }

  /** A run from fresh semaphores, which all hold zero. */
  ghost predicate IsRun(p: seq<Action>, q: seq<Action>, run: seq<Config>)
  {
    && run != []
    && run[0] == Config(0, 0, map[])
    && forall r :: 0 < r < |run| ==> Moves(p, q, run[r - 1], run[r])
  }

  function Last(run: seq<Config>): Config requires run != [] { run[|run| - 1] }

  // ---- counting ----

  function Rels(acts: seq<Action>, x: string): nat
  {
    if acts == [] then 0
    else Rels(acts[..|acts| - 1], x) + if acts[|acts| - 1] == Ev(Rel(x)) then 1 else 0
  }

  function Acqs(acts: seq<Action>, x: string): nat
  {
    if acts == [] then 0
    else Acqs(acts[..|acts| - 1], x) + if acts[|acts| - 1] == Ev(Acq(x, 1)) then 1 else 0
  }

  /** How many produce nodes have ended. */
  function NumProduced(t: seq<Step>): nat
  {
    if t == [] then 0
    else NumProduced(t[..|t| - 1]) + if t[|t| - 1] == Prod(Ev(Produced)) then 1 else 0
  }

  /** How often consume node k has been reached. */
  function NumMarks(t: seq<Step>, k: nat): nat
  {
    if t == [] then 0
    else NumMarks(t[..|t| - 1], k) + if t[|t| - 1] == Mark(k) then 1 else 0
  }

  lemma {:induction false} RelsConcat(u: seq<Action>, v: seq<Action>, x: string)
    ensures Rels(u + v, x) == Rels(u, x) + Rels(v, x)
  {
    if v == [] {
      assert u + v == u;
    } else {
      assert (u + v)[..|u + v| - 1] == u + v[..|v| - 1];
      RelsConcat(u, v[..|v| - 1], x);
    }
  }

  lemma {:induction false} AcqsConcat(u: seq<Action>, v: seq<Action>, x: string)
    ensures Acqs(u + v, x) == Acqs(u, x) + Acqs(v, x)
  {
    if v == [] {
      assert u + v == u;
    } else {
      assert (u + v)[..|u + v| - 1] == u + v[..|v| - 1];
      AcqsConcat(u, v[..|v| - 1], x);
    }
  }

  lemma {:induction false} NumConcat(t: seq<Step>, u: seq<Step>, k: nat)
    ensures NumProduced(t + u) == NumProduced(t) + NumProduced(u)
    ensures NumMarks(t + u, k) == NumMarks(t, k) + NumMarks(u, k)
  {
    if u == [] {
      assert t + u == t;
    } else {
      assert (t + u)[..|t + u| - 1] == t + u[..|u| - 1];
      NumConcat(t, u[..|u| - 1], k);
    }
  }

  lemma RelsMonotone(p: seq<Action>, i: nat, i': nat, x: string)
    requires i <= i' <= |p|
    ensures Rels(p[..i], x) <= Rels(p[..i'], x)
  {
    assert p[..i'] == p[..i] + p[i..i'];
    RelsConcat(p[..i], p[i..i'], x);
  }

  lemma AcqsMonotone(q: seq<Action>, j: nat, j': nat, x: string)
    requires j <= j' <= |q|
    ensures Acqs(q[..j], x) <= Acqs(q[..j'], x)
  {
    assert q[..j'] == q[..j] + q[j..j'];
    AcqsConcat(q[..j], q[j..j'], x);
  }

  // ---- shape of a tagged run ----

  /** The producer's steps are work and end marks, the consumer's are work and entries. */
  ghost predicate Tidy(t: seq<Step>, n: nat)
  {
    forall a :: 0 <= a < |t| ==>
      match t[a]
      case Prod(x) => IsWork(x) || x == Ev(Produced)
      case Cons(x) => IsWork(x) || x == Ev(Entered)
      case Mark(k) => k < n
  }

  /** No produce node is half done at the end of t. */
  predicate Closed(t: seq<Step>)
  {
    t == [] || t[|t| - 1] == Prod(Ev(Produced)) || (!t[|t| - 1].Prod? && Closed(t[..|t| - 1]))
  }

  /** Control is only ever outside produce nodes when the consumer's steps happen. */
  ghost predicate WellBracketed(t: seq<Step>)
  {
    Closed(t) && forall b :: 0 <= b < |t| && !t[b].Prod? ==> Closed(t[..b])
  }

  lemma {:induction false} ClosedConcat(t: seq<Step>, u: seq<Step>)
    requires Closed(t) && Closed(u)
    ensures Closed(t + u)
  {
    if u == [] {
      assert t + u == t;
    } else {
      assert (t + u)[..|t + u| - 1] == t + u[..|u| - 1];
      if u[|u| - 1] != Prod(Ev(Produced)) { ClosedConcat(t, u[..|u| - 1]); }
    }
  }

  lemma {:induction false} WellBracketedConcat(t: seq<Step>, u: seq<Step>)
    requires WellBracketed(t) && WellBracketed(u)
    ensures WellBracketed(t + u)
  {
    ClosedConcat(t, u);
    forall b | 0 <= b < |t + u| && !(t + u)[b].Prod?
      ensures Closed((t + u)[..b])
    {
      if b < |t| {
        assert (t + u)[..b] == t[..b];
      } else {
        assert (t + u)[..b] == t + u[..b - |t|];
        ClosedConcat(t, u[..b - |t|]);
      }
    }
  }

  lemma OneBracketed(st: Step)
    requires !st.Prod?
    ensures WellBracketed([st])
  {
    assert [st][..0] == [];
    assert Closed([st][..0]);
  }

  lemma {:induction false} ConsBracketed(run: seq<Action>)
    ensures WellBracketed(AsCons(run))
    decreases |run|
  {
    if run != [] {
      var most := run[..|run| - 1];
      ConsBracketed(most);
      assert AsCons(run) == AsCons(most) + [Cons(run[|run| - 1])];
      OneBracketed(Cons(run[|run| - 1]));
      WellBracketedConcat(AsCons(most), [Cons(run[|run| - 1])]);
    }
  }

  lemma {:induction false} ShapeOfSeqRun(s: Stmt, env: Env, f: string, n: nat)
    requires Plain(s) && Flat(s, f) && Visited(s, f) <= n
    ensures Tidy(SeqRun(s, env, f, n), n) && WellBracketed(SeqRun(s, env, f, n))
    decreases s, 0
  {
    match s
    case NoOp => ConsBracketed(Run(s, env, f));
    case Leaf(_, _, _) => ConsBracketed(Run(s, env, f));
    case LetStmt(x, v, b) => ShapeOfSeqRun(b, env[x := Eval(v, env)], f, n);
    case For(x, lo, extent, b) =>
      var count := Eval(extent, env);
      ShapeOfSeqLoop(b, x, Eval(lo, env), if count < 0 then 0 else count, env, f, n);
    case Block(_, _) => ShapeOfBlock(s, env, f, n);
    case Realize(_, b) => ShapeOfSeqRun(b, env, f, n);
    case Allocate(_, b) => ShapeOfSeqRun(b, env, f, n);
    case IfThenElse(c, t, e) =>
      ShapeOfSeqRun(t, env, f, n);
      ShapeOfSeqRun(e, env, f, n - Visited(t, f));
    case ProducerConsumer(g, isProducer, b) =>
      if g != f {
        ShapeOfSeqRun(b, env, f, n);
      } else {
        ShapeOfNode(isProducer, b, env, f, n);
      }
  }

  lemma {:induction false} ShapeOfBlock(s: Stmt, env: Env, f: string, n: nat)
    requires s.Block? && Plain(s) && Flat(s, f) && Visited(s, f) <= n
    ensures Tidy(SeqRun(s, env, f, n), n) && WellBracketed(SeqRun(s, env, f, n))
    decreases s, -1
  {
    var m := n - Visited(s.first, f);
    ShapeOfSeqRun(s.first, env, f, n);
    ShapeOfSeqRun(s.rest, env, f, m);
    WellBracketedConcat(SeqRun(s.first, env, f, n), SeqRun(s.rest, env, f, m));
  }

  lemma {:induction false} ShapeOfNode(isProducer: bool, b: Stmt, env: Env, f: string, n: nat)
    requires Plain(b) && Untouched(b, f) && (isProducer || n > 0)
    ensures
      var t := SeqRun(ProducerConsumer(f, isProducer, b), env, f, n);
      Tidy(t, n) && WellBracketed(t)
  {
    var run := Run(ProducerConsumer(f, isProducer, b), env, f);
    PlainRunsWork(b, env, f);
    if !isProducer {
      ConsBracketed(run);
      OneBracketed(Mark(n - 1));
      WellBracketedConcat([Mark(n - 1)], AsCons(run));
    }
  }

  lemma {:induction false} ShapeOfSeqLoop(b: Stmt, x: string, lo: int, iters: nat, env: Env, f: string, n: nat)
    requires Plain(b) && Flat(b, f) && Visited(b, f) <= n
    ensures Tidy(SeqLoop(b, x, lo, iters, env, f, n), n) && WellBracketed(SeqLoop(b, x, lo, iters, env, f, n))
    decreases b, iters + 1
  {
    if iters > 0 {
      ShapeOfSeqLoop(b, x, lo, iters - 1, env, f, n);
      ShapeOfSeqRun(b, env[x := lo + iters - 1], f, n);
      WellBracketedConcat(SeqLoop(b, x, lo, iters - 1, env, f, n), SeqRun(b, env[x := lo + iters - 1], f, n));
    }
  }

  // ---- what the views contain ----

  predicate ProducerSide(a: Action) { a.Ev? && (a.e.Do? || a.e.Produced? || a.e.Rel?) }

  predicate IsAcquire(a: Action) { a.Ev? && a.e.Acq? }

  predicate ConsumerSide(a: Action) { a.Ev? && (a.e.Do? || a.e.Entered? || (a.e.Acq? && a.e.count == 1)) }

  lemma {:induction false} ReleasesContain(f: string, n: nat, k: nat)
    ensures forall a :: a in Releases(f, n) ==> a.Ev? && a.e.Rel?
    ensures Rels(Releases(f, n), SemaName(f, k)) == if k < n then 1 else 0
  {
    if n > 0 {
      ReleasesContain(f, n - 1, k);
      var one := [Ev(Rel(SemaName(f, n - 1)))];
      assert one[..0] == [];
      RelsConcat(one, Releases(f, n - 1), SemaName(f, k));
      SemaNameInjective(f, n - 1, k);
    }
  }

  lemma {:induction false} ProducerViewCounts(t: seq<Step>, f: string, n: nat, k: nat)
    requires Tidy(t, n) && k < n
    ensures forall a :: a in ProducerView(t, f, n) ==> ProducerSide(a)
    ensures Rels(ProducerView(t, f, n), SemaName(f, k)) == NumProduced(t)
    decreases |t|
  {
    if t != [] {
      var most, last := t[..|t| - 1], t[|t| - 1];
      assert t == most + [last];
      ProducerViewCounts(most, f, n, k);
      ProducerViewConcat(most, [last], f, n);
      ViewsOfOne(last, f, n);
      RelsConcat(ProducerView(most, f, n), ProducerStep(last, f, n), SemaName(f, k));
      ProducerStepCounts(last, f, n, k);
    }
  }

  lemma {:induction false} ProducerStepCounts(st: Step, f: string, n: nat, k: nat)
    requires Tidy([st], n) && k < n
    ensures forall a :: a in ProducerStep(st, f, n) ==> ProducerSide(a)
    ensures Rels(ProducerStep(st, f, n), SemaName(f, k)) == if st == Prod(Ev(Produced)) then 1 else 0
  {
    assert [st][0] == st;
    if st == Prod(Ev(Produced)) {
      ReleasesContain(f, n, k);
      var mark := [Ev(Produced)];
      assert mark[..0] == [];
      RelsConcat(Releases(f, n), mark, SemaName(f, k));
    } else if st.Prod? {
      assert [st.pa][..0] == [];
    }
  }

  lemma {:induction false} ConsumerViewCounts(t: seq<Step>, f: string, n: nat, k: nat)
    requires Tidy(t, n)
    ensures Acqs(ConsumerView(t, f), SemaName(f, k)) == NumMarks(t, k)
    decreases |t|
  {
    if t != [] {
      var most, last := t[..|t| - 1], t[|t| - 1];
      assert t == most + [last];
      ConsumerViewCounts(most, f, n, k);
      ConsumerViewConcat(most, [last], f);
      ViewsOfOne(last, f, n);
      AcqsConcat(ConsumerView(most, f), ConsumerStep(last, f), SemaName(f, k));
      ConsumerStepCounts(last, f, n, k);
    }
  }

  lemma {:induction false} ConsumerStepCounts(st: Step, f: string, n: nat, k: nat)
    requires Tidy([st], n)
    ensures Acqs(ConsumerStep(st, f), SemaName(f, k)) == if st == Mark(k) then 1 else 0
  {
    assert [st][0] == st;
    if !st.Prod? {
      assert ConsumerStep(st, f)[..0] == [];
      if st.Mark? { SemaNameInjective(f, st.node, k); }
    }
  }

  /** The consumer acquires one at a time, and only the semaphores of its nodes. */
  predicate ConsumerAction(a: Action, f: string, n: nat)
  {
    ConsumerSide(a) && (IsAcquire(a) ==> exists k: nat :: k < n && a.e.sema == SemaName(f, k))
  }

  lemma {:induction false} ConsumerViewActions(t: seq<Step>, f: string, n: nat)
    requires Tidy(t, n)
    ensures forall a :: a in ConsumerView(t, f) ==> ConsumerAction(a, f, n)
    decreases |t|
  {
    if t != [] {
      assert forall i :: 0 <= i < |t[1..]| ==> t[1..][i] == t[i + 1];
      ConsumerViewActions(t[1..], f, n);
      assert t[0] == t[0];
      if t[0].Mark? { assert t[0].node < n; }
    }
  }

  // ---- invariants of every interleaving ----

  ghost predicate Tasks(p: seq<Action>, q: seq<Action>)
  {
    (forall a :: a in p ==> ProducerSide(a)) && (forall a :: a in q ==> ConsumerSide(a))
  }

  /** Every semaphore holds what was released minus what was acquired, and never less than zero. */
  ghost predicate Balanced(p: seq<Action>, q: seq<Action>, c: Config)
  {
    && c.i <= |p| && c.j <= |q|
    && forall x :: Held(c.sem, x) == Rels(p[..c.i], x) - Acqs(q[..c.j], x) >= 0
  }

  lemma {:induction false} MoveKeepsBalance(p: seq<Action>, q: seq<Action>, c: Config, c': Config)
    requires Tasks(p, q) && Balanced(p, q, c) && Moves(p, q, c, c')
    ensures Balanced(p, q, c')
  {
    forall x
      ensures Held(c'.sem, x) == Rels(p[..c'.i], x) - Acqs(q[..c'.j], x) >= 0
    {
      assert Held(c.sem, x) == Rels(p[..c.i], x) - Acqs(q[..c.j], x) >= 0;
      if ProducerMoves(p, c, c') {
        assert p[..c'.i][..c.i] == p[..c.i];
        assert p[c.i] in p;
      } else {
        assert q[..c'.j][..c.j] == q[..c.j];
        assert q[c.j] in q;
      }
    }
  }

  lemma {:induction false} RunIsBalanced(p: seq<Action>, q: seq<Action>, run: seq<Config>, r: nat)
    requires Tasks(p, q) && IsRun(p, q, run) && r < |run|
    ensures Balanced(p, q, run[r])
  {
    if r == 0 {
      assert p[..0] == [] && q[..0] == [];
    } else {
      RunIsBalanced(p, q, run, r - 1);
      MoveKeepsBalance(p, q, run[r - 1], run[r]);
    }
  }

  lemma {:induction false} ViewsAreTasks(t: seq<Step>, f: string, n: nat)
    requires Tidy(t, n)
    ensures Tasks(ProducerView(t, f, n), ConsumerView(t, f))
  {
    ConsumerViewActions(t, f, n);
    if n > 0 {
      ProducerViewCounts(t, f, n, 0);
    } else {
      ProducerSideWhenUnsynchronised(t, f);
    }
  }

  lemma {:induction false} ProducerSideWhenUnsynchronised(t: seq<Step>, f: string)
    requires Tidy(t, 0)
    ensures forall a :: a in ProducerView(t, f, 0) ==> ProducerSide(a)
  {
    if t != [] { ProducerSideWhenUnsynchronised(t[1..], f); }
  }

  /** Where step a of the original run sits in the producer's task, and step b in the consumer's. */
  function ProducerAt(t: seq<Step>, a: nat, f: string, n: nat): nat requires a <= |t|
  {
    |ProducerView(t[..a], f, n)|
  }

  function ConsumerAt(t: seq<Step>, b: nat, f: string): nat requires b <= |t|
  {
    |ConsumerView(t[..b], f)|
  }

  lemma PrefixViews(t: seq<Step>, a: nat, f: string, n: nat)
    requires a <= |t|
    ensures ProducerAt(t, a, f, n) <= |ProducerView(t, f, n)|
    ensures ProducerView(t, f, n)[..ProducerAt(t, a, f, n)] == ProducerView(t[..a], f, n)
    ensures ConsumerAt(t, a, f) <= |ConsumerView(t, f)|
    ensures ConsumerView(t, f)[..ConsumerAt(t, a, f)] == ConsumerView(t[..a], f)
  {
    assert t == t[..a] + t[a..];
    ProducerViewConcat(t[..a], t[a..], f, n);
    ConsumerViewConcat(t[..a], t[a..], f);
  }

  /**
   * Safety: in every interleaving, once consume node k has been entered m times, every
   * step of the first m produces has been performed.
   */
  lemma {:induction false} EntryWaitsForProduce(t: seq<Step>, f: string, n: nat, run: seq<Config>, r: nat, k: nat,
                                                a: nat)
    requires Tidy(t, n) && k < n && a < |t| && t[a].Prod?
    requires IsRun(ProducerView(t, f, n), ConsumerView(t, f), run) && r < |run|
    requires run[r].j <= |ConsumerView(t, f)|
    requires NumProduced(t[..a]) < Acqs(ConsumerView(t, f)[..run[r].j], SemaName(f, k))
    ensures ProducerAt(t, a, f, n) < run[r].i
  {
    var p, q := ProducerView(t, f, n), ConsumerView(t, f);
    var x := SemaName(f, k);
    ViewsAreTasks(t, f, n);
    RunIsBalanced(p, q, run, r);
    var c := run[r];
    assert Held(c.sem, x) == Rels(p[..c.i], x) - Acqs(q[..c.j], x) >= 0;
    PrefixViews(t, a, f, n);
    ProducerViewCounts(t[..a], f, n, k);
    assert Rels(p[..ProducerAt(t, a, f, n)], x) == NumProduced(t[..a]);
    if c.i <= ProducerAt(t, a, f, n) {
      RelsMonotone(p, c.i, ProducerAt(t, a, f, n), x);
    }
  }

  // ---- deadlock freedom, exactly ----

  lemma {:induction false} ExtendProducer(p: seq<Action>, q: seq<Action>, run: seq<Config>,
                                          i: nat) returns (longer: seq<Config>)
    requires Tasks(p, q) && IsRun(p, q, run) && Last(run).i <= i <= |p|
    ensures IsRun(p, q, longer) && Last(longer).i == i && Last(longer).j == Last(run).j
    decreases i - Last(run).i
  {
    var c := Last(run);
    if c.i == i {
      longer := run;
    } else {
      assert p[c.i] in p;
      var c' := Config(c.i + 1, c.j, Perform(p[c.i], c.sem));
      assert ProducerMoves(p, c, c');
      longer := ExtendProducer(p, q, run + [c'], i);
    }
  }

  /** The consumer can run on alone while the releases already made cover its acquires. */
  lemma {:induction false} ExtendConsumer(p: seq<Action>, q: seq<Action>, run: seq<Config>,
                                          j: nat) returns (longer: seq<Config>)
    requires Tasks(p, q) && IsRun(p, q, run) && Last(run).j <= j <= |q| && Last(run).i <= |p|
    requires forall y :: 0 <= y < j && IsAcquire(q[y]) ==>
               Acqs(q[..y], q[y].e.sema) < Rels(p[..Last(run).i], q[y].e.sema)
    ensures IsRun(p, q, longer) && Last(longer).i == Last(run).i && Last(longer).j == j
    decreases j - Last(run).j
  {
    var c := Last(run);
    if c.j == j {
      longer := run;
    } else {
      var act := q[c.j];
      assert act in q;
      RunIsBalanced(p, q, run, |run| - 1);
      if act.e.Acq? {
        assert Held(c.sem, act.e.sema) == Rels(p[..c.i], act.e.sema) - Acqs(q[..c.j], act.e.sema);
      }
      var c' := Config(c.i, c.j + 1, Perform(act, c.sem));
      assert ConsumerMoves(q, c, c');
      longer := ExtendConsumer(p, q, run + [c'], j);
    }
  }

  ghost predicate NeverStuck(p: seq<Action>, q: seq<Action>)
  {
    forall run :: IsRun(p, q, run) ==> Finished(p, q, Last(run)) || CanMove(p, q, Last(run))
  }

  /** Every consume node is entered at most as often as the function is produced. */
  ghost predicate EnoughProduces(t: seq<Step>, n: nat)
  {
    forall k: nat :: k < n ==> NumMarks(t, k) <= NumProduced(t)
  }

  lemma {:induction false} AcquireIsCovered(t: seq<Step>, f: string, n: nat, y: nat)
    requires Tidy(t, n) && EnoughProduces(t, n)
    requires y < |ConsumerView(t, f)| && IsAcquire(ConsumerView(t, f)[y])
    ensures
      var p, q := ProducerView(t, f, n), ConsumerView(t, f);
      Acqs(q[..y], q[y].e.sema) < Rels(p, q[y].e.sema)
  {
    var p, q := ProducerView(t, f, n), ConsumerView(t, f);
    ConsumerViewActions(t, f, n);
    assert q[y] in q;
    var k: nat :| k < n && q[y].e.sema == SemaName(f, k);
    ConsumerViewCounts(t, f, n, k);
    ProducerViewCounts(t, f, n, k);
    assert q[..y + 1][..y] == q[..y];
    AcqsMonotone(q, y + 1, |q|, SemaName(f, k));
    assert q[..|q|] == q;
  }

  /** No interleaving gets stuck exactly when no consume node is entered more often than f is produced. */
  lemma {:induction false} DeadlockFreeIff(t: seq<Step>, f: string, n: nat)
    requires Tidy(t, n)
    ensures NeverStuck(ProducerView(t, f, n), ConsumerView(t, f)) <==> EnoughProduces(t, n)
  {
    var p, q := ProducerView(t, f, n), ConsumerView(t, f);
    ViewsAreTasks(t, f, n);
    if EnoughProduces(t, n) {
      forall run | IsRun(p, q, run)
        ensures Finished(p, q, Last(run)) || CanMove(p, q, Last(run))
      {
        NotStuck(t, f, n, run);
      }
    } else {
      var k: nat :| k < n && NumMarks(t, k) > NumProduced(t);
      var run := StuckRun(t, f, n, k);
    }
  }

  lemma {:induction false} NotStuck(t: seq<Step>, f: string, n: nat, run: seq<Config>)
    requires Tidy(t, n) && EnoughProduces(t, n)
    requires IsRun(ProducerView(t, f, n), ConsumerView(t, f), run)
    ensures
      var p, q := ProducerView(t, f, n), ConsumerView(t, f);
      Finished(p, q, Last(run)) || CanMove(p, q, Last(run))
  {
    var p, q := ProducerView(t, f, n), ConsumerView(t, f);
    ViewsAreTasks(t, f, n);
    RunIsBalanced(p, q, run, |run| - 1);
    var c := Last(run);
    if c.i < |p| {
      assert p[c.i] in p;
    } else if c.j < |q| {
      assert q[c.j] in q;
      if q[c.j].e.Acq? {
        AcquireIsCovered(t, f, n, c.j);
        assert p[..c.i] == p;
        assert Held(c.sem, q[c.j].e.sema) == Rels(p[..c.i], q[c.j].e.sema) - Acqs(q[..c.j], q[c.j].e.sema);
      }
    }
  }

  /** Let the producer finish, then run the consumer as far as it goes: it does not reach the end. */
  lemma {:induction false} StuckRun(t: seq<Step>, f: string, n: nat, k: nat) returns (run: seq<Config>)
    requires Tidy(t, n) && k < n && NumMarks(t, k) > NumProduced(t)
    ensures
      var p, q := ProducerView(t, f, n), ConsumerView(t, f);
      IsRun(p, q, run) && !Finished(p, q, Last(run)) && !CanMove(p, q, Last(run))
  {
    var p, q := ProducerView(t, f, n), ConsumerView(t, f);
    ViewsAreTasks(t, f, n);
    run := ExtendProducer(p, q, [Config(0, 0, map[])], |p|);
    while CanMove(p, q, Last(run))
      invariant IsRun(p, q, run) && Last(run).i == |p|
      invariant Last(run).j <= |q|
      decreases |q| - Last(run).j
    {
      var c := Last(run);
      var c' := Config(c.i, c.j + 1, Perform(q[c.j], c.sem));
      assert ConsumerMoves(q, c, c');
      run := run + [c'];
    }
    if Last(run).j == |q| {
      var x := SemaName(f, k);
      RunIsBalanced(p, q, run, |run| - 1);
      assert p[..|p|] == p && q[..|q|] == q;
      assert Held(Last(run).sem, x) == Rels(p, x) - Acqs(q, x) >= 0;
      ProducerViewCounts(t, f, n, k);
      ConsumerViewCounts(t, f, n, k);
      assert false;
    }
  }

  /** When both tasks are done, semaphore k holds the produces that node k did not wait for. */
  lemma {:induction false} FinalSemaphores(t: seq<Step>, f: string, n: nat, run: seq<Config>, k: nat)
    requires Tidy(t, n) && k < n
    requires IsRun(ProducerView(t, f, n), ConsumerView(t, f), run)
    requires Finished(ProducerView(t, f, n), ConsumerView(t, f), Last(run))
    ensures Held(Last(run).sem, SemaName(f, k)) == NumProduced(t) - NumMarks(t, k)
  {
    var p, q := ProducerView(t, f, n), ConsumerView(t, f);
    ViewsAreTasks(t, f, n);
    RunIsBalanced(p, q, run, |run| - 1);
    assert p[..|p|] == p && q[..|q|] == q;
    ProducerViewCounts(t, f, n, k);
    ConsumerViewCounts(t, f, n, k);
    assert Held(Last(run).sem, SemaName(f, k)) == Rels(p, SemaName(f, k)) - Acqs(q, SemaName(f, k));
  }

  // ---- order of a write and a read, exactly ----

  /** In every interleaving, when the consumer is past step b the producer is past step a. */
  ghost predicate Ordered(t: seq<Step>, f: string, n: nat, a: nat, b: nat)
    requires a < |t| && b < |t|
  {
    forall run: seq<Config>, r: nat
      | IsRun(ProducerView(t, f, n), ConsumerView(t, f), run) && r < |run| && ConsumerAt(t, b + 1, f) <= run[r].j
      :: ProducerAt(t, a, f, n) < run[r].i
  }

  lemma {:induction false} CoveredEntryIsOrdered(t: seq<Step>, f: string, n: nat, a: nat, b: nat, k: nat)
    requires Tidy(t, n) && a < |t| && b < |t| && t[a].Prod? && k < n
    requires NumProduced(t[..a]) < NumMarks(t[..b + 1], k)
    ensures Ordered(t, f, n, a, b)
  {
    var p, q := ProducerView(t, f, n), ConsumerView(t, f);
    forall run: seq<Config>, r: nat | IsRun(p, q, run) && r < |run| && ConsumerAt(t, b + 1, f) <= run[r].j
      ensures ProducerAt(t, a, f, n) < run[r].i
    {
      ViewsAreTasks(t, f, n);
      RunIsBalanced(p, q, run, r);
      PrefixViews(t, b + 1, f, n);
      ConsumerViewCounts(t[..b + 1], f, n, k);
      AcqsMonotone(q, ConsumerAt(t, b + 1, f), run[r].j, SemaName(f, k));
      EntryWaitsForProduce(t, f, n, run, r, k, a);
    }
  }

  /** Entering node k up to and including step b has waited for the produce that step a belongs to. */
  predicate WaitedFor(t: seq<Step>, a: nat, b: nat, k: nat)
    requires a < |t| && b < |t|
  {
    NumProduced(t[..a]) < NumMarks(t[..b + 1], k)
  }

  lemma {:induction false} EarlierReleasesCover(t: seq<Step>, f: string, n: nat, a: nat, b: nat, y: nat)
    requires Tidy(t, n) && a < |t| && b < |t| && n > 0
    requires forall k: nat :: k < n ==> !WaitedFor(t, a, b, k)
    requires y < |ConsumerView(t[..b + 1], f)| && IsAcquire(ConsumerView(t[..b + 1], f)[y])
    ensures
      var p, q := ProducerView(t[..a], f, n), ConsumerView(t[..b + 1], f);
      Acqs(q[..y], q[y].e.sema) < Rels(p, q[y].e.sema)
  {
    var u := t[..b + 1];
    var q := ConsumerView(u, f);
    ConsumerViewActions(u, f, n);
    assert q[y] in q;
    var k: nat :| k < n && q[y].e.sema == SemaName(f, k);
    ConsumerViewCounts(u, f, n, k);
    ProducerViewCounts(t[..a], f, n, k);
    assert !WaitedFor(t, a, b, k);
    assert q[..y + 1][..y] == q[..y];
    AcqsMonotone(q, y + 1, |q|, SemaName(f, k));
    assert q[..|q|] == q;
  }

  lemma {:induction false} UncoveredEntryOvertakes(t: seq<Step>, f: string, n: nat, a: nat, b: nat)
    requires Tidy(t, n) && a < |t| && b < |t| && n > 0
    requires forall k: nat :: k < n ==> !WaitedFor(t, a, b, k)
    ensures !Ordered(t, f, n, a, b)
  {
    var run := OvertakingRun(t, f, n, a, b);
    var r := |run| - 1;
    assert run[r] == Last(run);
  }

  /** Run the producer up to step a, then the consumer through step b. */
  lemma {:induction false} OvertakingRun(t: seq<Step>, f: string, n: nat, a: nat, b: nat) returns (run: seq<Config>)
    requires Tidy(t, n) && a < |t| && b < |t| && n > 0
    requires forall k: nat :: k < n ==> !WaitedFor(t, a, b, k)
    ensures IsRun(ProducerView(t, f, n), ConsumerView(t, f), run)
    ensures Last(run).i == ProducerAt(t, a, f, n) && Last(run).j == ConsumerAt(t, b + 1, f)
  {
    var p, q := ProducerView(t, f, n), ConsumerView(t, f);
    ViewsAreTasks(t, f, n);
    PrefixViews(t, a, f, n);
    PrefixViews(t, b + 1, f, n);
    var i, j := ProducerAt(t, a, f, n), ConsumerAt(t, b + 1, f);
    run := ExtendProducer(p, q, [Config(0, 0, map[])], i);
    forall y: nat | y < j && IsAcquire(q[y])
      ensures Acqs(q[..y], q[y].e.sema) < Rels(p[..i], q[y].e.sema)
    {
      CoveredAt(t, f, n, a, b, y);
    }
    run := ExtendConsumer(p, q, run, j);
  }

  /** Each acquire before step b finds its release among those made before step a. */
  lemma {:induction false} CoveredAt(t: seq<Step>, f: string, n: nat, a: nat, b: nat, y: nat)
    requires Tidy(t, n) && a < |t| && b < |t| && n > 0
    requires forall k: nat :: k < n ==> !WaitedFor(t, a, b, k)
    requires y < ConsumerAt(t, b + 1, f) <= |ConsumerView(t, f)| && IsAcquire(ConsumerView(t, f)[y])
    requires ProducerAt(t, a, f, n) <= |ProducerView(t, f, n)|
    ensures
      var p, q := ProducerView(t, f, n), ConsumerView(t, f);
      Acqs(q[..y], q[y].e.sema) < Rels(p[..ProducerAt(t, a, f, n)], q[y].e.sema)
  {
    PrefixViews(t, a, f, n);
    PrefixViews(t, b + 1, f, n);
    var q, q' := ConsumerView(t, f), ConsumerView(t[..b + 1], f);
    assert q[y] == q'[y];
    assert q[..y] == q'[..y];
    EarlierReleasesCover(t, f, n, a, b, y);
  }

  /**
   * A step a of a produce is ordered before consume entry b exactly when some consume node has
   * by then been entered often enough to have waited for that produce.
   */
  lemma {:induction false} OrderedIff(t: seq<Step>, f: string, n: nat, a: nat, b: nat)
    requires Tidy(t, n) && a < |t| && b < |t| && t[a].Prod? && n > 0
    ensures Ordered(t, f, n, a, b) <==> exists k: nat :: k < n && WaitedFor(t, a, b, k)
  {
    if k: nat :| k < n && WaitedFor(t, a, b, k) {
      CoveredEntryIsOrdered(t, f, n, a, b, k);
    } else {
      UncoveredEntryOvertakes(t, f, n, a, b);
    }
  }
}
