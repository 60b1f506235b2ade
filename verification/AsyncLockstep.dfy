/**
 * When the forked program computes what the sequential one did.
 *
 * `Lockstep` is a check on the statement: the produce node and the consume nodes of f
 * hang off the same block, outside any inner loop or branch of their own, which is how
 * scheduling lays them out.  For such bodies no interleaving gets stuck, the semaphores
 * end at zero, and with write-once storage every consume node finds in memory exactly
 * what it would have found sequentially.
 */
module AsyncLockstep {
  import opened Wrappers
  import opened Ir
  import opened AsyncIr
  import opened AsyncFork
  import opened AsyncProtocol
  import opened AsyncScopes

  /** Running s runs the produce node of f once, and no consume node. */
  predicate ProducesOnce(s: Stmt, f: string)
  {
    match s
    case LetStmt(_, _, b) => ProducesOnce(b, f)
    case Realize(_, b) => ProducesOnce(b, f)
    case Allocate(_, b) => ProducesOnce(b, f)
    case Block(a, b) => (ProducesOnce(a, f) && Untouched(b, f)) || (Untouched(a, f) && ProducesOnce(b, f))
    case ProducerConsumer(g, isProducer, b) => if g == f then isProducer else ProducesOnce(b, f)
    case _ => false
  }

  /** Running s runs each of its consume nodes once, and no produce node. */
  predicate ConsumesOnce(s: Stmt, f: string)
  {
    Untouched(s, f) ||
    match s
    case LetStmt(_, _, b) => ConsumesOnce(b, f)
    case Realize(_, b) => ConsumesOnce(b, f)
    case Allocate(_, b) => ConsumesOnce(b, f)
    case Block(a, b) => ConsumesOnce(a, f) && ConsumesOnce(b, f)
    case ProducerConsumer(g, isProducer, b) => if g == f then !isProducer else ConsumesOnce(b, f)
    case _ => false
  }

  predicate Lockstep(s: Stmt, f: string)
  {
    Untouched(s, f) ||
    match s
    case LetStmt(_, _, b) => Lockstep(b, f)
    case For(_, _, _, b) => Lockstep(b, f)
    case Realize(_, b) => Lockstep(b, f)
    case Allocate(_, b) => Lockstep(b, f)
    case Block(a, b) =>
      || (ProducesOnce(a, f) && ConsumesOnce(b, f))
      || (Lockstep(a, f) && Untouched(b, f))
      || (Untouched(a, f) && Lockstep(b, f))
    case IfThenElse(_, t, e) => (Lockstep(t, f) && Untouched(e, f)) || (Untouched(t, f) && Lockstep(e, f))
    case ProducerConsumer(g, _, b) => g != f && Lockstep(b, f)
    case _ => false
  }

  // ---- the counts move in step ----

  /**
   * At every entry of a consume node, that node has been entered as often as f has been
   * produced; and so it is at the end, for all nodes numbered from lo up to hi.
   */
  ghost predicate InStep(t: seq<Step>, lo: nat, hi: nat)
  {
    && (forall b: int {:trigger EntryInStep(t, lo, hi, b)} :: EntryInStep(t, lo, hi, b))
    && (forall k: nat {:trigger LevelAt(t, k)} :: lo <= k < hi ==> LevelAt(t, k))
  }

  ghost predicate EntryInStep(t: seq<Step>, lo: nat, hi: nat, b: int)
  {
    0 <= b < |t| && t[b].Mark? ==>
      lo <= t[b].node < hi && NumProduced(t[..b]) == NumMarks(t[..b + 1], t[b].node)
  }

  ghost predicate LevelAt(t: seq<Step>, k: nat) { NumMarks(t, k) == NumProduced(t) }

  lemma {:induction false} InStepConcat(t: seq<Step>, u: seq<Step>, lo: nat, hi: nat)
    requires InStep(t, lo, hi) && InStep(u, lo, hi)
    ensures InStep(t + u, lo, hi)
  {
    var tu := t + u;
    forall b: int ensures EntryInStep(tu, lo, hi, b) {
      if 0 <= b < |t| && tu[b].Mark? {
        assert EntryInStep(t, lo, hi, b);
        assert tu[..b] == t[..b] && tu[..b + 1] == t[..b + 1];
      } else if |t| <= b < |tu| && tu[b].Mark? {
        LaterEntryInStep(t, u, lo, hi, b - |t|);
      }
    }
    forall k: nat | lo <= k < hi ensures LevelAt(tu, k) {
      assert LevelAt(t, k) && LevelAt(u, k);
      NumConcat(t, u, k);
    }
  }

  lemma {:induction false} LaterEntryInStep(t: seq<Step>, u: seq<Step>, lo: nat, hi: nat, b: nat)
    requires InStep(t, lo, hi) && InStep(u, lo, hi) && b < |u| && u[b].Mark?
    ensures EntryInStep(t + u, lo, hi, |t| + b)
  {
    var tu, k := t + u, u[b].node;
    assert EntryInStep(u, lo, hi, b) && LevelAt(t, k);
    assert tu[..|t| + b] == t + u[..b] && tu[..|t| + b + 1] == t + u[..b + 1];
    NumConcat(t, u[..b], k);
    NumConcat(t, u[..b + 1], k);
  }

  ghost predicate Quiet(t: seq<Step>) { forall a :: 0 <= a < |t| ==> t[a].Cons? }

  lemma {:induction false} QuietCounts(t: seq<Step>, k: nat)
    requires Quiet(t)
    ensures NumProduced(t) == 0 && NumMarks(t, k) == 0
  {
    if t != [] { QuietCounts(t[..|t| - 1], k); }
  }

  lemma {:induction false} UntouchedIsQuiet(s: Stmt, env: Env, f: string, n: nat)
    requires Plain(s) && Untouched(s, f)
    ensures Visited(s, f) == 0 && Quiet(SeqRun(s, env, f, n))
    decreases s, 0
  {
    match s
    case NoOp =>
    case Leaf(_, _, _) =>
    case LetStmt(x, v, b) => UntouchedIsQuiet(b, env[x := Eval(v, env)], f, n);
    case For(x, lo, extent, b) =>
      UntouchedIsQuiet(b, env, f, n);
      var count := Eval(extent, env);
      UntouchedLoopIsQuiet(b, x, Eval(lo, env), if count < 0 then 0 else count, env, f, n);
    case Block(a, b) => UntouchedIsQuiet(a, env, f, n); UntouchedIsQuiet(b, env, f, n);
    case Realize(_, b) => UntouchedIsQuiet(b, env, f, n);
    case Allocate(_, b) => UntouchedIsQuiet(b, env, f, n);
    case IfThenElse(c, t, e) => UntouchedIsQuiet(t, env, f, n); UntouchedIsQuiet(e, env, f, n);
    case ProducerConsumer(_, _, b) => UntouchedIsQuiet(b, env, f, n);
  }

  lemma {:induction false} UntouchedLoopIsQuiet(b: Stmt, x: string, lo: int, iters: nat, env: Env, f: string, n: nat)
    requires Plain(b) && Untouched(b, f) && Visited(b, f) == 0
    ensures Quiet(SeqLoop(b, x, lo, iters, env, f, n))
    decreases b, iters + 1
  {
    if iters > 0 {
      UntouchedLoopIsQuiet(b, x, lo, iters - 1, env, f, n);
      UntouchedIsQuiet(b, env[x := lo + iters - 1], f, n);
    }
  }

  lemma {:induction false} QuietInStep(t: seq<Step>, lo: nat, hi: nat)
    requires Quiet(t)
    ensures InStep(t, lo, hi)
  {
    forall b: int ensures EntryInStep(t, lo, hi, b) {}
    forall k: nat | lo <= k < hi ensures LevelAt(t, k) { QuietCounts(t, k); }
  }

  lemma {:induction false} ProduceNodeCounts(b: Stmt, env: Env, f: string, k: nat)
    requires Plain(b) && Untouched(b, f)
    ensures
      var t := AsProd(Run(b, env, f) + [Ev(Produced)]);
      NumProduced(t) == 1 && NumMarks(t, k) == 0
  {
    var work := Run(b, env, f);
    PlainRunsWork(b, env, f);
    EndMark(work);
    WorkCounts(work, k);
    NumConcat(AsProd(work), [Prod(Ev(Produced))], k);
    assert [Prod(Ev(Produced))][..0] == [];
  }

  lemma {:induction false} WorkCounts(work: seq<Action>, k: nat)
    requires forall a :: a in work ==> IsWork(a)
    ensures NumProduced(AsProd(work)) == 0 && NumMarks(AsProd(work), k) == 0
    decreases |work|
  {
    if work != [] {
      assert AsProd(work)[..|work| - 1] == AsProd(work[..|work| - 1]);
      assert work[|work| - 1] in work;
      WorkCounts(work[..|work| - 1], k);
    }
  }

  lemma {:induction false} ProducesOnceCounts(s: Stmt, env: Env, f: string, n: nat, k: nat)
    requires Plain(s) && Flat(s, f) && ProducesOnce(s, f)
    ensures Visited(s, f) == 0
    ensures NumProduced(SeqRun(s, env, f, n)) == 1 && NumMarks(SeqRun(s, env, f, n), k) == 0
  {
    match s
    case LetStmt(x, v, b) => ProducesOnceCounts(b, env[x := Eval(v, env)], f, n, k);
    case Realize(_, b) => ProducesOnceCounts(b, env, f, n, k);
    case Allocate(_, b) => ProducesOnceCounts(b, env, f, n, k);
    case Block(a, b) =>
      if ProducesOnce(a, f) && Untouched(b, f) {
        ProducesOnceCounts(a, env, f, n, k);
        UntouchedIsQuiet(b, env, f, n);
        QuietCounts(SeqRun(b, env, f, n), k);
      } else {
        UntouchedIsQuiet(a, env, f, n);
        QuietCounts(SeqRun(a, env, f, n), k);
        ProducesOnceCounts(b, env, f, n, k);
      }
      NumConcat(SeqRun(a, env, f, n), SeqRun(b, env, f, n), k);
    case ProducerConsumer(g, isProducer, b) =>
      if g == f { ProduceNodeCounts(b, env, f, k); } else { ProducesOnceCounts(b, env, f, n, k); }
  }

  lemma {:induction false} ConsumeNodeCounts(run: seq<Action>, m: nat, k: nat)
    ensures NumProduced([Mark(m)] + AsCons(run)) == 0
    ensures NumMarks([Mark(m)] + AsCons(run), k) == if k == m then 1 else 0
  {
    QuietCounts(AsCons(run), k);
    NumConcat([Mark(m)], AsCons(run), k);
    assert [Mark(m)][..0] == [];
  }

  /** s, with its nodes numbered down from n - 1, reaches each of them once and produces nothing. */
  ghost predicate EntersOnce(s: Stmt, env: Env, f: string, n: nat, k: nat)
    requires Visited(s, f) <= n
  {
    var t := SeqRun(s, env, f, n);
    NumProduced(t) == 0 && NumMarks(t, k) == if n - Visited(s, f) <= k < n then 1 else 0
  }

  lemma {:induction false} ConsumesOnceCounts(s: Stmt, env: Env, f: string, n: nat, k: nat)
    requires Plain(s) && Flat(s, f) && ConsumesOnce(s, f) && Visited(s, f) <= n
    ensures EntersOnce(s, env, f, n, k)
  {
    if Untouched(s, f) {
      UntouchedIsQuiet(s, env, f, n);
      QuietCounts(SeqRun(s, env, f, n), k);
    } else {
      match s
      case LetStmt(x, v, b) => ConsumesOnceCounts(b, env[x := Eval(v, env)], f, n, k);
      case Realize(_, b) => ConsumesOnceCounts(b, env, f, n, k);
      case Allocate(_, b) => ConsumesOnceCounts(b, env, f, n, k);
      case Block(a, b) =>
        ConsumesOnceCounts(a, env, f, n, k);
        ConsumesOnceCounts(b, env, f, n - Visited(a, f), k);
        BlockEntersOnce(a, b, env, f, n, k);
      case ProducerConsumer(g, isProducer, b) =>
        if g == f {
          NodeEntersOnce(b, env, f, n, k);
        } else {
          ConsumesOnceCounts(b, env, f, n, k);
        }
    }
  }

  lemma {:induction false} NodeEntersOnce(b: Stmt, env: Env, f: string, n: nat, k: nat)
    requires n > 0
    ensures EntersOnce(ProducerConsumer(f, false, b), env, f, n, k)
  {
    ConsumeNodeCounts(Run(ProducerConsumer(f, false, b), env, f), n - 1, k);
  }

  lemma {:induction false} BlockEntersOnce(a: Stmt, b: Stmt, env: Env, f: string, n: nat, k: nat)
    requires Visited(a, f) + Visited(b, f) <= n
    requires EntersOnce(a, env, f, n, k) && EntersOnce(b, env, f, n - Visited(a, f), k)
    ensures EntersOnce(Block(a, b), env, f, n, k)
  {
    NumConcat(SeqRun(a, env, f, n), SeqRun(b, env, f, n - Visited(a, f)), k);
  }

  lemma {:induction false} MarkIsCounted(t: seq<Step>, i: nat)
    requires i < |t| && t[i].Mark?
    ensures NumMarks(t[..i + 1], t[i].node) == NumMarks(t[..i], t[i].node) + 1 <= NumMarks(t, t[i].node)
  {
    assert t[..i + 1][..i] == t[..i];
    MarksMonotone(t, i + 1, t[i].node);
  }

  lemma MarksMonotone(t: seq<Step>, b: nat, k: nat)
    requires b <= |t|
    ensures NumMarks(t[..b], k) <= NumMarks(t, k)
    ensures NumProduced(t[..b]) <= NumProduced(t)
  {
    assert t == t[..b] + t[b..];
    NumConcat(t[..b], t[b..], k);
  }

  /** Produce once, then consume once: one round of the protocol. */
  lemma {:induction false} RoundInStep(a: Stmt, b: Stmt, env: Env, f: string, n: nat)
    requires Plain(a) && Flat(a, f) && ProducesOnce(a, f)
    requires Plain(b) && Flat(b, f) && ConsumesOnce(b, f)
    requires Visited(b, f) <= n
    ensures Visited(a, f) == 0 && RunsInStep(Block(a, b), env, f, n)
  {
    ProducesOnceCounts(a, env, f, n, 0);
    var t: seq<Step>, u: seq<Step> := SeqRun(a, env, f, n), SeqRun(b, env, f, n);
    var tu, lo := t + u, n - Visited(b, f);
    forall i: int ensures EntryInStep(tu, lo, n, i) {
      if 0 <= i < |tu| && tu[i].Mark? { RoundEntry(a, b, env, f, n, i); }
    }
    forall k: nat | lo <= k < n ensures LevelAt(tu, k) { RoundLevel(a, b, env, f, n, k); }
  }

  lemma {:induction false} RoundLevel(a: Stmt, b: Stmt, env: Env, f: string, n: nat, k: nat)
    requires Plain(a) && Flat(a, f) && ProducesOnce(a, f) && Visited(a, f) == 0
    requires Plain(b) && Flat(b, f) && ConsumesOnce(b, f) && Visited(b, f) <= n && n - Visited(b, f) <= k < n
    ensures LevelAt(SeqRun(a, env, f, n) + SeqRun(b, env, f, n), k)
  {
    ProducesOnceCounts(a, env, f, n, k);
    ConsumesOnceCounts(b, env, f, n, k);
    NumConcat(SeqRun(a, env, f, n), SeqRun(b, env, f, n), k);
  }

  lemma {:induction false} RoundEntry(a: Stmt, b: Stmt, env: Env, f: string, n: nat, i: nat)
    requires Plain(a) && Flat(a, f) && ProducesOnce(a, f)
    requires Plain(b) && Flat(b, f) && ConsumesOnce(b, f) && Visited(b, f) <= n && Visited(a, f) == 0
    requires var tu := SeqRun(a, env, f, n) + SeqRun(b, env, f, n); i < |tu| && tu[i].Mark?
    ensures EntryInStep(SeqRun(a, env, f, n) + SeqRun(b, env, f, n), n - Visited(b, f), n, i)
  {
    var t: seq<Step>, u: seq<Step> := SeqRun(a, env, f, n), SeqRun(b, env, f, n);
    var tu := t + u;
    var k := tu[i].node;
    ProducesOnceCounts(a, env, f, n, k);
    ConsumesOnceCounts(b, env, f, n, k);
    if i < |t| {
      MarkIsCounted(t, i);
      assert false;
    } else {
      RoundCounts(t, u, i - |t|, k);
    }
  }

  /** What has been produced and entered when the second part of a round reaches a consume node. */
  lemma {:induction false} RoundCounts(t: seq<Step>, u: seq<Step>, i: nat, k: nat)
    requires i < |u| && u[i] == Mark(k)
    ensures var tu := t + u;
      && NumProduced(tu[..|t| + i]) == NumProduced(t) + NumProduced(u[..i]) <= NumProduced(t) + NumProduced(u)
      && NumMarks(tu[..|t| + i + 1], k) == NumMarks(t, k) + NumMarks(u[..i], k) + 1 <= NumMarks(t, k) + NumMarks(u, k)
  {
    var tu := t + u;
    assert tu[..|t| + i] == t + u[..i] && tu[..|t| + i + 1] == t + u[..i + 1];
    NumConcat(t, u[..i], k);
    NumConcat(t, u[..i + 1], k);
    MarkIsCounted(u, i);
    MarksMonotone(u, i, k);
  }

  ghost predicate RunsInStep(s: Stmt, env: Env, f: string, n: nat)
    requires Visited(s, f) <= n
  {
    InStep(SeqRun(s, env, f, n), n - Visited(s, f), n)
  }

  lemma {:induction false} SameShare(s: Stmt, env: Env, b: Stmt, env': Env, f: string, n: nat)
    requires Visited(s, f) == Visited(b, f) <= n && SeqRun(s, env, f, n) == SeqRun(b, env', f, n)
    requires RunsInStep(b, env', f, n)
    ensures RunsInStep(s, env, f, n)
  {
  }

  lemma {:induction false} LockstepInStep(s: Stmt, env: Env, f: string, n: nat)
    requires Plain(s) && Flat(s, f) && Lockstep(s, f) && Visited(s, f) <= n
    ensures RunsInStep(s, env, f, n)
    decreases s, 0
  {
    if Untouched(s, f) {
      UntouchedIsQuiet(s, env, f, n);
      QuietInStep(SeqRun(s, env, f, n), n - Visited(s, f), n);
    } else {
      match s
      case LetStmt(x, v, b) =>
        LockstepInStep(b, env[x := Eval(v, env)], f, n);
        SameShare(s, env, b, env[x := Eval(v, env)], f, n);
      case For(x, lo, extent, b) =>
        var count := Eval(extent, env);
        LockstepLoopInStep(b, x, Eval(lo, env), if count < 0 then 0 else count, env, f, n);
      case Realize(_, b) => LockstepInStep(b, env, f, n); SameShare(s, env, b, env, f, n);
      case Allocate(_, b) => LockstepInStep(b, env, f, n); SameShare(s, env, b, env, f, n);
      case Block(a, b) =>
        if ProducesOnce(a, f) && ConsumesOnce(b, f) {
          RoundInStep(a, b, env, f, n);
        } else {
          if !Untouched(a, f) { LockstepInStep(a, env, f, n); } else { LockstepInStep(b, env, f, n - Visited(a, f)); }
          BlockInStep(a, b, env, f, n);
        }
      case IfThenElse(c, t, e) => LockstepIfInStep(c, t, e, env, f, n);
      case ProducerConsumer(_, _, b) => LockstepInStep(b, env, f, n); SameShare(s, env, b, env, f, n);
    }
  }

  /** One part of the block is in step and the other does not touch f. */
  lemma {:induction false} BlockInStep(a: Stmt, b: Stmt, env: Env, f: string, n: nat)
    requires Plain(a) && Plain(b) && Visited(a, f) + Visited(b, f) <= n
    requires (RunsInStep(a, env, f, n) && Untouched(b, f))
      || (Untouched(a, f) && RunsInStep(b, env, f, n - Visited(a, f)))
    ensures RunsInStep(Block(a, b), env, f, n)
  {
    var m := n - Visited(a, f);
    var lo := m - Visited(b, f);
    if Untouched(a, f) { UntouchedInStep(a, env, f, n, lo, n); }
    if Untouched(b, f) { UntouchedInStep(b, env, f, m, lo, n); }
    InStepConcat(SeqRun(a, env, f, n), SeqRun(b, env, f, m), lo, n);
  }

  lemma {:induction false} UntouchedInStep(s: Stmt, env: Env, f: string, m: nat, lo: nat, n: nat)
    requires Plain(s) && Untouched(s, f) && Visited(s, f) <= m
    ensures Visited(s, f) == 0 && InStep(SeqRun(s, env, f, m), lo, n)
  {
    UntouchedIsQuiet(s, env, f, m);
    QuietInStep(SeqRun(s, env, f, m), lo, n);
  }

  lemma {:induction false} LockstepIfInStep(c: Expr, t: Stmt, e: Stmt, env: Env, f: string, n: nat)
    requires Plain(t) && Flat(t, f) && Plain(e) && Flat(e, f) && Visited(t, f) + Visited(e, f) <= n
    requires (Lockstep(t, f) && Untouched(e, f)) || (Untouched(t, f) && Lockstep(e, f))
    ensures RunsInStep(IfThenElse(c, t, e), env, f, n)
    decreases IfThenElse(c, t, e), -1
  {
    var m := n - Visited(t, f);
    var lo := m - Visited(e, f);
    if Untouched(t, f) {
      UntouchedIsQuiet(t, env, f, n);
      QuietInStep(SeqRun(t, env, f, n), lo, n);
    } else {
      LockstepInStep(t, env, f, n);
    }
    if Untouched(e, f) {
      UntouchedIsQuiet(e, env, f, m);
      QuietInStep(SeqRun(e, env, f, m), lo, n);
    } else {
      LockstepInStep(e, env, f, m);
    }
  }

  lemma {:induction false} LockstepLoopInStep(b: Stmt, x: string, lo: int, iters: nat, env: Env, f: string, n: nat)
    requires Plain(b) && Flat(b, f) && Lockstep(b, f) && Visited(b, f) <= n
    ensures InStep(SeqLoop(b, x, lo, iters, env, f, n), n - Visited(b, f), n)
    decreases b, iters + 1
  {
    if iters > 0 {
      LockstepLoopInStep(b, x, lo, iters - 1, env, f, n);
      LockstepInStep(b, env[x := lo + iters - 1], f, n);
      InStepConcat(SeqLoop(b, x, lo, iters - 1, env, f, n), SeqRun(b, env[x := lo + iters - 1], f, n),
                   n - Visited(b, f), n);
    }
  }

  // ---- memory ----

  /** The write, if any, that a piece of work makes: a location and a value. */
  type Effect = (nat, seq<int>) -> Option<(int, int)>

  function WriteOf(a: Action, w: Effect): Option<(int, int)>
  {
    if IsWork(a) then w(a.e.id, a.e.args) else None
  }

  function Store(acts: seq<Action>, w: Effect): map<int, int>
  {
    if acts == [] then map[]
    else
      var m := Store(acts[..|acts| - 1], w);
      match WriteOf(acts[|acts| - 1], w)
      case None => m
      case Some((x, v)) => m[x := v]
  }

  /** What the produce nodes have written after the steps t of the sequential run. */
  function SeqStore(t: seq<Step>, w: Effect): map<int, int>
  {
    if t == [] then map[] else ApplyStep(SeqStore(t[..|t| - 1], w), t[|t| - 1], w)
  }

  function ApplyStep(m: map<int, int>, st: Step, w: Effect): map<int, int>
  {
    match st
    case Prod(a) => (match WriteOf(a, w) case None => m case Some((x, v)) => m[x := v])
    case _ => m
  }

  ghost predicate WriteOnce(acts: seq<Action>, w: Effect)
  {
    forall x, y :: 0 <= x < y < |acts| && WriteOf(acts[x], w).Some? && WriteOf(acts[y], w).Some? ==>
      WriteOf(acts[x], w).value.0 != WriteOf(acts[y], w).value.0
  }

  lemma {:induction false} StoreWriter(acts: seq<Action>, w: Effect, loc: int) returns (x: nat)
    requires loc in Store(acts, w)
    ensures x < |acts| && WriteOf(acts[x], w).Some? && WriteOf(acts[x], w).value.0 == loc
    decreases |acts|
  {
    var wr := WriteOf(acts[|acts| - 1], w);
    if wr.Some? && wr.value.0 == loc {
      x := |acts| - 1;
    } else {
      x := StoreWriter(acts[..|acts| - 1], w, loc);
    }
  }

  lemma {:induction false} StoreGrows(p: seq<Action>, i0: nat, i: nat, w: Effect, loc: int)
    requires WriteOnce(p, w) && i0 <= i <= |p| && loc in Store(p[..i0], w)
    ensures loc in Store(p[..i], w) && Store(p[..i], w)[loc] == Store(p[..i0], w)[loc]
    decreases i
  {
    if i0 < i {
      StoreGrows(p, i0, i - 1, w, loc);
      var x := StoreWriter(p[..i0], w, loc);
      assert p[..i0][x] == p[x];
      assert p[..i][..i - 1] == p[..i - 1];
    }
  }

  lemma {:induction false} StoreTail(u: seq<Action>, v: seq<Action>, w: Effect)
    requires forall a :: a in v ==> WriteOf(a, w).None?
    ensures Store(u + v, w) == Store(u, w)
    decreases |v|
  {
    if v == [] {
      assert u + v == u;
    } else {
      assert (u + v)[..|u + v| - 1] == u + v[..|v| - 1];
      assert v[|v| - 1] in v;
      StoreTail(u, v[..|v| - 1], w);
    }
  }

  lemma {:induction false} StoreOfStep(u: seq<Action>, st: Step, f: string, n: nat, w: Effect)
    ensures Store(u + ProducerStep(st, f, n), w) == ApplyStep(Store(u, w), st, w)
  {
    if st == Prod(Ev(Produced)) {
      ReleasesContain(f, n, 0);
      StoreTail(u, Releases(f, n) + [Ev(Produced)], w);
    } else if st.Prod? {
      assert (u + [st.pa])[..|u|] == u;
    } else {
      assert u + [] == u;
    }
  }

  /** The releases do not write, so the producer's task stores what the sequential run's produces store. */
  lemma {:induction false} StoreOfView(t: seq<Step>, f: string, n: nat, w: Effect)
    ensures Store(ProducerView(t, f, n), w) == SeqStore(t, w)
    decreases |t|
  {
    if t != [] {
      var most, last := t[..|t| - 1], t[|t| - 1];
      assert t == most + [last];
      StoreOfView(most, f, n, w);
      ProducerViewConcat(most, [last], f, n);
      ViewsOfOne(last, f, n);
      StoreOfStep(ProducerView(most, f, n), last, f, n, w);
    }
  }

  /** In a closed run the last thing a produce did was to end. */
  lemma {:induction false} LastEnd(t: seq<Step>, w: Effect) returns (q: nat)
    requires Closed(t) && NumProduced(t) > 0
    ensures q < |t| && t[q] == Prod(Ev(Produced))
    ensures NumProduced(t[..q]) == NumProduced(t) - 1
    ensures SeqStore(t[..q], w) == SeqStore(t, w)
    decreases |t|
  {
    var most := t[..|t| - 1];
    if t[|t| - 1] == Prod(Ev(Produced)) {
      q := |t| - 1;
    } else {
      q := LastEnd(most, w);
      assert most[..q] == t[..q];
    }
  }

  /**
   * In every interleaving, once the consumer is past an entry of a consume node, memory holds for
   * every location the value the sequential program had stored there at that entry.
   */
  lemma {:induction false} EntrySeesSequentialValues(t: seq<Step>, f: string, n: nat, w: Effect, run: seq<Config>,
                                                     r: nat, b: nat)
    requires Tidy(t, n) && WellBracketed(t) && InStep(t, 0, n)
    requires b < |t| && t[b].Mark?
    requires WriteOnce(ProducerView(t, f, n), w)
    requires IsRun(ProducerView(t, f, n), ConsumerView(t, f), run) && r < |run|
    requires ConsumerAt(t, b + 1, f) <= run[r].j
    ensures run[r].i <= |ProducerView(t, f, n)|
    ensures forall loc :: loc in SeqStore(t[..b], w) ==>
      && loc in Store(ProducerView(t, f, n)[..run[r].i], w)
      && Store(ProducerView(t, f, n)[..run[r].i], w)[loc] == SeqStore(t[..b], w)[loc]
  {
    var p := ProducerView(t, f, n);
    var k := t[b].node;
    assert EntryInStep(t, 0, n, b);
    assert t[..b + 1][..b] == t[..b];
    var q := LastEnd(t[..b], w);
    assert t[..b][..q] == t[..q];
    CoveredEntryIsOrdered(t, f, n, q, b, k);
    ViewsAreTasks(t, f, n);
    RunIsBalanced(p, ConsumerView(t, f), run, r);
    PrefixViews(t, q, f, n);
    StoreOfView(t[..q], f, n, w);
    forall loc | loc in SeqStore(t[..b], w)
      ensures loc in Store(p[..run[r].i], w) && Store(p[..run[r].i], w)[loc] == SeqStore(t[..b], w)[loc]
    {
      StoreGrows(p, ProducerAt(t, q, f, n), run[r].i, w, loc);
    }
  }

  // ---- the generated code ----

  lemma {:induction false} FlatCounts(s: Stmt, f: string)
    requires Flat(s, f)
    ensures CountConsumes(s, f) == Visited(s, f)
  {
    match s
    case NoOp =>
    case Leaf(_, _, _) =>
    case Release(_) =>
    case LetStmt(_, _, b) => FlatCounts(b, f);
    case LetSemaphore(_, b) => FlatCounts(b, f);
    case For(_, _, _, b) => FlatCounts(b, f);
    case Block(a, b) => FlatCounts(a, f); FlatCounts(b, f);
    case Fork(a, b) => FlatCounts(a, f); FlatCounts(b, f);
    case Realize(_, b) => FlatCounts(b, f);
    case Allocate(_, b) => FlatCounts(b, f);
    case IfThenElse(_, t, e) => FlatCounts(t, f); FlatCounts(e, f);
    case ProducerConsumer(g, _, b) => if g == f { NoConsumes(b, f); } else { FlatCounts(b, f); }
    case Acquire(_, _, b) => FlatCounts(b, f);
  }

  lemma NoConsumes(s: Stmt, f: string)
    requires !HasNode(s, f, false)
    ensures CountConsumes(s, f) == 0
  {
  }

  /** The tasks that ForkRealize makes out of the body. */
  function ProducerTask(body: Stmt, env: Env, f: string): seq<Action>
    requires GenProducer(body, f, SemaNames(f, CountConsumes(body, f))).Some?
  {
    Run(GenProducer(body, f, SemaNames(f, CountConsumes(body, f))).value.0, env, f)
  }

  function ConsumerTask(body: Stmt, env: Env, f: string): seq<Action>
  {
    EnoughSemaphores(body, f);
    Run(GenConsumer(body, f, SemaNames(f, CountConsumes(body, f))).0, env, f)
  }

  lemma {:induction false} SemaphoresRun(f: string, n: nat, body: Stmt, env: Env)
    ensures Run(WithSemaphores(f, n, body), env, f) == Run(body, env, f)
  {
    if n > 0 { SemaphoresRun(f, n - 1, body, env); }
  }

  /**
   * The fork runs the two tasks side by side, they are the two shares of the original run, and every
   * semaphore they use is declared once, around both.
   */
  lemma {:induction false} ForkRunsShares(body: Stmt, env: Env, f: string)
    requires Plain(body) && Flat(body, f) && ForkRealize(f, body).Some?
    ensures
      var n := Visited(body, f);
      var t := SeqRun(body, env, f, n);
      && CountConsumes(body, f) == n
      && Untag(t) == Run(body, env, f)
      && ProducerTask(body, env, f) == ProducerView(t, f, n)
      && ConsumerTask(body, env, f) == ConsumerView(t, f)
      && Run(ForkRealize(f, body).value, env, f) == Together(ProducerTask(body, env, f), ConsumerTask(body, env, f))
      && WellScoped(ForkRealize(f, body).value, f, n)
  {
    TasksAreShares(body, env, f);
    ForkRunsTasks(body, env, f);
    ForkIsScoped(f, body);
  }

  lemma {:induction false} TasksAreShares(body: Stmt, env: Env, f: string)
    requires Plain(body) && Flat(body, f) && GenProducer(body, f, SemaNames(f, CountConsumes(body, f))).Some?
    ensures
      var n := Visited(body, f);
      var t := SeqRun(body, env, f, n);
      && CountConsumes(body, f) == n
      && Untag(t) == Run(body, env, f)
      && ProducerTask(body, env, f) == ProducerView(t, f, n)
      && ConsumerTask(body, env, f) == ConsumerView(t, f)
  {
    var n := Visited(body, f);
    FlatCounts(body, f);
    SeqRunIsRun(body, env, f, n);
    ProducerRuns(body, env, f, n, n);
    ConsumerRuns(body, env, f, n);
  }

  lemma {:induction false} ForkRunsTasks(body: Stmt, env: Env, f: string)
    requires ForkRealize(f, body).Some?
    ensures GenProducer(body, f, SemaNames(f, CountConsumes(body, f))).Some?
    ensures Run(ForkRealize(f, body).value, env, f) == Together(ProducerTask(body, env, f), ConsumerTask(body, env, f))
  {
    var n := CountConsumes(body, f);
    EnoughSemaphores(body, f);
    var producer := GenProducer(body, f, SemaNames(f, n)).value.0;
    var consumer := GenConsumer(body, f, SemaNames(f, n)).0;
    SemaphoresRun(f, n, Fork(producer, consumer), env);
  }

  /** A lockstep body forks into tasks that never get stuck and leave every semaphore at zero. */
  lemma {:induction false} LockstepForkTerminates(body: Stmt, env: Env, f: string, run: seq<Config>)
    requires Plain(body) && Flat(body, f) && Lockstep(body, f) && ForkRealize(f, body).Some?
    requires IsRun(ProducerTask(body, env, f), ConsumerTask(body, env, f), run)
    ensures WellScoped(ForkRealize(f, body).value, f, CountConsumes(body, f))
    ensures
      var p, q := ProducerTask(body, env, f), ConsumerTask(body, env, f);
      && (Finished(p, q, Last(run)) || CanMove(p, q, Last(run)))
      && (Finished(p, q, Last(run)) ==>
            forall k: nat :: k < CountConsumes(body, f) ==> Held(Last(run).sem, SemaName(f, k)) == 0)
  {
    var n := Visited(body, f);
    var t := SeqRun(body, env, f, n);
    ForkRunsShares(body, env, f);
    ShapeOfSeqRun(body, env, f, n);
    LockstepInStep(body, env, f, n);
    forall k: nat | k < n ensures NumMarks(t, k) == NumProduced(t) { assert LevelAt(t, k); }
    DeadlockFreeIff(t, f, n);
    if Finished(ProducerTask(body, env, f), ConsumerTask(body, env, f), Last(run)) {
      forall k: nat | k < n ensures Held(Last(run).sem, SemaName(f, k)) == 0 { FinalSemaphores(t, f, n, run, k); }
    }
  }

  /** A lockstep body forks into tasks in which every consume node sees the sequential values. */
  lemma {:induction false} LockstepForkSeesSequentialValues(body: Stmt, env: Env, f: string, w: Effect,
                                                            run: seq<Config>, r: nat, b: nat)
    requires Plain(body) && Flat(body, f) && Lockstep(body, f) && ForkRealize(f, body).Some?
    requires WriteOnce(ProducerTask(body, env, f), w)
    requires IsRun(ProducerTask(body, env, f), ConsumerTask(body, env, f), run) && r < |run|
    requires b < |SeqRun(body, env, f, Visited(body, f))| && SeqRun(body, env, f, Visited(body, f))[b].Mark?
    requires ConsumerAt(SeqRun(body, env, f, Visited(body, f)), b + 1, f) <= run[r].j
    ensures
      var t := SeqRun(body, env, f, Visited(body, f));
      var p := ProducerTask(body, env, f);
      && run[r].i <= |p|
      && forall loc :: loc in SeqStore(t[..b], w) ==>
           loc in Store(p[..run[r].i], w) && Store(p[..run[r].i], w)[loc] == SeqStore(t[..b], w)[loc]
  {
    var n := Visited(body, f);
    ForkRunsShares(body, env, f);
    ShapeOfSeqRun(body, env, f, n);
    LockstepInStep(body, env, f, n);
    EntrySeesSequentialValues(SeqRun(body, env, f, n), f, n, w, run, r, b);
  }

  // ---- out of step, the order is lost ----

  const TWICE: Stmt :=
    Block(For("x", Const(Int32, 0), Const(Int32, 2), ProducerConsumer("f", true, Leaf(0, ["f"], [Var(Int32, "x")]))),
          ProducerConsumer("f", false, Leaf(1, ["f"], [])))

  const PRODUCE: Stmt := ProducerConsumer("f", true, Leaf(0, ["f"], [Var(Int32, "x")]))
  const CONSUME: Stmt := ProducerConsumer("f", false, Leaf(1, ["f"], []))

  const TWICE_RUN: seq<Step> :=
    [Prod(Ev(Do(0, [0]))), Prod(Ev(Produced)), Prod(Ev(Do(0, [1]))), Prod(Ev(Produced)),
     Mark(0), Cons(Ev(Entered)), Cons(Ev(Do(1, [])))]

  lemma {:induction false} ProduceOnceRun(x: int)
    ensures SeqRun(PRODUCE, map["x" := x], "f", 1) == [Prod(Ev(Do(0, [x]))), Prod(Ev(Produced))]
  {
    var env: Env := map["x" := x];
    var args := [Var(Int32, "x")];
    assert EvalAll(args[1..], env) == [];
    assert EvalAll(args, env) == [x];
    assert Run(PRODUCE.body, env, "f") == [Ev(Do(0, [x]))];
    assert Run(PRODUCE, env, "f") == [Ev(Do(0, [x])), Ev(Produced)];
  }

  lemma {:induction false} TwiceRuns()
    ensures SeqRun(TWICE, map[], "f", 1) == TWICE_RUN
  {
    TwiceProduces();
    ThenConsumes();
    assert TWICE_RUN == TWICE_RUN[..4] + TWICE_RUN[4..];
  }

  lemma {:induction false} TwiceProduces()
    ensures SeqRun(TWICE.first, map[], "f", 1) == TWICE_RUN[..4]
  {
    var e: Env := map[];
    assert e["x" := 0] == map["x" := 0] && e["x" := 1] == map["x" := 1];
    ProduceOnceRun(0);
    ProduceOnceRun(1);
    assert SeqLoop(PRODUCE, "x", 0, 0, e, "f", 1) == [];
    assert SeqLoop(PRODUCE, "x", 0, 1, e, "f", 1) == TWICE_RUN[..2];
    assert SeqLoop(PRODUCE, "x", 0, 2, e, "f", 1) == TWICE_RUN[..4];
    assert Eval(Const(Int32, 2), e) == 2 && Eval(Const(Int32, 0), e) == 0;
  }

  lemma {:induction false} ThenConsumes()
    ensures SeqRun(CONSUME, map[], "f", 1) == TWICE_RUN[4..]
  {
    var e: Env := map[];
    assert EvalAll([], e) == [];
    assert Run(CONSUME, e, "f") == [Ev(Entered), Ev(Do(1, []))];
  }

  lemma {:induction false} TwiceCounts()
    ensures NumProduced(TWICE_RUN[..2]) == 1 && NumMarks(TWICE_RUN[..5], 0) == 1
  {
    var t := TWICE_RUN;
    assert t[..1][..0] == [] && NumProduced(t[..1][..0]) == 0;
    assert NumProduced(t[..1]) == 0;
    assert t[..2][..1] == t[..1];
    NoMarksIn(t[..4], 0);
    assert t[..5][..4] == t[..4];
  }

  lemma {:induction false} TwiceIsAccepted()
    ensures Plain(TWICE) && Flat(TWICE, "f") && !Lockstep(TWICE, "f") && ForkRealize("f", TWICE).Some?
  {
    var sema := SemaNames("f", 1);
    assert CountConsumes(TWICE, "f") == 1;
    assert GenProducer(PRODUCE, "f", sema).Some?;
    assert GenProducer(TWICE.first, "f", sema).Some?;
    assert GenProducer(CONSUME.body, "f", []).Some?;
    assert GenProducer(CONSUME, "f", []).Some?;
  }

  /** Produced twice but consumed once: the fork is accepted, yet the second produce may come after the consumption. */
  lemma {:induction false} OutOfStepOvertakes()
    ensures Plain(TWICE) && Flat(TWICE, "f") && !Lockstep(TWICE, "f") && ForkRealize("f", TWICE).Some?
    ensures
      var t := SeqRun(TWICE, map[], "f", 1);
      |t| == 7 && t[2].Prod? && t[4] == Mark(0) && !Ordered(t, "f", 1, 2, 4)
  {
    TwiceIsAccepted();
    TwiceRuns();
    TwiceIsTidy();
    TwiceOvertakes();
  }

  lemma {:induction false} TwiceIsTidy()
    ensures Tidy(TWICE_RUN, 1) && WellBracketed(TWICE_RUN)
  {
    TwiceIsAccepted();
    TwiceRuns();
    ShapeOfSeqRun(TWICE, map[], "f", 1);
  }

  lemma {:induction false} TwiceOvertakes()
    requires Tidy(TWICE_RUN, 1) && WellBracketed(TWICE_RUN)
    ensures !Ordered(TWICE_RUN, "f", 1, 2, 4)
  {
    TwiceCounts();
    assert !WaitedFor(TWICE_RUN, 2, 4, 0);
    UncoveredEntryOvertakes(TWICE_RUN, "f", 1, 2, 4);
  }

  lemma {:induction false} NoMarksIn(t: seq<Step>, k: nat)
    requires forall a :: 0 <= a < |t| ==> t[a].Prod?
    ensures NumMarks(t, k) == 0
  {
    if t != [] { NoMarksIn(t[..|t| - 1], k); }
  }
}
