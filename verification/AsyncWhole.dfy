/**
 * The whole sequence of async passes: fork, expand acquire nodes, tighten fork nodes.  The
 * later passes may move an acquire across the border of a produce or consume node, so the
 * result is compared with the borders hidden: work, acquires and releases stay as they are.
 */
module AsyncWhole {
  import opened Wrappers
  import opened Ir
  import opened AsyncIr
  import opened AsyncFork
  import opened AsyncProtocol
  import opened AsyncLockstep
  import opened AsyncValues
  import opened AsyncPasses
  import opened AsyncScopes

  /** A run without the events that only mark the borders of nodes. */
  function Hide(acts: seq<Action>): seq<Action>
    decreases acts, 0
  {
    if acts == [] then [] else HideOne(acts[0]) + Hide(acts[1..])
  }

  function HideOne(a: Action): seq<Action>
    decreases a, 1
  {
    match a
    case Ev(e) => if e.Entered? || e.Produced? then [] else [a]
    case Par(l, r) => Together(Hide(l), Hide(r))
  }

  lemma {:induction false} HideConcat(a: seq<Action>, b: seq<Action>)
    ensures Hide(a + b) == Hide(a) + Hide(b)
    decreases |a|
  {
    if a == [] {
      assert a + b == b;
    } else {
      assert (a + b)[1..] == a[1..] + b && (a + b)[0] == a[0];
      HideConcat(a[1..], b);
    }
  }

  lemma {:induction false} HideSingle(a: Action)
    ensures Hide([a]) == HideOne(a)
  {
    assert [a][1..] == [];
    assert Hide([a][1..]) == [];
  }

  lemma {:induction false} HideTogether(l: seq<Action>, r: seq<Action>)
    ensures Hide(Together(l, r)) == Together(Hide(l), Hide(r))
  {
    if l != [] && r != [] { HideSingle(Par(l, r)); }
  }

  /** Seen through a function without nodes, a run is the run seen through any other with the borders hidden. */
  lemma {:induction false} HideRuns(s: Stmt, env: Env, f: string, g: string)
    requires Untouched(s, g)
    ensures Run(s, env, g) == Hide(Run(s, env, f))
    decreases s, 0
  {
    match s
    case NoOp =>
    case Leaf(_, _, _) => HideSingle(Run(s, env, f)[0]);
    case Release(_) => HideSingle(Run(s, env, f)[0]);
    case LetStmt(x, v, b) => HideRuns(b, env[x := Eval(v, env)], f, g);
    case LetSemaphore(_, b) => HideRuns(b, env, f, g);
    case For(x, lo, n, b) =>
      var count := Eval(n, env);
      HideLoop(b, x, Eval(lo, env), if count < 0 then 0 else count, env, f, g);
    case Block(_, _) => HidePair(s, env, f, g);
    case Fork(_, _) => HidePair(s, env, f, g);
    case Realize(_, b) => HideRuns(b, env, f, g);
    case Allocate(_, b) => HideRuns(b, env, f, g);
    case IfThenElse(_, t, e) =>
      HideRuns(t, env, f, g);
      HideRuns(e, env, f, g);
    case ProducerConsumer(_, _, _) => HideNode(s, env, f, g);
    case Acquire(_, _, _) => HideNode(s, env, f, g);
  }

  lemma {:induction false} HidePair(s: Stmt, env: Env, f: string, g: string)
    requires (s.Block? || s.Fork?) && Untouched(s, g)
    ensures Run(s, env, g) == Hide(Run(s, env, f))
    decreases s, -1
  {
    var a, b := Run(s.first, env, f), Run(s.rest, env, f);
    HideRuns(s.first, env, f, g);
    HideRuns(s.rest, env, f, g);
    HideConcat(a, b);
    HideTogether(a, b);
  }

  lemma {:induction false} HideNode(s: Stmt, env: Env, f: string, g: string)
    requires (s.ProducerConsumer? || s.Acquire?) && Untouched(s, g)
    ensures Run(s, env, g) == Hide(Run(s, env, f))
    decreases s, -1
  {
    var run := Run(s.body, env, f);
    HideRuns(s.body, env, f, g);
    if s.Acquire? {
      var first := Ev(Acq(s.sema, Eval(s.count, env)));
      HideConcat([first], run);
      HideSingle(first);
    } else if s.name == f {
      HideConcat([Ev(Entered)], run);
      HideConcat(run, [Ev(Produced)]);
      HideSingle(Ev(Entered));
      HideSingle(Ev(Produced));
    }
  }

  lemma {:induction false} HideLoop(b: Stmt, x: string, lo: int, n: nat, env: Env, f: string, g: string)
    requires Untouched(b, g)
    ensures RunLoop(b, x, lo, n, env, g) == Hide(RunLoop(b, x, lo, n, env, f))
    decreases b, n + 1
  {
    if n > 0 {
      var last := env[x := lo + n - 1];
      HideLoop(b, x, lo, n - 1, env, f, g);
      HideRuns(b, last, f, g);
      HideConcat(RunLoop(b, x, lo, n - 1, env, f), Run(b, last, f));
    }
  }

  /** fork_async_producers on one realization: fork, expand, tighten. */
  function Forked(f: string, body: Stmt): Option<Stmt> {
    var fork := ForkRealize(f, body);
    if fork.None? then None else Some(Tighten(Expand(fork.value), false))
  }

  /**
   * The three passes together: the result runs the two tasks of the fork side by side, borders
   * hidden, under one declaration of each semaphore they use.  They are the two shares of the
   * sequential run, and when they get stuck, and when an entry reads the sequential values, is known
   * exactly.
   */
  lemma {:induction false} ForkedRuns(body: Stmt, env: Env, f: string, g: string, b: nat)
    requires Plain(body) && Flat(body, f) && ForkRealize(f, body).Some? && Visited(body, f) > 0
    requires Untouched(ForkRealize(f, body).value, g) && b < |SeqRun(body, env, f, Visited(body, f))|
    ensures Forked(f, body).Some?
    ensures var n, t := Visited(body, f), SeqRun(body, env, f, Visited(body, f));
      var p, q := ProducerView(t, f, n), ConsumerView(t, f);
      && Untag(t) == Run(body, env, f)
      && Run(Forked(f, body).value, env, g) == Together(Hide(p), Hide(q))
      && WellScoped(Forked(f, body).value, f, n)
      && (NeverStuck(p, q) <==> EnoughProduces(t, n))
      && (SeesSequential(t, f, n, b) <==> forall a: nat :: a < b && Unrepeated(t, a) ==> Awaited(t, n, a, b))
  {
    var fork := ForkRealize(f, body).value;
    ForkIsRightIff(body, env, f, b);
    PassesAreScoped(f, body);
    TasksAreShares(body, env, f);
    TightenRuns(Expand(fork), false, env, g);
    ExpandRuns(fork, env, g);
    HideRuns(fork, env, f, g);
    HideTogether(ProducerTask(body, env, f), ConsumerTask(body, env, f));
  }
}
