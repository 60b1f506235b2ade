/**
 * Forking one async function: src/AsyncProducers.cpp, GenerateProducerBody,
 * GenerateConsumerBody and ForkAsyncProducers.
 *
 * The body of the realization is copied twice.  The producer keeps only the
 * produce node of f and releases one semaphore per consume node after it; the
 * consumer drops the produce node and acquires one semaphore at each consume node.
 * The main lemmas say exactly what each copy runs, in terms of a run of the
 * original body whose steps are tagged with the side they belong to.
 */
module AsyncFork {
  import opened Wrappers
  import opened Ir
  import opened AsyncIr

  // ---- semaphore names ----

  function Digit(d: nat): char requires d < 10 { (48 + d) as char }

  /** std::to_string */
  function Decimal(i: nat): string
  {
    if i < 10 then [Digit(i)] else Decimal(i / 10) + [Digit(i % 10)]
  }

  lemma {:induction false} DecimalInjective(i: nat, j: nat)
    ensures Decimal(i) == Decimal(j) ==> i == j
  {
    if Decimal(i) == Decimal(j) {
      var s := Decimal(i);
      assert s[|s| - 1] == Digit(i % 10) == Digit(j % 10);
      if i < 10 || j < 10 {
        DecimalNonEmpty(i / 10);
        DecimalNonEmpty(j / 10);
      } else {
        assert Decimal(i / 10) == s[..|s| - 1] == Decimal(j / 10);
        DecimalInjective(i / 10, j / 10);
      }
    }
  }

  lemma DecimalNonEmpty(i: nat)
    ensures |Decimal(i)| >= 1
  {
  }

  function SemaName(f: string, i: nat): string { f + ".semaphore_" + Decimal(i) }

  lemma SemaNameInjective(f: string, i: nat, j: nat)
    ensures SemaName(f, i) == SemaName(f, j) ==> i == j
  {
    var prefix := f + ".semaphore_";
    assert SemaName(f, i)[|prefix|..] == Decimal(i);
    assert SemaName(f, j)[|prefix|..] == Decimal(j);
    DecimalInjective(i, j);
  }

  function SemaNames(f: string, n: nat): (names: seq<string>)
    ensures |names| == n
    ensures forall i :: 0 <= i < n ==> names[i] == SemaName(f, i)
  {
    seq(n, i requires 0 <= i => SemaName(f, i))
  }

  // ---- the two copies of the body ----

  const ONE: Expr := Const(Int32, 1)

  /** The releases that follow a produce node, last semaphore first. */
  function WithReleases(body: Stmt, sema: seq<string>): Stmt
    decreases |sema|
  {
    if sema == [] then body
    else WithReleases(Block(body, Release(sema[|sema| - 1])), sema[..|sema| - 1])
  }

  /** The loop that pops the semaphore vector while wrapping the body. */
  method AddReleases(body: Stmt, semaphores: seq<string>) returns (wrapped: Stmt)
    ensures wrapped == WithReleases(body, semaphores)
  {
    wrapped := body;
    var sema := semaphores;
    while sema != []
      invariant WithReleases(wrapped, sema) == WithReleases(body, semaphores)
      decreases |sema|
    {
      wrapped := Block(wrapped, Release(sema[|sema| - 1]));
      sema := sema[..|sema| - 1];
    }
  }

  function Keep(body: Stmt, whole: Stmt): Stmt { if IsNoOp(body) then body else whole }

  function Join(a: Stmt, b: Stmt): Stmt
  {
    if IsNoOp(a) then b else if IsNoOp(b) then a else Block(a, b)
  }

  function JoinFork(a: Stmt, b: Stmt): Stmt
  {
    if IsNoOp(a) then b else if IsNoOp(b) then a else Fork(a, b)
  }

  function Choice(c: Expr, t: Stmt, e: Stmt): Stmt
  {
    if IsNoOp(t) && IsNoOp(e) then t else IfThenElse(c, t, e)
  }

  /**
   * GenerateProducerBody.  The second component is the semaphore vector after the
   * visit; a produce node met with an empty vector is the "Duplicate produce node"
   * failure.  A semaphore that exists already is acquired through a clone.
   */
  function GenProducer(s: Stmt, f: string, sema: seq<string>): Option<(Stmt, seq<string>)>
  {
    match s
    case NoOp => Some((NoOp, sema))
    case Leaf(_, _, _) => Some((NoOp, sema))
    case Release(_) => Some((NoOp, sema))
    case LetStmt(x, v, b) =>
      var (b', rest) :- GenProducer(b, f, sema);
      Some((Keep(b', LetStmt(x, v, b')), rest))
    case LetSemaphore(x, b) =>
      var (b', rest) :- GenProducer(b, f, sema);
      Some((Keep(b', LetSemaphore(x, b')), rest))
    case For(x, lo, n, b) =>
      var (b', rest) :- GenProducer(b, f, sema);
      Some((Keep(b', For(x, lo, n, b')), rest))
    case Block(a, b) =>
      var (a', rest) :- GenProducer(a, f, sema);
      var (b', rest') :- GenProducer(b, f, rest);
      Some((Join(a', b'), rest'))
    case Fork(a, b) =>
      var (a', rest) :- GenProducer(a, f, sema);
      var (b', rest') :- GenProducer(b, f, rest);
      Some((JoinFork(a', b'), rest'))
    case Realize(x, b) =>
      var (b', rest) :- GenProducer(b, f, sema);
      Some((Keep(b', Realize(x, b')), rest))
    case Allocate(x, b) =>
      var (b', rest) :- GenProducer(b, f, sema);
      Some((Keep(b', Allocate(x, b')), rest))
    case IfThenElse(c, t, e) =>
      var (t', rest) :- GenProducer(t, f, sema);
      var (e', rest') :- GenProducer(e, f, rest);
      Some((Choice(c, t', e'), rest'))
    case ProducerConsumer(g, isProducer, b) =>
      if g == f && isProducer then
        if sema == [] then None
        else Some((ProducerConsumer(g, true, WithReleases(b, sema)), []))
      else
        var (b', rest) :- GenProducer(b, f, sema);
        Some((if IsNoOp(b') || isProducer then b' else ProducerConsumer(g, isProducer, b'), rest))
    case Acquire(x, count, b) =>
      var (b', rest) :- GenProducer(b, f, sema);
      Some((Keep(b', Acquire(x + "_", count, b')), rest))
  }

  /** How many consume nodes the consumer's mutator reaches (it does not look inside them). */
  function Visited(s: Stmt, f: string): nat
  {
    match s
    case NoOp => 0
    case Leaf(_, _, _) => 0
    case Release(_) => 0
    case LetStmt(_, _, b) => Visited(b, f)
    case LetSemaphore(_, b) => Visited(b, f)
    case For(_, _, _, b) => Visited(b, f)
    case Block(a, b) => Visited(a, f) + Visited(b, f)
    case Fork(a, b) => Visited(a, f) + Visited(b, f)
    case Realize(_, b) => Visited(b, f)
    case Allocate(_, b) => Visited(b, f)
    case IfThenElse(_, t, e) => Visited(t, f) + Visited(e, f)
    case ProducerConsumer(g, p, b) => if g == f then (if p then 0 else 1) else Visited(b, f)
    case Acquire(_, _, b) => Visited(b, f)
  }

  lemma EnoughSemaphores(s: Stmt, f: string)
    ensures Visited(s, f) <= CountConsumes(s, f)
    ensures Flat(s, f) ==> (Visited(s, f) == 0 <==> !HasNode(s, f, false))
  {
  }

  /** GenerateConsumerBody, with the semaphore vector threaded through the visit. */
  function GenConsumer(s: Stmt, f: string, sema: seq<string>): (r: (Stmt, seq<string>))
    requires Visited(s, f) <= |sema|
    ensures r.1 == sema[..|sema| - Visited(s, f)]
  {
    match s
    case NoOp => (s, sema)
    case Leaf(_, _, _) => (s, sema)
    case Release(_) => (s, sema)
    case LetStmt(x, v, b) =>
      var (b', rest) := GenConsumer(b, f, sema);
      (Keep(b', LetStmt(x, v, b')), rest)
    case LetSemaphore(x, b) =>
      var (b', rest) := GenConsumer(b, f, sema);
      (Keep(b', LetSemaphore(x, b')), rest)
    case For(x, lo, n, b) =>
      var (b', rest) := GenConsumer(b, f, sema);
      (Keep(b', For(x, lo, n, b')), rest)
    case Block(a, b) =>
      var (a', rest) := GenConsumer(a, f, sema);
      var (b', rest') := GenConsumer(b, f, rest);
      (Join(a', b'), rest')
    case Fork(a, b) =>
      var (a', rest) := GenConsumer(a, f, sema);
      var (b', rest') := GenConsumer(b, f, rest);
      (JoinFork(a', b'), rest')
    case Realize(x, b) =>
      var (b', rest) := GenConsumer(b, f, sema);
      (Keep(b', Realize(x, b')), rest)
    case Allocate(x, b) =>
      var (b', rest) := GenConsumer(b, f, sema);
      (Allocate(x, b'), rest)
    case IfThenElse(c, t, e) =>
      var (t', rest) := GenConsumer(t, f, sema);
      var (e', rest') := GenConsumer(e, f, rest);
      (Choice(c, t', e'), rest')
    case ProducerConsumer(g, isProducer, b) =>
      if g == f then
        if isProducer then (NoOp, sema)
        else (Acquire(sema[|sema| - 1], ONE, s), sema[..|sema| - 1])
      else
        var (b', rest) := GenConsumer(b, f, sema);
        (ProducerConsumer(g, isProducer, b'), rest)
    case Acquire(x, count, b) =>
      var (b', rest) := GenConsumer(b, f, sema);
      (Acquire(x, count, b'), rest)
  }

  function WithSemaphores(f: string, n: nat, body: Stmt): Stmt
  {
    if n == 0 then body else LetSemaphore(SemaName(f, n - 1), WithSemaphores(f, n - 1, body))
  }

  /** ForkAsyncProducers::visit(Realize) for the one async function f. */
  function ForkRealize(f: string, body: Stmt): Option<Stmt>
  {
    var n := CountConsumes(body, f);
    var (producer, _) :- GenProducer(body, f, SemaNames(f, n));
    EnoughSemaphores(body, f);
    var (consumer, _) := GenConsumer(body, f, SemaNames(f, n));
    Some(Realize(f, WithSemaphores(f, n, Fork(producer, consumer))))
  }

  // ---- the original run, with each step tagged by the side it goes to ----

  datatype Step =
    | Prod(pa: Action)
    | Cons(ca: Action)
    | Mark(node: nat)   // control reaches consume node number `node`

  function AsProd(run: seq<Action>): (r: seq<Step>)
    ensures |r| == |run|
    ensures forall i :: 0 <= i < |run| ==> r[i] == Prod(run[i])
  {
    seq(|run|, i requires 0 <= i < |run| => Prod(run[i]))
  }

  function AsCons(run: seq<Action>): (r: seq<Step>)
    ensures |r| == |run|
    ensures forall i :: 0 <= i < |run| ==> r[i] == Cons(run[i])
  {
    seq(|run|, i requires 0 <= i < |run| => Cons(run[i]))
  }

  /** The run of the body before the fork; the consume nodes are numbered down from n - 1. */
  function SeqRun(s: Stmt, env: Env, f: string, n: nat): seq<Step>
    requires Visited(s, f) <= n
    decreases s, 0
  {
    match s
    case LetStmt(x, v, b) => SeqRun(b, env[x := Eval(v, env)], f, n)
    case LetSemaphore(_, b) => SeqRun(b, env, f, n)
    case For(x, lo, extent, b) =>
      var count := Eval(extent, env);
      SeqLoop(b, x, Eval(lo, env), if count < 0 then 0 else count, env, f, n)
    case Block(a, b) => SeqRun(a, env, f, n) + SeqRun(b, env, f, n - Visited(a, f))
    case Realize(_, b) => SeqRun(b, env, f, n)
    case Allocate(_, b) => SeqRun(b, env, f, n)
    case IfThenElse(c, t, e) =>
      if Eval(c, env) != 0 then SeqRun(t, env, f, n) else SeqRun(e, env, f, n - Visited(t, f))
    case ProducerConsumer(g, isProducer, b) =>
      if g != f then SeqRun(b, env, f, n)
      else if isProducer then AsProd(Run(s, env, f))
      else [Mark(n - 1)] + AsCons(Run(s, env, f))
    case _ => AsCons(Run(s, env, f))
  }

  function SeqLoop(b: Stmt, x: string, lo: int, iters: nat, env: Env, f: string, n: nat): seq<Step>
    requires Visited(b, f) <= n
    decreases b, iters + 1
  {
    if iters == 0 then []
    else SeqLoop(b, x, lo, iters - 1, env, f, n) + SeqRun(b, env[x := lo + iters - 1], f, n)
  }

  /** Forgetting the tags. */
  function Untag(t: seq<Step>): seq<Action>
  {
    if t == [] then []
    else (match t[0] case Prod(a) => [a] case Cons(a) => [a] case Mark(_) => []) + Untag(t[1..])
  }

  /** What the consumer does with a step. */
  function ConsumerStep(st: Step, f: string): seq<Action>
  {
    match st
    case Prod(_) => []
    case Cons(a) => [a]
    case Mark(k) => [Ev(Acq(SemaName(f, k), 1))]
  }

  function ConsumerView(t: seq<Step>, f: string): seq<Action>
  {
    if t == [] then [] else ConsumerStep(t[0], f) + ConsumerView(t[1..], f)
  }

  function Releases(f: string, n: nat): seq<Action>
  {
    if n == 0 then [] else [Ev(Rel(SemaName(f, n - 1)))] + Releases(f, n - 1)
  }

  /** What the producer does with a step. */
  function ProducerStep(st: Step, f: string, n: nat): seq<Action>
  {
    match st
    case Prod(a) => if a == Ev(Produced) then Releases(f, n) + [a] else [a]
    case Cons(_) => []
    case Mark(_) => []
  }

  function ProducerView(t: seq<Step>, f: string, n: nat): seq<Action>
  {
    if t == [] then [] else ProducerStep(t[0], f, n) + ProducerView(t[1..], f, n)
  }

  // ---- the views distribute over concatenation ----

  lemma {:induction false} UntagConcat(t: seq<Step>, u: seq<Step>)
    ensures Untag(t + u) == Untag(t) + Untag(u)
  {
    if t == [] {
      assert t + u == u;
    } else {
      assert (t + u)[1..] == t[1..] + u;
      UntagConcat(t[1..], u);
    }
  }

  lemma {:induction false} ConsumerViewConcat(t: seq<Step>, u: seq<Step>, f: string)
    ensures ConsumerView(t + u, f) == ConsumerView(t, f) + ConsumerView(u, f)
  {
    if t == [] {
      assert t + u == u;
    } else {
      assert (t + u)[1..] == t[1..] + u;
      ConsumerViewConcat(t[1..], u, f);
    }
  }

  lemma {:induction false} ProducerViewConcat(t: seq<Step>, u: seq<Step>, f: string, n: nat)
    ensures ProducerView(t + u, f, n) == ProducerView(t, f, n) + ProducerView(u, f, n)
  {
    if t == [] {
      assert t + u == u;
    } else {
      assert (t + u)[1..] == t[1..] + u;
      ProducerViewConcat(t[1..], u, f, n);
    }
  }

  lemma {:induction false} ViewsOfCons(run: seq<Action>, f: string, n: nat)
    ensures ConsumerView(AsCons(run), f) == run
    ensures ProducerView(AsCons(run), f, n) == []
    ensures Untag(AsCons(run)) == run
  {
    if run != [] {
      assert AsCons(run)[1..] == AsCons(run[1..]);
      ViewsOfCons(run[1..], f, n);
    }
  }

  lemma {:induction false} ViewsOfProd(run: seq<Action>, f: string, n: nat)
    requires Ev(Produced) !in run
    ensures ConsumerView(AsProd(run), f) == []
    ensures ProducerView(AsProd(run), f, n) == run
    ensures Untag(AsProd(run)) == run
  {
    if run != [] {
      assert AsProd(run)[1..] == AsProd(run[1..]);
      ViewsOfProd(run[1..], f, n);
    }
  }

  lemma {:induction false} ViewsOfOne(st: Step, f: string, n: nat)
    ensures ConsumerView([st], f) == ConsumerStep(st, f)
    ensures ProducerView([st], f, n) == ProducerStep(st, f, n)
  {
    assert [st][1..] == [];
    assert ConsumerView([st][1..], f) == [];
    assert ProducerView([st][1..], f, n) == [];
  }

  lemma {:induction false} EndMark(work: seq<Action>)
    ensures AsProd(work + [Ev(Produced)]) == AsProd(work) + [Prod(Ev(Produced))]
  {
  }

  /** A produce node of a flat body: work, then the end mark. */
  lemma {:induction false} ProduceNode(b: Stmt, env: Env, f: string, n: nat)
    requires Plain(b) && Untouched(b, f)
    ensures Ev(Produced) !in Run(b, env, f)
    ensures
      var run := Run(b, env, f) + [Ev(Produced)];
      && ConsumerView(AsProd(run), f) == []
      && ProducerView(AsProd(run), f, n) == Run(b, env, f) + (Releases(f, n) + [Ev(Produced)])
      && Untag(AsProd(run)) == run
  {
    var work := Run(b, env, f);
    var last := Prod(Ev(Produced));
    PlainRunsWork(b, env, f);
    ViewsOfProd(work, f, n);
    EndMark(work);
    ViewsOfOne(last, f, n);
    ConsumerViewConcat(AsProd(work), [last], f);
    ProducerViewConcat(AsProd(work), [last], f, n);
    UntagConcat(AsProd(work), [last]);
  }

  /** A consume node: the mark, then whatever the node does. */
  lemma {:induction false} ConsumeNode(run: seq<Action>, k: nat, f: string)
    ensures ConsumerView([Mark(k)] + AsCons(run), f) == [Ev(Acq(SemaName(f, k), 1))] + run
    ensures Untag([Mark(k)] + AsCons(run)) == run
  {
    ViewsOfOne(Mark(k), f, 0);
    ViewsOfCons(run, f, 0);
    ConsumerViewConcat([Mark(k)], AsCons(run), f);
    UntagConcat([Mark(k)], AsCons(run));
  }

  // ---- the tagged run is the run ----

  ghost predicate SeqOk(s: Stmt, env: Env, f: string, n: nat)
    requires Visited(s, f) <= n
  {
    Untag(SeqRun(s, env, f, n)) == Run(s, env, f)
  }

  lemma {:induction false} SeqRunIsRun(s: Stmt, env: Env, f: string, n: nat)
    requires Plain(s) && Flat(s, f) && Visited(s, f) <= n
    ensures SeqOk(s, env, f, n)
    decreases s, 0
  {
    match s
    case LetStmt(x, v, b) => SeqRunIsRun(b, env[x := Eval(v, env)], f, n);
    case For(x, lo, extent, b) =>
      var count := Eval(extent, env);
      SeqLoopIsRunLoop(b, x, Eval(lo, env), if count < 0 then 0 else count, env, f, n);
    case Block(a, b) =>
      SeqRunIsRun(a, env, f, n);
      SeqRunIsRun(b, env, f, n - Visited(a, f));
      SeqBlock(a, b, env, f, n);
    case Realize(_, b) => SeqRunIsRun(b, env, f, n);
    case Allocate(_, b) => SeqRunIsRun(b, env, f, n);
    case IfThenElse(c, t, e) =>
      SeqRunIsRun(t, env, f, n);
      SeqRunIsRun(e, env, f, n - Visited(t, f));
    case ProducerConsumer(g, isProducer, b) =>
      if g != f { SeqRunIsRun(b, env, f, n); } else { SeqNode(isProducer, b, env, f, n); }
    case _ => ViewsOfCons(Run(s, env, f), f, n);
  }

  lemma {:induction false} SeqBlock(a: Stmt, b: Stmt, env: Env, f: string, n: nat)
    requires Visited(a, f) + Visited(b, f) <= n
    requires SeqOk(a, env, f, n) && SeqOk(b, env, f, n - Visited(a, f))
    ensures SeqOk(Block(a, b), env, f, n)
  {
    UntagConcat(SeqRun(a, env, f, n), SeqRun(b, env, f, n - Visited(a, f)));
  }

  lemma {:induction false} SeqNode(isProducer: bool, b: Stmt, env: Env, f: string, n: nat)
    requires Plain(b) && Untouched(b, f) && (isProducer || n > 0)
    ensures SeqOk(ProducerConsumer(f, isProducer, b), env, f, n)
  {
    if isProducer {
      ProduceNode(b, env, f, n);
    } else {
      ConsumeNode(Run(ProducerConsumer(f, false, b), env, f), n - 1, f);
    }
  }

  lemma {:induction false} SeqLoopIsRunLoop(b: Stmt, x: string, lo: int, iters: nat, env: Env, f: string, n: nat)
    requires Plain(b) && Flat(b, f) && Visited(b, f) <= n
    ensures Untag(SeqLoop(b, x, lo, iters, env, f, n)) == RunLoop(b, x, lo, iters, env, f)
    decreases b, iters + 1
  {
    if iters > 0 {
      SeqLoopIsRunLoop(b, x, lo, iters - 1, env, f, n);
      SeqRunIsRun(b, env[x := lo + iters - 1], f, n);
      UntagConcat(SeqLoop(b, x, lo, iters - 1, env, f, n), SeqRun(b, env[x := lo + iters - 1], f, n));
    }
  }

  // ---- what the consumer runs ----

  lemma {:induction false} AcquiredNode(s: Stmt, sema: string, env: Env, f: string)
    ensures Run(Acquire(sema, ONE, s), env, f) == [Ev(Acq(sema, 1))] + Run(s, env, f)
  {
    assert Eval(ONE, env) == 1;
  }

  /** The consumer's copy of s runs the consumer's share of the original run. */
  ghost predicate ConsumerOk(s: Stmt, env: Env, f: string, n: nat)
    requires Visited(s, f) <= n
  {
    Run(GenConsumer(s, f, SemaNames(f, n)).0, env, f) == ConsumerView(SeqRun(s, env, f, n), f)
  }

  lemma {:induction false} ConsumerRuns(s: Stmt, env: Env, f: string, n: nat)
    requires Plain(s) && Flat(s, f) && Visited(s, f) <= n
    ensures ConsumerOk(s, env, f, n)
    decreases s, 0
  {
    match s
    case LetStmt(x, v, b) => ConsumerRuns(b, env[x := Eval(v, env)], f, n);
    case For(x, lo, extent, b) =>
      var count := Eval(extent, env);
      var iters := if count < 0 then 0 else count;
      ConsumerLoopRuns(b, x, Eval(lo, env), iters, env, f, n);
      RunLoopNoOp(x, Eval(lo, env), iters, env, f);
    case Block(_, _) => ConsumerBlockRuns(s, env, f, n);
    case Realize(_, b) => ConsumerRuns(b, env, f, n);
    case Allocate(_, b) => ConsumerRuns(b, env, f, n);
    case IfThenElse(_, _, _) => ConsumerIfRuns(s, env, f, n);
    case ProducerConsumer(g, isProducer, b) =>
      if g != f {
        ConsumerRuns(b, env, f, n);
      } else {
        ConsumerNode(isProducer, b, env, f, n);
      }
    case _ => ViewsOfCons(Run(s, env, f), f, n);
  }

  lemma {:induction false} ConsumerBlockRuns(s: Stmt, env: Env, f: string, n: nat)
    requires s.Block? && Plain(s) && Flat(s, f) && Visited(s, f) <= n
    ensures ConsumerOk(s, env, f, n)
    decreases s, -1
  {
    ConsumerRuns(s.first, env, f, n);
    ConsumerRuns(s.rest, env, f, n - Visited(s.first, f));
    ConsumerBlock(s.first, s.rest, env, f, n);
  }

  lemma {:induction false} ConsumerIfRuns(s: Stmt, env: Env, f: string, n: nat)
    requires s.IfThenElse? && Plain(s) && Flat(s, f) && Visited(s, f) <= n
    ensures ConsumerOk(s, env, f, n)
    decreases s, -1
  {
    ConsumerRuns(s.thenCase, env, f, n);
    ConsumerRuns(s.elseCase, env, f, n - Visited(s.thenCase, f));
    ConsumerIf(s.cond, s.thenCase, s.elseCase, env, f, n);
  }

  lemma {:induction false} SemaNamesPrefix(f: string, m: nat, n: nat)
    requires m <= n
    ensures SemaNames(f, n)[..m] == SemaNames(f, m)
  {
  }

  lemma {:induction false} JoinRuns(a: Stmt, b: Stmt, env: Env, f: string)
    ensures Run(Join(a, b), env, f) == Run(a, env, f) + Run(b, env, f)
  {
    var x, y := Run(a, env, f), Run(b, env, f);
    if IsNoOp(a) {
      assert x == [] && x + y == y;
    } else if IsNoOp(b) {
      assert y == [] && x + y == x;
    } else {
      assert Join(a, b) == Block(a, b);
    }
  }

  lemma {:induction false} ConsumerBlock(a: Stmt, b: Stmt, env: Env, f: string, n: nat)
    requires Visited(a, f) + Visited(b, f) <= n
    requires ConsumerOk(a, env, f, n) && ConsumerOk(b, env, f, n - Visited(a, f))
    ensures ConsumerOk(Block(a, b), env, f, n)
  {
    var m := n - Visited(a, f);
    SemaNamesPrefix(f, m, n);
    var a' := GenConsumer(a, f, SemaNames(f, n)).0;
    var b' := GenConsumer(b, f, SemaNames(f, m)).0;
    assert GenConsumer(Block(a, b), f, SemaNames(f, n)).0 == Join(a', b');
    JoinRuns(a', b', env, f);
    ConsumerViewConcat(SeqRun(a, env, f, n), SeqRun(b, env, f, m), f);
  }

  lemma {:induction false} ConsumerIf(c: Expr, t: Stmt, e: Stmt, env: Env, f: string, n: nat)
    requires Visited(t, f) + Visited(e, f) <= n
    requires ConsumerOk(t, env, f, n) && ConsumerOk(e, env, f, n - Visited(t, f))
    ensures ConsumerOk(IfThenElse(c, t, e), env, f, n)
  {
    var m := n - Visited(t, f);
    SemaNamesPrefix(f, m, n);
    var t' := GenConsumer(t, f, SemaNames(f, n)).0;
    var e' := GenConsumer(e, f, SemaNames(f, m)).0;
    assert GenConsumer(IfThenElse(c, t, e), f, SemaNames(f, n)).0 == Choice(c, t', e');
    ChoiceRuns(c, t', e', env, f);
  }

  lemma {:induction false} ConsumerNode(isProducer: bool, b: Stmt, env: Env, f: string, n: nat)
    requires Plain(b) && Untouched(b, f) && (isProducer || n > 0)
    ensures ConsumerOk(ProducerConsumer(f, isProducer, b), env, f, n)
  {
    var s := ProducerConsumer(f, isProducer, b);
    if isProducer {
      ProduceNode(b, env, f, n);
    } else {
      ConsumeNode(Run(s, env, f), n - 1, f);
      AcquiredNode(s, SemaName(f, n - 1), env, f);
    }
  }

  lemma {:induction false} ConsumerLoopRuns(b: Stmt, x: string, lo: int, iters: nat, env: Env, f: string, n: nat)
    requires Plain(b) && Flat(b, f) && Visited(b, f) <= n
    ensures RunLoop(GenConsumer(b, f, SemaNames(f, n)).0, x, lo, iters, env, f)
         == ConsumerView(SeqLoop(b, x, lo, iters, env, f, n), f)
    decreases b, iters + 1
  {
    if iters > 0 {
      ConsumerLoopRuns(b, x, lo, iters - 1, env, f, n);
      ConsumerRuns(b, env[x := lo + iters - 1], f, n);
      var last := env[x := lo + iters - 1];
      var t, u := SeqLoop(b, x, lo, iters - 1, env, f, n), SeqRun(b, last, f, n);
      ConsumerViewConcat(t, u, f);
      assert SeqLoop(b, x, lo, iters, env, f, n) == t + u;
    }
  }

  // ---- what the producer runs ----

  lemma {:induction false} ReleasesRun(body: Stmt, f: string, n: nat, env: Env)
    ensures Run(WithReleases(body, SemaNames(f, n)), env, f) == Run(body, env, f) + Releases(f, n)
    decreases n
  {
    if n > 0 {
      var sema := SemaNames(f, n);
      var last := Block(body, Release(sema[n - 1]));
      assert sema[..n - 1] == SemaNames(f, n - 1);
      ReleasesRun(last, f, n - 1, env);
      assert Run(last, env, f) == Run(body, env, f) + [Ev(Rel(SemaName(f, n - 1)))];
    }
  }

  /** Without a produce node the producer's copy collapses to nothing. */
  lemma {:induction false} ProducerCollapses(s: Stmt, f: string, sema: seq<string>)
    requires Plain(s) && !HasNode(s, f, true)
    ensures GenProducer(s, f, sema) == Some((NoOp, sema))
  {
    match s
    case NoOp =>
    case Leaf(_, _, _) =>
    case LetStmt(_, _, b) => ProducerCollapses(b, f, sema);
    case For(_, _, _, b) => ProducerCollapses(b, f, sema);
    case Block(a, b) => ProducerCollapses(a, f, sema); ProducerCollapses(b, f, sema);
    case Realize(_, b) => ProducerCollapses(b, f, sema);
    case Allocate(_, b) => ProducerCollapses(b, f, sema);
    case IfThenElse(_, t, e) => ProducerCollapses(t, f, sema); ProducerCollapses(e, f, sema);
    case ProducerConsumer(_, _, b) => ProducerCollapses(b, f, sema);
  }

  /** A reachable produce node uses up the whole vector, and fails on an empty one. */
  lemma {:induction false} ProducerConsumesVector(s: Stmt, f: string, sema: seq<string>)
    requires Plain(s) && Flat(s, f) && HasNode(s, f, true)
    ensures sema == [] ==> GenProducer(s, f, sema).None?
    ensures GenProducer(s, f, sema).Some? ==> GenProducer(s, f, sema).value.1 == []
    decreases Size(s)
  {
    match s
    case LetStmt(_, _, b) => ProducerConsumesVector(b, f, sema);
    case For(_, _, _, b) => ProducerConsumesVector(b, f, sema);
    case Block(a, b) => ProducerPairConsumesVector(a, b, f, sema);
    case Realize(_, b) => ProducerConsumesVector(b, f, sema);
    case Allocate(_, b) => ProducerConsumesVector(b, f, sema);
    case IfThenElse(_, t, e) => ProducerPairConsumesVector(t, e, f, sema);
    case ProducerConsumer(g, isProducer, b) =>
      if !(g == f && isProducer) { ProducerConsumesVector(b, f, sema); }
  }

  lemma {:induction false} ProducerPairConsumesVector(a: Stmt, b: Stmt, f: string, sema: seq<string>)
    requires Plain(a) && Flat(a, f) && Plain(b) && Flat(b, f)
    requires HasNode(a, f, true) || HasNode(b, f, true)
    ensures
      var ra := GenProducer(a, f, sema);
      && (sema == [] ==> ra.None? || GenProducer(b, f, ra.value.1).None?)
      && (ra.Some? ==>
            var rb := GenProducer(b, f, ra.value.1);
            && (rb.Some? ==> rb.value.1 == [])
            && (rb.Some? && HasNode(a, f, true) ==> !HasNode(b, f, true)))
    decreases Size(a) + Size(b)
  {
    if HasNode(a, f, true) { ProducerConsumesVector(a, f, sema); } else { ProducerCollapses(a, f, sema); }
    var ra := GenProducer(a, f, sema);
    if ra.Some? {
      if HasNode(b, f, true) { ProducerConsumesVector(b, f, ra.value.1); } else { ProducerCollapses(b, f, ra.value.1); }
    }
  }

  lemma {:induction false} NothingProduced(s: Stmt, env: Env, f: string, m: nat, n: nat)
    requires Plain(s) && Visited(s, f) <= m && !HasNode(s, f, true)
    ensures ProducerView(SeqRun(s, env, f, m), f, n) == []
    decreases s, 0
  {
    match s
    case LetStmt(x, v, b) => NothingProduced(b, env[x := Eval(v, env)], f, m, n);
    case For(x, lo, extent, b) =>
      var count := Eval(extent, env);
      NothingProducedLoop(b, x, Eval(lo, env), if count < 0 then 0 else count, env, f, m, n);
    case Block(_, _) => NothingProducedBlock(s, env, f, m, n);
    case Realize(_, b) => NothingProduced(b, env, f, m, n);
    case Allocate(_, b) => NothingProduced(b, env, f, m, n);
    case IfThenElse(c, t, e) =>
      NothingProduced(t, env, f, m, n);
      NothingProduced(e, env, f, m - Visited(t, f), n);
    case ProducerConsumer(g, isProducer, b) =>
      if g != f {
        NothingProduced(b, env, f, m, n);
      } else {
        EnteringProducesNothing(Run(s, env, f), m - 1, f, n);
      }
    case _ => ViewsOfCons(Run(s, env, f), f, n);
  }

  lemma {:induction false} EnteringProducesNothing(run: seq<Action>, k: nat, f: string, n: nat)
    ensures ProducerView([Mark(k)] + AsCons(run), f, n) == []
  {
    ViewsOfCons(run, f, n);
    ProducerViewConcat([Mark(k)], AsCons(run), f, n);
    ViewsOfOne(Mark(k), f, n);
  }

  lemma {:induction false} NothingProducedBlock(s: Stmt, env: Env, f: string, m: nat, n: nat)
    requires s.Block? && Plain(s) && Visited(s, f) <= m && !HasNode(s, f, true)
    ensures ProducerView(SeqRun(s, env, f, m), f, n) == []
    decreases s, -1
  {
    var m' := m - Visited(s.first, f);
    NothingProduced(s.first, env, f, m, n);
    NothingProduced(s.rest, env, f, m', n);
    ProducerViewConcat(SeqRun(s.first, env, f, m), SeqRun(s.rest, env, f, m'), f, n);
  }

  lemma {:induction false} NothingProducedLoop(b: Stmt, x: string, lo: int, iters: nat, env: Env, f: string, m: nat,
                                               n: nat)
    requires Plain(b) && Visited(b, f) <= m && !HasNode(b, f, true)
    ensures ProducerView(SeqLoop(b, x, lo, iters, env, f, m), f, n) == []
    decreases b, iters + 1
  {
    if iters > 0 {
      NothingProducedLoop(b, x, lo, iters - 1, env, f, m, n);
      NothingProduced(b, env[x := lo + iters - 1], f, m, n);
      ProducerViewConcat(SeqLoop(b, x, lo, iters - 1, env, f, m), SeqRun(b, env[x := lo + iters - 1], f, m), f, n);
    }
  }

  /** The producer's copy of s runs the producer's share of the original run. */
  ghost predicate ProducerOk(s: Stmt, env: Env, f: string, m: nat, n: nat)
    requires Visited(s, f) <= m
  {
    var r := GenProducer(s, f, SemaNames(f, n));
    r.Some? && Run(r.value.0, env, f) == ProducerView(SeqRun(s, env, f, m), f, n)
  }

  lemma {:induction false} ProducerRuns(s: Stmt, env: Env, f: string, m: nat, n: nat)
    requires Plain(s) && Flat(s, f) && Visited(s, f) <= m
    requires GenProducer(s, f, SemaNames(f, n)).Some?
    ensures ProducerOk(s, env, f, m, n)
    decreases Size(s), 0
  {
    if !HasNode(s, f, true) {
      ProducerCollapses(s, f, SemaNames(f, n));
      NothingProduced(s, env, f, m, n);
    } else {
      match s
      case LetStmt(x, v, b) => ProducerRuns(b, env[x := Eval(v, env)], f, m, n);
      case For(x, lo, extent, b) =>
        var count := Eval(extent, env);
        var iters := if count < 0 then 0 else count;
        ProducerLoopRuns(b, x, Eval(lo, env), iters, env, f, m, n);
        RunLoopNoOp(x, Eval(lo, env), iters, env, f);
      case Block(a, b) => ProducerBlock(a, b, env, f, m, n);
      case Realize(_, b) => ProducerRuns(b, env, f, m, n);
      case Allocate(_, b) => ProducerRuns(b, env, f, m, n);
      case IfThenElse(c, t, e) => ProducerIf(c, t, e, env, f, m, n);
      case ProducerConsumer(g, isProducer, b) =>
        if g == f && isProducer {
          ProducerNode(b, env, f, m, n);
        } else {
          ProducerRuns(b, env, f, m, n);
        }
    }
  }

  lemma {:induction false} ProducerNode(b: Stmt, env: Env, f: string, m: nat, n: nat)
    requires Plain(b) && Untouched(b, f) && n > 0
    ensures ProducerOk(ProducerConsumer(f, true, b), env, f, m, n)
  {
    ProduceNode(b, env, f, n);
    ReleasesRun(b, f, n, env);
  }

  lemma {:induction false} ProducerBlock(a: Stmt, b: Stmt, env: Env, f: string, m: nat, n: nat)
    requires Plain(a) && Flat(a, f) && Plain(b) && Flat(b, f)
    requires Visited(a, f) + Visited(b, f) <= m
    requires HasNode(a, f, true) || HasNode(b, f, true)
    requires GenProducer(Block(a, b), f, SemaNames(f, n)).Some?
    ensures ProducerOk(Block(a, b), env, f, m, n)
    decreases Size(a) + Size(b), 1
  {
    ProducerPairRuns(a, b, env, f, m, n);
    JoinedProducer(a, b, env, f, m, n);
  }

  lemma {:induction false} JoinedProducer(a: Stmt, b: Stmt, env: Env, f: string, m: nat, n: nat)
    requires Visited(a, f) + Visited(b, f) <= m
    requires PairOk(a, b, env, f, m, n)
    ensures ProducerOk(Block(a, b), env, f, m, n)
  {
    var (a', rest) := GenProducer(a, f, SemaNames(f, n)).value;
    var (b', rest') := GenProducer(b, f, rest).value;
    JoinRuns(a', b', env, f);
    var ta, tb := SeqRun(a, env, f, m), SeqRun(b, env, f, m - Visited(a, f));
    ProducerViewConcat(ta, tb, f, n);
    assert SeqRun(Block(a, b), env, f, m) == ta + tb;
    assert Run(Join(a', b'), env, f) == ProducerView(ta, f, n) + ProducerView(tb, f, n);
  }

  lemma {:induction false} ProducerIf(c: Expr, t: Stmt, e: Stmt, env: Env, f: string, m: nat, n: nat)
    requires Plain(t) && Flat(t, f) && Plain(e) && Flat(e, f)
    requires Visited(t, f) + Visited(e, f) <= m
    requires HasNode(t, f, true) || HasNode(e, f, true)
    requires GenProducer(IfThenElse(c, t, e), f, SemaNames(f, n)).Some?
    ensures ProducerOk(IfThenElse(c, t, e), env, f, m, n)
    decreases Size(t) + Size(e), 1
  {
    ProducerPairRuns(t, e, env, f, m, n);
    ChosenProducer(c, t, e, env, f, m, n);
  }

  lemma {:induction false} ChosenProducer(c: Expr, t: Stmt, e: Stmt, env: Env, f: string, m: nat, n: nat)
    requires Visited(t, f) + Visited(e, f) <= m
    requires PairOk(t, e, env, f, m, n)
    ensures ProducerOk(IfThenElse(c, t, e), env, f, m, n)
  {
    var (t', rest) := GenProducer(t, f, SemaNames(f, n)).value;
    var (e', rest') := GenProducer(e, f, rest).value;
    ChoiceRuns(c, t', e', env, f);
  }

  lemma {:induction false} ChoiceRuns(c: Expr, t: Stmt, e: Stmt, env: Env, f: string)
    ensures Run(Choice(c, t, e), env, f) == if Eval(c, env) != 0 then Run(t, env, f) else Run(e, env, f)
  {
    if IsNoOp(t) && IsNoOp(e) {
      assert Choice(c, t, e) == NoOp;
    } else {
      assert Choice(c, t, e) == IfThenElse(c, t, e);
    }
  }

  /** The producer's copies of two statements visited one after the other run their shares. */
  ghost predicate PairOk(a: Stmt, b: Stmt, env: Env, f: string, m: nat, n: nat)
    requires Visited(a, f) + Visited(b, f) <= m
  {
    var ra := GenProducer(a, f, SemaNames(f, n));
    && ra.Some?
    && var rb := GenProducer(b, f, ra.value.1);
       && rb.Some?
       && Run(ra.value.0, env, f) == ProducerView(SeqRun(a, env, f, m), f, n)
       && Run(rb.value.0, env, f) == ProducerView(SeqRun(b, env, f, m - Visited(a, f)), f, n)
  }

  lemma {:induction false} ProducerPairRuns(a: Stmt, b: Stmt, env: Env, f: string, m: nat, n: nat)
    requires Plain(a) && Flat(a, f) && Plain(b) && Flat(b, f)
    requires Visited(a, f) + Visited(b, f) <= m
    requires HasNode(a, f, true) || HasNode(b, f, true)
    requires GenProducer(a, f, SemaNames(f, n)).Some?
    requires GenProducer(b, f, GenProducer(a, f, SemaNames(f, n)).value.1).Some?
    ensures PairOk(a, b, env, f, m, n)
    decreases Size(a) + Size(b), 0
  {
    ProducerRuns(a, env, f, m, n);
    if HasNode(a, f, true) {
      SecondCollapses(a, b, env, f, m, n);
    } else {
      FirstCollapses(a, b, f, n);
      ProducerRuns(b, env, f, m - Visited(a, f), n);
    }
  }

  /** A first statement that does not produce leaves the vector to the second. */
  lemma {:induction false} FirstCollapses(a: Stmt, b: Stmt, f: string, n: nat)
    requires Plain(a) && Flat(a, f) && Plain(b) && Flat(b, f) && !HasNode(a, f, true) && HasNode(b, f, true)
    requires GenProducer(a, f, SemaNames(f, n)).Some?
    requires GenProducer(b, f, GenProducer(a, f, SemaNames(f, n)).value.1).Some?
    ensures GenProducer(a, f, SemaNames(f, n)).value.1 == SemaNames(f, n)
  {
    ProducerPairConsumesVector(a, b, f, SemaNames(f, n));
    ProducerCollapses(a, f, SemaNames(f, n));
  }

  /** Once the first statement has produced, the second one's copy does nothing. */
  lemma {:induction false} SecondCollapses(a: Stmt, b: Stmt, env: Env, f: string, m: nat, n: nat)
    requires Plain(a) && Flat(a, f) && Plain(b) && Flat(b, f) && HasNode(a, f, true)
    requires Visited(a, f) + Visited(b, f) <= m
    requires GenProducer(a, f, SemaNames(f, n)).Some?
    requires GenProducer(b, f, GenProducer(a, f, SemaNames(f, n)).value.1).Some?
    ensures var b' := GenProducer(b, f, GenProducer(a, f, SemaNames(f, n)).value.1).value.0;
      Run(b', env, f) == ProducerView(SeqRun(b, env, f, m - Visited(a, f)), f, n)
  {
    var sema := SemaNames(f, n);
    ProducerPairConsumesVector(a, b, f, sema);
    ProducerCollapses(b, f, GenProducer(a, f, sema).value.1);
    NothingProduced(b, env, f, m - Visited(a, f), n);
  }

  lemma {:induction false} ProducerLoopRuns(b: Stmt, x: string, lo: int, iters: nat, env: Env, f: string, m: nat,
                                            n: nat)
    requires Plain(b) && Flat(b, f) && Visited(b, f) <= m
    requires GenProducer(b, f, SemaNames(f, n)).Some?
    ensures RunLoop(GenProducer(b, f, SemaNames(f, n)).value.0, x, lo, iters, env, f)
         == ProducerView(SeqLoop(b, x, lo, iters, env, f, m), f, n)
    decreases Size(b), iters + 1
  {
    if iters > 0 {
      ProducerLoopRuns(b, x, lo, iters - 1, env, f, m, n);
      ProducerRuns(b, env[x := lo + iters - 1], f, m, n);
      ProducerViewConcat(SeqLoop(b, x, lo, iters - 1, env, f, m), SeqRun(b, env[x := lo + iters - 1], f, m), f, n);
    }
  }
}
