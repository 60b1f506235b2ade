/**
 * Statements as src/AsyncProducers.cpp sees them, and what running one does.
 *
 * A run is a sequence of actions.  A leaf does some work on evaluated arguments,
 * `Acq` and `Rel` are the semaphore operations, `Produced` marks the end of a
 * produce node of the function under study and `Entered` the start of one of its
 * consume nodes.  `Par` is a fork whose two sides both have something to do.
 */
module AsyncIr {
  import opened Ir

  datatype Stmt =
    | NoOp
    | Leaf(id: nat, buffers: seq<string>, args: seq<Expr>)
    | Release(rsema: string)
    | LetStmt(name: string, value: Expr, body: Stmt)
    | LetSemaphore(name: string, body: Stmt)
    | For(name: string, min: Expr, extent: Expr, body: Stmt)
    | Block(first: Stmt, rest: Stmt)
    | Fork(first: Stmt, rest: Stmt)
    | Realize(name: string, body: Stmt)
    | Allocate(name: string, body: Stmt)
    | IfThenElse(cond: Expr, thenCase: Stmt, elseCase: Stmt)
    | ProducerConsumer(name: string, isProducer: bool, body: Stmt)
    | Acquire(sema: string, count: Expr, body: Stmt)

  datatype Event =
    | Do(id: nat, args: seq<int>)
    | Acq(sema: string, count: int)
    | Rel(sema: string)
    | Entered
    | Produced

  datatype Action = Ev(e: Event) | Par(left: seq<Action>, right: seq<Action>)

  function EvalAll(es: seq<Expr>, env: Env): (vs: seq<int>)
    ensures |vs| == |es|
  {
    if es == [] then [] else [Eval(es[0], env)] + EvalAll(es[1..], env)
  }

  /** A fork with an idle side is just the other side. */
  function Together(left: seq<Action>, right: seq<Action>): seq<Action>
  {
    if left == [] then right else if right == [] then left else [Par(left, right)]
  }

  function Run(s: Stmt, env: Env, f: string): seq<Action>
    decreases s, 0
  {
    match s
    case NoOp => []
    case Leaf(id, _, args) => [Ev(Do(id, EvalAll(args, env)))]
    case Release(sema) => [Ev(Rel(sema))]
    case LetStmt(x, v, b) => Run(b, env[x := Eval(v, env)], f)
    case LetSemaphore(_, b) => Run(b, env, f)
    case For(x, lo, n, b) =>
      var count := Eval(n, env);
      RunLoop(b, x, Eval(lo, env), if count < 0 then 0 else count, env, f)
    case Block(a, b) => Run(a, env, f) + Run(b, env, f)
    case Fork(a, b) => Together(Run(a, env, f), Run(b, env, f))
    case Realize(_, b) => Run(b, env, f)
    case Allocate(_, b) => Run(b, env, f)
    case IfThenElse(c, t, e) => if Eval(c, env) != 0 then Run(t, env, f) else Run(e, env, f)
    case ProducerConsumer(name, isProducer, b) =>
      if name != f then Run(b, env, f)
      else if isProducer then Run(b, env, f) + [Ev(Produced)]
      else [Ev(Entered)] + Run(b, env, f)
    case Acquire(sema, count, b) => [Ev(Acq(sema, Eval(count, env)))] + Run(b, env, f)
  }

  /** The first n iterations of a loop. */
  function RunLoop(body: Stmt, x: string, lo: int, n: nat, env: Env, f: string): seq<Action>
    decreases body, n + 1
  {
    if n == 0 then []
    else RunLoop(body, x, lo, n - 1, env, f) + Run(body, env[x := lo + n - 1], f)
  }

  lemma {:induction false} RunLoopNoOp(x: string, lo: int, n: nat, env: Env, f: string)
    ensures RunLoop(NoOp, x, lo, n, env, f) == []
  {
    if n > 0 { RunLoopNoOp(x, lo, n - 1, env, f); }
  }

  /** is_no_op */
  predicate IsNoOp(s: Stmt) { s.NoOp? }

  /** A statement before any async function has been forked: no synchronisation in it yet. */
  predicate Plain(s: Stmt)
  {
    match s
    case NoOp => true
    case Leaf(_, _, _) => true
    case Release(_) => false
    case LetStmt(_, _, b) => Plain(b)
    case LetSemaphore(_, b) => false
    case For(_, _, _, b) => Plain(b)
    case Block(a, b) => Plain(a) && Plain(b)
    case Fork(a, b) => false
    case Realize(_, b) => Plain(b)
    case Allocate(_, b) => Plain(b)
    case IfThenElse(_, t, e) => Plain(t) && Plain(e)
    case ProducerConsumer(_, _, b) => Plain(b)
    case Acquire(_, _, b) => false
  }

  /** Does the statement hold a produce (or consume) node of f? */
  predicate HasNode(s: Stmt, f: string, isProducer: bool)
  {
    match s
    case NoOp => false
    case Leaf(_, _, _) => false
    case Release(_) => false
    case LetStmt(_, _, b) => HasNode(b, f, isProducer)
    case LetSemaphore(_, b) => HasNode(b, f, isProducer)
    case For(_, _, _, b) => HasNode(b, f, isProducer)
    case Block(a, b) => HasNode(a, f, isProducer) || HasNode(b, f, isProducer)
    case Fork(a, b) => HasNode(a, f, isProducer) || HasNode(b, f, isProducer)
    case Realize(_, b) => HasNode(b, f, isProducer)
    case Allocate(_, b) => HasNode(b, f, isProducer)
    case IfThenElse(_, t, e) => HasNode(t, f, isProducer) || HasNode(e, f, isProducer)
    case ProducerConsumer(g, p, b) => (g == f && p == isProducer) || HasNode(b, f, isProducer)
    case Acquire(_, _, b) => HasNode(b, f, isProducer)
  }

  predicate Untouched(s: Stmt, f: string) { !HasNode(s, f, true) && !HasNode(s, f, false) }

  /** No node of f sits inside another node of f. */
  predicate Flat(s: Stmt, f: string)
  {
    match s
    case NoOp => true
    case Leaf(_, _, _) => true
    case Release(_) => true
    case LetStmt(_, _, b) => Flat(b, f)
    case LetSemaphore(_, b) => Flat(b, f)
    case For(_, _, _, b) => Flat(b, f)
    case Block(a, b) => Flat(a, f) && Flat(b, f)
    case Fork(a, b) => Flat(a, f) && Flat(b, f)
    case Realize(_, b) => Flat(b, f)
    case Allocate(_, b) => Flat(b, f)
    case IfThenElse(_, t, e) => Flat(t, f) && Flat(e, f)
    case ProducerConsumer(g, _, b) => if g == f then Untouched(b, f) else Flat(b, f)
    case Acquire(_, _, b) => Flat(b, f)
  }

  /** CountConsumeNodes */
  function CountConsumes(s: Stmt, f: string): nat
  {
    match s
    case NoOp => 0
    case Leaf(_, _, _) => 0
    case Release(_) => 0
    case LetStmt(_, _, b) => CountConsumes(b, f)
    case LetSemaphore(_, b) => CountConsumes(b, f)
    case For(_, _, _, b) => CountConsumes(b, f)
    case Block(a, b) => CountConsumes(a, f) + CountConsumes(b, f)
    case Fork(a, b) => CountConsumes(a, f) + CountConsumes(b, f)
    case Realize(_, b) => CountConsumes(b, f)
    case Allocate(_, b) => CountConsumes(b, f)
    case IfThenElse(_, t, e) => CountConsumes(t, f) + CountConsumes(e, f)
    case ProducerConsumer(g, p, b) => (if g == f && !p then 1 else 0) + CountConsumes(b, f)
    case Acquire(_, _, b) => CountConsumes(b, f)
  }

  /** Number of nodes; the measure for passes that revisit what they rebuilt. */
  function Size(s: Stmt): nat
    ensures Size(s) >= 1
  {
    match s
    case NoOp => 1
    case Leaf(_, _, _) => 1
    case Release(_) => 1
    case LetStmt(_, _, b) => 1 + Size(b)
    case LetSemaphore(_, b) => 1 + Size(b)
    case For(_, _, _, b) => 1 + Size(b)
    case Block(a, b) => 1 + Size(a) + Size(b)
    case Fork(a, b) => 1 + Size(a) + Size(b)
    case Realize(_, b) => 1 + Size(b)
    case Allocate(_, b) => 1 + Size(b)
    case IfThenElse(_, t, e) => 1 + Size(t) + Size(e)
    case ProducerConsumer(_, _, b) => 1 + Size(b)
    case Acquire(_, _, b) => 1 + Size(b)
  }

  predicate IsWork(a: Action) { a.Ev? && a.e.Do? }

  /** A plain statement that has no node of f only does work. */
  lemma {:induction false} PlainRunsWork(s: Stmt, env: Env, f: string)
    requires Plain(s) && Untouched(s, f)
    ensures forall a :: a in Run(s, env, f) ==> IsWork(a)
    decreases s, 0
  {
    match s
    case NoOp =>
    case Leaf(_, _, _) =>
    case LetStmt(x, v, b) => PlainRunsWork(b, env[x := Eval(v, env)], f);
    case For(x, lo, n, b) =>
      var count := Eval(n, env);
      PlainLoopRunsWork(b, x, Eval(lo, env), if count < 0 then 0 else count, env, f);
    case Block(a, b) => PlainRunsWork(a, env, f); PlainRunsWork(b, env, f);
    case Realize(_, b) => PlainRunsWork(b, env, f);
    case Allocate(_, b) => PlainRunsWork(b, env, f);
    case IfThenElse(c, t, e) => PlainRunsWork(t, env, f); PlainRunsWork(e, env, f);
    case ProducerConsumer(_, _, b) => PlainRunsWork(b, env, f);
  }

  lemma {:induction false} PlainLoopRunsWork(b: Stmt, x: string, lo: int, n: nat, env: Env, f: string)
    requires Plain(b) && Untouched(b, f)
    ensures forall a :: a in RunLoop(b, x, lo, n, env, f) ==> IsWork(a)
    decreases b, n + 1
  {
    if n > 0 {
      PlainLoopRunsWork(b, x, lo, n - 1, env, f);
      PlainRunsWork(b, env[x := lo + n - 1], f);
    }
  }
}
