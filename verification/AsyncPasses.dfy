/**
 * The clean-up passes after forking: src/AsyncProducers.cpp, ExpandAcquireNodes and
 * TightenForkNodes.  Both move nodes across each other; both leave every task's sequence of
 * work, acquires and releases alone.
 */
module AsyncPasses {
  import opened Ir
  import opened AsyncIr

  /** stmt_uses_var: mentions or defines the name.  Loop and produce/consume names do not count. */
  predicate StmtUses(s: Stmt, x: string)
  {
    match s
    case NoOp => false
    case Leaf(_, buffers, args) => x in buffers || exists i :: 0 <= i < |args| && Uses(args[i], x)
    case Release(sema) => x == sema
    case LetStmt(y, v, b) => x == y || Uses(v, x) || StmtUses(b, x)
    case LetSemaphore(y, b) => x == y || StmtUses(b, x)
    case For(_, lo, n, b) => Uses(lo, x) || Uses(n, x) || StmtUses(b, x)
    case Block(a, b) => StmtUses(a, x) || StmtUses(b, x)
    case Fork(a, b) => StmtUses(a, x) || StmtUses(b, x)
    case Realize(y, b) => x == y || StmtUses(b, x)
    case Allocate(y, b) => x == y || StmtUses(b, x)
    case IfThenElse(c, t, e) => Uses(c, x) || StmtUses(t, x) || StmtUses(e, x)
    case ProducerConsumer(_, _, b) => StmtUses(b, x)
    case Acquire(sema, count, b) => x == sema || Uses(count, x) || StmtUses(b, x)
  }

  // ---- a run only looks at the names the statement uses ----

  ghost predicate Agree(s: Stmt, env: Env, env': Env)
  {
    forall x :: StmtUses(s, x) ==> Lookup(env, x) == Lookup(env', x)
  }

  lemma {:induction false} EvalAllAgree(es: seq<Expr>, env: Env, env': Env)
    requires forall i :: 0 <= i < |es| ==> AgreeOn(es[i], env, env')
    ensures EvalAll(es, env) == EvalAll(es, env')
  {
    if es != [] {
      assert AgreeOn(es[0], env, env');
      EvalAgree(es[0], env, env');
      assert forall i :: 0 <= i < |es[1..]| ==> es[1..][i] == es[i + 1];
      EvalAllAgree(es[1..], env, env');
    }
  }

  lemma {:induction false} RunAgree(s: Stmt, env: Env, env': Env, f: string)
    requires Agree(s, env, env')
    ensures Run(s, env, f) == Run(s, env', f)
    decreases s, 0
  {
    match s
    case NoOp =>
    case Leaf(_, _, args) =>
      assert forall i, x :: 0 <= i < |args| && Uses(args[i], x) ==> StmtUses(s, x);
      EvalAllAgree(args, env, env');
    case Release(_) =>
    case LetStmt(y, v, b) =>
      assert forall x :: Uses(v, x) || StmtUses(b, x) ==> StmtUses(s, x);
      EvalAgree(v, env, env');
      var w := Eval(v, env);
      RunAgree(b, env[y := w], env'[y := w], f);
    case LetSemaphore(_, b) => assert forall x :: StmtUses(b, x) ==> StmtUses(s, x); RunAgree(b, env, env', f);
    case For(_, _, _, _) => RunForAgree(s, env, env', f);
    case Block(_, _) => RunPairAgree(s, env, env', f);
    case Fork(_, _) => RunPairAgree(s, env, env', f);
    case Realize(_, b) => assert forall x :: StmtUses(b, x) ==> StmtUses(s, x); RunAgree(b, env, env', f);
    case Allocate(_, b) => assert forall x :: StmtUses(b, x) ==> StmtUses(s, x); RunAgree(b, env, env', f);
    case IfThenElse(_, _, _) => RunIfAgree(s, env, env', f);
    case ProducerConsumer(_, _, b) => assert forall x :: StmtUses(b, x) ==> StmtUses(s, x); RunAgree(b, env, env', f);
    case Acquire(_, count, b) =>
      assert forall x :: Uses(count, x) || StmtUses(b, x) ==> StmtUses(s, x);
      EvalAgree(count, env, env');
      RunAgree(b, env, env', f);
  }

  lemma {:induction false} RunForAgree(s: Stmt, env: Env, env': Env, f: string)
    requires s.For? && Agree(s, env, env')
    ensures Run(s, env, f) == Run(s, env', f)
    decreases s, -1
  {
    assert forall y :: Uses(s.min, y) || Uses(s.extent, y) || StmtUses(s.body, y) ==> StmtUses(s, y);
    EvalAgree(s.min, env, env');
    EvalAgree(s.extent, env, env');
    var count := Eval(s.extent, env);
    RunLoopAgree(s.body, s.name, Eval(s.min, env), if count < 0 then 0 else count, env, env', f);
  }

  lemma {:induction false} RunPairAgree(s: Stmt, env: Env, env': Env, f: string)
    requires (s.Block? || s.Fork?) && Agree(s, env, env')
    ensures Run(s, env, f) == Run(s, env', f)
    decreases s, -1
  {
    assert forall x :: StmtUses(s.first, x) || StmtUses(s.rest, x) ==> StmtUses(s, x);
    RunAgree(s.first, env, env', f);
    RunAgree(s.rest, env, env', f);
  }

  lemma {:induction false} RunIfAgree(s: Stmt, env: Env, env': Env, f: string)
    requires s.IfThenElse? && Agree(s, env, env')
    ensures Run(s, env, f) == Run(s, env', f)
    decreases s, -1
  {
    assert forall x :: Uses(s.cond, x) || StmtUses(s.thenCase, x) || StmtUses(s.elseCase, x) ==> StmtUses(s, x);
    EvalAgree(s.cond, env, env');
    RunAgree(s.thenCase, env, env', f);
    RunAgree(s.elseCase, env, env', f);
  }

  lemma {:induction false} RunLoopAgree(b: Stmt, x: string, lo: int, n: nat, env: Env, env': Env, f: string)
    requires Agree(b, env, env')
    ensures RunLoop(b, x, lo, n, env, f) == RunLoop(b, x, lo, n, env', f)
    decreases b, n + 1
  {
    if n > 0 {
      RunLoopAgree(b, x, lo, n - 1, env, env', f);
      RunAgree(b, env[x := lo + n - 1], env'[x := lo + n - 1], f);
    }
  }

  lemma {:induction false} RunFrame(s: Stmt, env: Env, x: string, v: int, f: string)
    requires !StmtUses(s, x)
    ensures Run(s, env[x := v], f) == Run(s, env, f)
  {
    RunAgree(s, env[x := v], env, f);
  }

  // ---- ExpandAcquireNodes ----

  /** Put `rest` after s, inside whatever s acquires first. */
  function Hoist(s: Stmt, rest: Stmt): (r: Stmt)
    ensures Size(r) == 1 + Size(s) + Size(rest)
  {
    match s
    case Acquire(sema, count, b) => Acquire(sema, count, Hoist(b, rest))
    case _ => Block(s, rest)
  }

  predicate IsLet(s: Stmt) { s.LetStmt? || s.LetSemaphore? }

  function Rebind(s: Stmt, b: Stmt): (r: Stmt)
    requires IsLet(s)
    ensures Size(r) == 1 + Size(b)
  {
    if s.LetStmt? then LetStmt(s.name, s.value, b) else LetSemaphore(s.name, b)
  }

  /** The environment in which the body of a let runs. */
  function Inside(s: Stmt, env: Env): Env
    requires IsLet(s)
  {
    if s.LetStmt? then env[s.name := Eval(s.value, env)] else env
  }

  lemma {:induction false} RebindRuns(s: Stmt, b: Stmt, env: Env, f: string)
    requires IsLet(s)
    ensures Run(Rebind(s, b), env, f) == Run(b, Inside(s, env), f)
    ensures Run(s, env, f) == Run(s.body, Inside(s, env), f)
  {
  }

  lemma {:induction false} InsideFrame(s: Stmt, b: Stmt, env: Env, f: string)
    requires IsLet(s) && !StmtUses(b, s.name)
    ensures Run(b, Inside(s, env), f) == Run(b, env, f)
  {
    if s.LetStmt? { RunFrame(b, env, s.name, Eval(s.value, env), f); }
  }

  /** A let moves inside an acquire that does not depend on it. */
  function LetUnderAcquire(s: Stmt, b: Stmt): (r: Stmt)
    requires IsLet(s)
    ensures Size(r) == 1 + Size(b)
  {
    if b.Acquire? && b.sema != s.name && !Uses(b.count, s.name)
    then Acquire(b.sema, b.count, Rebind(s, b.body)) else Rebind(s, b)
  }

  lemma {:induction false} LetUnderAcquireRuns(s: Stmt, b: Stmt, env: Env, f: string)
    requires IsLet(s)
    ensures Run(LetUnderAcquire(s, b), env, f) == Run(b, Inside(s, env), f)
  {
    RebindRuns(s, b, env, f);
    if b.Acquire? && !Uses(b.count, s.name) {
      RebindRuns(s, b.body, env, f);
      if s.LetStmt? { EvalFrame(b.count, env, s.name, Eval(s.value, env)); }
    }
  }

  /**
   * The pass.  A realization or a produce/consume node that finds an acquire below it is
   * rebuilt under the acquire and visited again; that ends because no visit changes the
   * number of nodes.
   */
  function Expand(s: Stmt): (r: Stmt)
    ensures Size(r) == Size(s)
    decreases Size(s), 0
  {
    match s
    case Block(a, b) => Hoist(Expand(a), Expand(b))
    case Realize(x, b) => ExpandRealize(x, b)
    case LetStmt(x, v, b) => LetUnderAcquire(s, Expand(b))
    case LetSemaphore(x, b) => LetUnderAcquire(s, Expand(b))
    case ProducerConsumer(x, isProducer, b) => ExpandProducerConsumer(x, isProducer, b)
    case For(x, lo, n, b) => For(x, lo, n, Expand(b))
    case Fork(a, b) => Fork(Expand(a), Expand(b))
    case Allocate(x, b) => Allocate(x, Expand(b))
    case IfThenElse(c, t, e) => IfThenElse(c, Expand(t), Expand(e))
    case Acquire(sema, count, b) => Acquire(sema, count, Expand(b))
    case _ => s
  }

  /** The visit of a realization; the rebuilt realization is visited in turn. */
  function ExpandRealize(x: string, b: Stmt): (r: Stmt)
    ensures Size(r) == 1 + Size(b)
    decreases Size(b), 1
  {
    var b' := Expand(b);
    if b'.Acquire? then Acquire(b'.sema, b'.count, ExpandRealize(x, b'.body)) else Realize(x, b')
  }

  function ExpandProducerConsumer(x: string, isProducer: bool, b: Stmt): (r: Stmt)
    ensures Size(r) == 1 + Size(b)
    decreases Size(b), 1
  {
    var b' := Expand(b);
    if b'.Acquire? then Acquire(b'.sema, b'.count, ExpandProducerConsumer(x, isProducer, b'.body))
    else ProducerConsumer(x, isProducer, b')
  }

  function HoistAll(stmts: seq<Stmt>, last: Stmt): Stmt
  {
    if stmts == [] then last else Hoist(stmts[0], HoistAll(stmts[1..], last))
  }

  lemma {:induction false} HoistAllSnoc(stmts: seq<Stmt>, s: Stmt, last: Stmt)
    ensures HoistAll(stmts + [s], last) == HoistAll(stmts, Hoist(s, last))
  {
    if stmts == [] {
      assert ([s])[1..] == [];
      assert stmts + [s] == [s];
    } else {
      assert (stmts + [s])[1..] == stmts[1..] + [s];
      HoistAllSnoc(stmts[1..], s, last);
    }
  }

  function Wrapped(semaphores: seq<(string, Expr)>, s: Stmt): Stmt
  {
    if semaphores == [] then s
    else Acquire(semaphores[0].0, semaphores[0].1, Wrapped(semaphores[1..], s))
  }

  lemma {:induction false} WrappedSnoc(semaphores: seq<(string, Expr)>, a: (string, Expr), s: Stmt)
    ensures Wrapped(semaphores + [a], s) == Wrapped(semaphores, Acquire(a.0, a.1, s))
  {
    if semaphores == [] {
      assert ([a])[1..] == [];
      assert semaphores + [a] == [a];
    } else {
      assert (semaphores + [a])[1..] == semaphores[1..] + [a];
      WrappedSnoc(semaphores[1..], a, s);
    }
  }

  /** The visit of a chain of blocks, which works through it with explicit vectors. */
  method ExpandBlock(block: Stmt) returns (result: Stmt)
    requires block.Block?
    ensures result == Expand(block)
  {
    var stmts: seq<Stmt> := [];
    result := block;
    while result.Block?
      invariant HoistAll(stmts, Expand(result)) == Expand(block)
      decreases result
    {
      HoistAllSnoc(stmts, Expand(result.first), Expand(result.rest));
      stmts := stmts + [Expand(result.first)];
      result := result.rest;
    }
    result := Expand(result);
    while stmts != []
      invariant HoistAll(stmts, result) == Expand(block)
      decreases |stmts|
    {
      var s := stmts[|stmts| - 1];
      assert stmts == stmts[..|stmts| - 1] + [s];
      HoistAllSnoc(stmts[..|stmts| - 1], s, result);
      result := MergeUnderAcquires(s, result);
      stmts := stmts[..|stmts| - 1];
    }
  }

  method MergeUnderAcquires(stmt: Stmt, rest: Stmt) returns (result: Stmt)
    ensures result == Hoist(stmt, rest)
  {
    var semaphores: seq<(string, Expr)> := [];
    var s := stmt;
    while s.Acquire?
      invariant Wrapped(semaphores, Hoist(s, rest)) == Hoist(stmt, rest)
      decreases s
    {
      WrappedSnoc(semaphores, (s.sema, s.count), Hoist(s.body, rest));
      semaphores := semaphores + [(s.sema, s.count)];
      s := s.body;
    }
    result := Block(s, rest);
    while semaphores != []
      invariant Wrapped(semaphores, result) == Hoist(stmt, rest)
      decreases |semaphores|
    {
      var a := semaphores[|semaphores| - 1];
      assert semaphores == semaphores[..|semaphores| - 1] + [a];
      WrappedSnoc(semaphores[..|semaphores| - 1], a, result);
      result := Acquire(a.0, a.1, result);
      semaphores := semaphores[..|semaphores| - 1];
    }
  }

  lemma {:induction false} HoistRuns(s: Stmt, rest: Stmt, env: Env, f: string)
    ensures Run(Hoist(s, rest), env, f) == Run(s, env, f) + Run(rest, env, f)
    decreases s
  {
    if s.Acquire? {
      HoistRuns(s.body, rest, env, f);
      var a := [Ev(Acq(s.sema, Eval(s.count, env)))];
      assert a + (Run(s.body, env, f) + Run(rest, env, f)) == a + Run(s.body, env, f) + Run(rest, env, f);
    }
  }

  lemma {:induction false} HoistNodes(s: Stmt, rest: Stmt, f: string, isProducer: bool)
    ensures HasNode(Hoist(s, rest), f, isProducer) <==> HasNode(s, f, isProducer) || HasNode(rest, f, isProducer)
    decreases s
  {
    if s.Acquire? { HoistNodes(s.body, rest, f, isProducer); }
  }

  lemma {:induction false} ExpandNodes(s: Stmt, f: string, isProducer: bool)
    ensures HasNode(Expand(s), f, isProducer) <==> HasNode(s, f, isProducer)
    decreases Size(s), 0
  {
    match s
    case NoOp =>
    case Leaf(_, _, _) =>
    case Release(_) =>
    case Block(a, b) =>
      ExpandNodes(a, f, isProducer); ExpandNodes(b, f, isProducer);
      HoistNodes(Expand(a), Expand(b), f, isProducer);
    case Realize(x, b) => ExpandRealizeNodes(x, b, f, isProducer);
    case LetStmt(_, _, b) => ExpandNodes(b, f, isProducer);
    case LetSemaphore(_, b) => ExpandNodes(b, f, isProducer);
    case ProducerConsumer(x, p, b) => ExpandProducerConsumerNodes(x, p, b, f, isProducer);
    case For(_, _, _, b) => ExpandNodes(b, f, isProducer);
    case Fork(a, b) => ExpandNodes(a, f, isProducer); ExpandNodes(b, f, isProducer);
    case Allocate(_, b) => ExpandNodes(b, f, isProducer);
    case IfThenElse(_, t, e) => ExpandNodes(t, f, isProducer); ExpandNodes(e, f, isProducer);
    case Acquire(_, _, b) => ExpandNodes(b, f, isProducer);
  }

  lemma {:induction false} ExpandRealizeNodes(x: string, b: Stmt, f: string, isProducer: bool)
    ensures HasNode(ExpandRealize(x, b), f, isProducer) <==> HasNode(b, f, isProducer)
    decreases Size(b), 1
  {
    ExpandNodes(b, f, isProducer);
    var b', r := Expand(b), ExpandRealize(x, b);
    if b'.Acquire? {
      ExpandRealizeNodes(x, b'.body, f, isProducer);
      assert r == Acquire(b'.sema, b'.count, ExpandRealize(x, b'.body));
    } else {
      assert r == Realize(x, b');
    }
  }

  lemma {:induction false} ExpandProducerConsumerNodes(x: string, p: bool, b: Stmt, f: string, isProducer: bool)
    ensures HasNode(ExpandProducerConsumer(x, p, b), f, isProducer) <==>
              (x == f && p == isProducer) || HasNode(b, f, isProducer)
    decreases Size(b), 1
  {
    ExpandNodes(b, f, isProducer);
    var b' := Expand(b);
    if b'.Acquire? { ExpandProducerConsumerNodes(x, p, b'.body, f, isProducer); }
  }

  /**
   * The pass keeps the run: same work on the same values, same acquires and releases, in the same
   * order, on the same sides of the same forks.  (Seen through a function f whose nodes do not
   * occur, since the pass may move an acquire across the borders of a produce or consume node.)
   */
  lemma {:induction false} ExpandRuns(s: Stmt, env: Env, f: string)
    requires Untouched(s, f)
    ensures Run(Expand(s), env, f) == Run(s, env, f)
    decreases Size(s), 0
  {
    match s
    case NoOp =>
    case Leaf(_, _, _) =>
    case Release(_) =>
    case Block(a, b) =>
      ExpandRuns(a, env, f); ExpandRuns(b, env, f);
      HoistRuns(Expand(a), Expand(b), env, f);
    case Realize(x, b) => ExpandRealizeRuns(x, b, env, f);
    case LetStmt(_, _, b) =>
      ExpandRuns(b, Inside(s, env), f);
      LetUnderAcquireRuns(s, Expand(b), env, f);
    case LetSemaphore(_, b) =>
      ExpandRuns(b, Inside(s, env), f);
      LetUnderAcquireRuns(s, Expand(b), env, f);
    case ProducerConsumer(x, p, b) => ExpandProducerConsumerRuns(x, p, b, env, f);
    case For(x, lo, n, b) =>
      var count := Eval(n, env);
      ExpandLoopRuns(b, x, Eval(lo, env), if count < 0 then 0 else count, env, f);
    case Fork(a, b) => ExpandRuns(a, env, f); ExpandRuns(b, env, f);
    case Allocate(_, b) => ExpandRuns(b, env, f);
    case IfThenElse(_, t, e) => ExpandRuns(t, env, f); ExpandRuns(e, env, f);
    case Acquire(_, _, b) => ExpandRuns(b, env, f);
  }

  lemma {:induction false} ExpandRealizeRuns(x: string, b: Stmt, env: Env, f: string)
    requires Untouched(b, f)
    ensures Run(ExpandRealize(x, b), env, f) == Run(b, env, f)
    decreases Size(b), 1
  {
    ExpandRuns(b, env, f);
    var b' := Expand(b);
    if b'.Acquire? {
      ExpandNodes(b, f, true); ExpandNodes(b, f, false);
      ExpandRealizeRuns(x, b'.body, env, f);
    }
  }

  lemma {:induction false} ExpandProducerConsumerRuns(x: string, p: bool, b: Stmt, env: Env, f: string)
    requires Untouched(b, f) && x != f
    ensures Run(ExpandProducerConsumer(x, p, b), env, f) == Run(b, env, f)
    decreases Size(b), 1
  {
    ExpandRuns(b, env, f);
    var b' := Expand(b);
    if b'.Acquire? {
      ExpandNodes(b, f, true); ExpandNodes(b, f, false);
      ExpandProducerConsumerRuns(x, p, b'.body, env, f);
    }
  }

  lemma {:induction false} ExpandLoopRuns(b: Stmt, x: string, lo: int, n: nat, env: Env, f: string)
    requires Untouched(b, f)
    ensures RunLoop(Expand(b), x, lo, n, env, f) == RunLoop(b, x, lo, n, env, f)
    decreases Size(b), n + 1
  {
    if n > 0 {
      ExpandLoopRuns(b, x, lo, n - 1, env, f);
      ExpandRuns(b, env[x := lo + n - 1], f);
    }
  }

  // ---- TightenForkNodes ----

  predicate SameLet(a: Stmt, b: Stmt)
  {
    || (a.LetStmt? && b.LetStmt? && a.name == b.name && a.value == b.value)
    || (a.LetSemaphore? && b.LetSemaphore? && a.name == b.name)
  }

  /** make_fork: pull lets and allocations that only one side needs out of the fork. */
  function MakeFork(a: Stmt, b: Stmt): Stmt
    decreases Size(a) + Size(b)
  {
    if IsLet(a) && IsLet(b) && SameLet(a, b) then Rebind(a, MakeFork(a.body, b.body))
    else if IsLet(a) && !StmtUses(b, a.name) then Rebind(a, MakeFork(a.body, b))
    else if IsLet(b) && !StmtUses(a, b.name) then Rebind(b, MakeFork(a, b.body))
    else if a.Realize? && !StmtUses(b, a.name) then Realize(a.name, MakeFork(a.body, b))
    else if b.Realize? && !StmtUses(a, b.name) then Realize(b.name, MakeFork(a, b.body))
    else Fork(a, b)
  }

  function Tighten(s: Stmt, inFork: bool): Stmt
  {
    match s
    case Fork(a, b) =>
      var a', b' := Tighten(a, true), Tighten(b, true);
      if IsNoOp(a') then b' else if IsNoOp(b') then a' else MakeFork(a', b')
    case Realize(x, b) =>
      var b' := Tighten(b, inFork);
      if inFork && !StmtUses(b', x) && !StmtUses(b', x + ".buffer") then b' else Realize(x, b')
    case LetStmt(x, v, b) =>
      var b' := Tighten(b, inFork);
      if inFork && !StmtUses(b', x) then b' else LetStmt(x, v, b')
    case LetSemaphore(x, b) =>
      var b' := Tighten(b, inFork);
      if inFork && !StmtUses(b', x) then b' else LetSemaphore(x, b')
    case For(x, lo, n, b) => For(x, lo, n, Tighten(b, inFork))
    case Block(a, b) => Block(Tighten(a, inFork), Tighten(b, inFork))
    case Allocate(x, b) => Allocate(x, Tighten(b, inFork))
    case IfThenElse(c, t, e) => IfThenElse(c, Tighten(t, inFork), Tighten(e, inFork))
    case ProducerConsumer(x, p, b) => ProducerConsumer(x, p, Tighten(b, inFork))
    case Acquire(sema, count, b) => Acquire(sema, count, Tighten(b, inFork))
    case _ => s
  }

  /** inner runs the two statements side by side. */
  ghost predicate RunsTogether(inner: Stmt, a: Stmt, b: Stmt, env: Env, f: string)
  {
    Run(inner, env, f) == Together(Run(a, env, f), Run(b, env, f))
  }

  lemma {:induction false} ForkSameLet(inner: Stmt, a: Stmt, b: Stmt, env: Env, f: string)
    requires IsLet(a) && IsLet(b) && SameLet(a, b) && RunsTogether(inner, a.body, b.body, Inside(a, env), f)
    ensures RunsTogether(Rebind(a, inner), a, b, env, f)
  {
    RebindRuns(a, inner, env, f);
    RebindRuns(b, inner, env, f);
  }

  lemma {:induction false} ForkLeftLet(inner: Stmt, a: Stmt, b: Stmt, env: Env, f: string)
    requires IsLet(a) && !StmtUses(b, a.name) && RunsTogether(inner, a.body, b, Inside(a, env), f)
    ensures RunsTogether(Rebind(a, inner), a, b, env, f)
  {
    RebindRuns(a, inner, env, f);
    InsideFrame(a, b, env, f);
  }

  lemma {:induction false} ForkRightLet(inner: Stmt, a: Stmt, b: Stmt, env: Env, f: string)
    requires IsLet(b) && !StmtUses(a, b.name) && RunsTogether(inner, a, b.body, Inside(b, env), f)
    ensures RunsTogether(Rebind(b, inner), a, b, env, f)
  {
    RebindRuns(b, inner, env, f);
    InsideFrame(b, a, env, f);
  }

  lemma {:induction false} ForkLeftRealize(inner: Stmt, a: Stmt, b: Stmt, env: Env, f: string)
    requires a.Realize? && RunsTogether(inner, a.body, b, env, f)
    ensures RunsTogether(Realize(a.name, inner), a, b, env, f)
  {
  }

  lemma {:induction false} ForkRightRealize(inner: Stmt, a: Stmt, b: Stmt, env: Env, f: string)
    requires b.Realize? && RunsTogether(inner, a, b.body, env, f)
    ensures RunsTogether(Realize(b.name, inner), a, b, env, f)
  {
  }

  lemma {:induction false} MakeForkRuns(a: Stmt, b: Stmt, env: Env, f: string)
    ensures RunsTogether(MakeFork(a, b), a, b, env, f)
    decreases Size(a) + Size(b), 1
  {
    if IsLet(a) || IsLet(b) {
      MakeForkOfLet(a, b, env, f);
    } else if a.Realize? && !StmtUses(b, a.name) {
      MakeForkRuns(a.body, b, env, f);
      ForkLeftRealize(MakeFork(a.body, b), a, b, env, f);
    } else if b.Realize? && !StmtUses(a, b.name) {
      MakeForkRuns(a, b.body, env, f);
      ForkRightRealize(MakeFork(a, b.body), a, b, env, f);
    }
  }

  lemma {:induction false} MakeForkOfLet(a: Stmt, b: Stmt, env: Env, f: string)
    requires IsLet(a) || IsLet(b)
    ensures RunsTogether(MakeFork(a, b), a, b, env, f)
    decreases Size(a) + Size(b), 0
  {
    if IsLet(a) && IsLet(b) && SameLet(a, b) {
      MakeForkRuns(a.body, b.body, Inside(a, env), f);
      ForkSameLet(MakeFork(a.body, b.body), a, b, env, f);
    } else if IsLet(a) && !StmtUses(b, a.name) {
      MakeForkRuns(a.body, b, Inside(a, env), f);
      ForkLeftLet(MakeFork(a.body, b), a, b, env, f);
    } else if IsLet(b) && !StmtUses(a, b.name) {
      MakeForkRuns(a, b.body, Inside(b, env), f);
      ForkRightLet(MakeFork(a, b.body), a, b, env, f);
    } else if a.Realize? && !StmtUses(b, a.name) {
      MakeForkRuns(a.body, b, env, f);
      ForkLeftRealize(MakeFork(a.body, b), a, b, env, f);
    } else if b.Realize? && !StmtUses(a, b.name) {
      MakeForkRuns(a, b.body, env, f);
      ForkRightRealize(MakeFork(a, b.body), a, b, env, f);
    }
  }

  /** The pass keeps the run, whatever function it is seen through. */
  lemma {:induction false} TightenRuns(s: Stmt, inFork: bool, env: Env, f: string)
    ensures Run(Tighten(s, inFork), env, f) == Run(s, env, f)
    decreases s, 0
  {
    match s
    case NoOp =>
    case Leaf(_, _, _) =>
    case Release(_) =>
    case Fork(a, b) =>
      TightenRuns(a, true, env, f);
      TightenRuns(b, true, env, f);
      MakeForkRuns(Tighten(a, true), Tighten(b, true), env, f);
    case Realize(_, b) => TightenRuns(b, inFork, env, f);
    case LetStmt(x, v, b) =>
      var w := Eval(v, env);
      TightenRuns(b, inFork, env[x := w], f);
      if inFork && !StmtUses(Tighten(b, inFork), x) { RunFrame(Tighten(b, inFork), env, x, w, f); }
    case LetSemaphore(_, b) => TightenRuns(b, inFork, env, f);
    case For(x, lo, n, b) =>
      var count := Eval(n, env);
      TightenLoopRuns(b, inFork, x, Eval(lo, env), if count < 0 then 0 else count, env, f);
    case Block(a, b) => TightenRuns(a, inFork, env, f); TightenRuns(b, inFork, env, f);
    case Allocate(_, b) => TightenRuns(b, inFork, env, f);
    case IfThenElse(_, t, e) => TightenRuns(t, inFork, env, f); TightenRuns(e, inFork, env, f);
    case ProducerConsumer(_, _, b) => TightenRuns(b, inFork, env, f);
    case Acquire(_, _, b) => TightenRuns(b, inFork, env, f);
  }

  lemma {:induction false} TightenLoopRuns(b: Stmt, inFork: bool, x: string, lo: int, n: nat, env: Env, f: string)
    ensures RunLoop(Tighten(b, inFork), x, lo, n, env, f) == RunLoop(b, x, lo, n, env, f)
    decreases b, n + 1
  {
    if n > 0 {
      TightenLoopRuns(b, inFork, x, lo, n - 1, env, f);
      TightenRuns(b, inFork, env[x := lo + n - 1], f);
    }
  }
}
