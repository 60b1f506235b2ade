/**
 * Scoping of what the fork introduces: every semaphore that is acquired or released is declared
 * exactly once around its use, and outside the fork that shares it; the storage of the function is
 * realized around all that touches it.  The later passes, which move nodes across each other and
 * drop unused ones, keep both.
 */
module AsyncScopes {
  import opened Wrappers
  import opened Ir
  import opened AsyncIr
  import opened AsyncFork
  import opened AsyncPasses

  /**
   * With the semaphores `sems` declared around `s`, f realized if `stored`, and `s` part of a fork if
   * `inFork`: whatever is acquired or released is declared, no semaphore is declared twice or inside a
   * fork, and whatever touches f lies in a realization of f that encloses the fork.
   */
  predicate Scoped(s: Stmt, f: string, sems: set<string>, stored: bool, inFork: bool)
  {
    match s
    case NoOp => true
    case Leaf(_, buffers, _) => f in buffers ==> stored
    case Release(x) => x in sems
    case LetStmt(_, _, b) => Scoped(b, f, sems, stored, inFork)
    case LetSemaphore(x, b) => !inFork && x !in sems && Scoped(b, f, sems + {x}, stored, inFork)
    case For(_, _, _, b) => Scoped(b, f, sems, stored, inFork)
    case Block(a, b) => Scoped(a, f, sems, stored, inFork) && Scoped(b, f, sems, stored, inFork)
    case Fork(a, b) => Scoped(a, f, sems, stored, true) && Scoped(b, f, sems, stored, true)
    case Realize(x, b) => (x == f && inFork ==> stored) && Scoped(b, f, sems, stored || x == f, inFork)
    case Allocate(_, b) => Scoped(b, f, sems, stored, inFork)
    case IfThenElse(_, t, e) => Scoped(t, f, sems, stored, inFork) && Scoped(e, f, sems, stored, inFork)
    case ProducerConsumer(g, _, b) => (g == f ==> stored) && Scoped(b, f, sems, stored, inFork)
    case Acquire(x, _, b) => x in sems && Scoped(b, f, sems, stored, inFork)
  }

  /** The semaphores declared in a statement, as often as they are. */
  function Declared(s: Stmt): multiset<string>
  {
    match s
    case NoOp => multiset{}
    case Leaf(_, _, _) => multiset{}
    case Release(_) => multiset{}
    case LetStmt(_, _, b) => Declared(b)
    case LetSemaphore(x, b) => multiset{x} + Declared(b)
    case For(_, _, _, b) => Declared(b)
    case Block(a, b) => Declared(a) + Declared(b)
    case Fork(a, b) => Declared(a) + Declared(b)
    case Realize(_, b) => Declared(b)
    case Allocate(_, b) => Declared(b)
    case IfThenElse(_, t, e) => Declared(t) + Declared(e)
    case ProducerConsumer(_, _, b) => Declared(b)
    case Acquire(_, _, b) => Declared(b)
  }

  /** What the passes owe: n semaphores of f, each declared once, and everything in scope. */
  predicate WellScoped(s: Stmt, f: string, n: nat)
  {
    Scoped(s, f, {}, false, false) && Declared(s) == multiset(SemaNames(f, n))
  }

  lemma {:induction false} ScopedAnywhere(s: Stmt, f: string, sems: set<string>, stored: bool)
    requires Scoped(s, f, sems, stored, true)
    ensures Scoped(s, f, sems, stored, false) && Declared(s) == multiset{}
  {
    match s
    case NoOp =>
    case Leaf(_, _, _) =>
    case Release(_) =>
    case LetStmt(_, _, b) => ScopedAnywhere(b, f, sems, stored);
    case For(_, _, _, b) => ScopedAnywhere(b, f, sems, stored);
    case Block(a, b) => ScopedAnywhere(a, f, sems, stored); ScopedAnywhere(b, f, sems, stored);
    case Fork(a, b) => ScopedAnywhere(a, f, sems, stored); ScopedAnywhere(b, f, sems, stored);
    case Realize(x, b) => ScopedAnywhere(b, f, sems, stored || x == f);
    case Allocate(_, b) => ScopedAnywhere(b, f, sems, stored);
    case IfThenElse(_, t, e) => ScopedAnywhere(t, f, sems, stored); ScopedAnywhere(e, f, sems, stored);
    case ProducerConsumer(_, _, b) => ScopedAnywhere(b, f, sems, stored);
    case Acquire(_, _, b) => ScopedAnywhere(b, f, sems, stored);
  }

  // ---- the fork ----

  lemma {:induction false} PlainScoped(s: Stmt, f: string, sems: set<string>)
    requires Plain(s)
    ensures Scoped(s, f, sems, true, true)
  {
    match s
    case NoOp =>
    case Leaf(_, _, _) =>
    case LetStmt(_, _, b) => PlainScoped(b, f, sems);
    case For(_, _, _, b) => PlainScoped(b, f, sems);
    case Block(a, b) => PlainScoped(a, f, sems); PlainScoped(b, f, sems);
    case Realize(_, b) => PlainScoped(b, f, sems);
    case Allocate(_, b) => PlainScoped(b, f, sems);
    case IfThenElse(_, t, e) => PlainScoped(t, f, sems); PlainScoped(e, f, sems);
    case ProducerConsumer(_, _, b) => PlainScoped(b, f, sems);
  }

  lemma {:induction false} ReleasesScoped(body: Stmt, sema: seq<string>, f: string, sems: set<string>)
    requires Scoped(body, f, sems, true, true) && forall x :: x in sema ==> x in sems
    ensures Scoped(WithReleases(body, sema), f, sems, true, true)
    decreases |sema|
  {
    if sema != [] {
      ReleasesScoped(Block(body, Release(sema[|sema| - 1])), sema[..|sema| - 1], f, sems);
    }
  }

  /** The producer's copy releases only semaphores it was given, and hands on only such. */
  lemma {:induction false} ProducerScoped(s: Stmt, f: string, sema: seq<string>, sems: set<string>)
    requires Plain(s) && GenProducer(s, f, sema).Some? && forall x :: x in sema ==> x in sems
    ensures Scoped(GenProducer(s, f, sema).value.0, f, sems, true, true)
    ensures forall x :: x in GenProducer(s, f, sema).value.1 ==> x in sems
  {
    match s
    case NoOp =>
    case Leaf(_, _, _) =>
    case LetStmt(_, _, b) => ProducerScoped(b, f, sema, sems);
    case For(_, _, _, b) => ProducerScoped(b, f, sema, sems);
    case Block(a, b) =>
      ProducerScoped(a, f, sema, sems);
      ProducerScoped(b, f, GenProducer(a, f, sema).value.1, sems);
    case Realize(_, b) => ProducerScoped(b, f, sema, sems);
    case Allocate(_, b) => ProducerScoped(b, f, sema, sems);
    case IfThenElse(_, t, e) =>
      ProducerScoped(t, f, sema, sems);
      ProducerScoped(e, f, GenProducer(t, f, sema).value.1, sems);
    case ProducerConsumer(g, isProducer, b) =>
      if g == f && isProducer {
        PlainScoped(b, f, sems);
        ReleasesScoped(b, sema, f, sems);
      } else {
        ProducerScoped(b, f, sema, sems);
      }
  }

  /** The consumer's copy acquires only semaphores it was given. */
  lemma {:induction false} ConsumerScoped(s: Stmt, f: string, sema: seq<string>, sems: set<string>)
    requires Plain(s) && Visited(s, f) <= |sema| && forall x :: x in sema ==> x in sems
    ensures Scoped(GenConsumer(s, f, sema).0, f, sems, true, true)
  {
    match s
    case NoOp =>
    case Leaf(_, _, _) =>
    case LetStmt(_, _, b) => ConsumerScoped(b, f, sema, sems);
    case For(_, _, _, b) => ConsumerScoped(b, f, sema, sems);
    case Block(a, b) =>
      ConsumerScoped(a, f, sema, sems);
      ConsumerScoped(b, f, GenConsumer(a, f, sema).1, sems);
    case Realize(_, b) => ConsumerScoped(b, f, sema, sems);
    case Allocate(_, b) => ConsumerScoped(b, f, sema, sems);
    case IfThenElse(_, t, e) =>
      ConsumerScoped(t, f, sema, sems);
      ConsumerScoped(e, f, GenConsumer(t, f, sema).1, sems);
    case ProducerConsumer(g, isProducer, b) =>
      if g == f { PlainScoped(b, f, sems); } else { ConsumerScoped(b, f, sema, sems); }
  }

  function SemaSet(f: string, n: nat): set<string> {
    if n == 0 then {} else {SemaName(f, n - 1)} + SemaSet(f, n - 1)
  }

  lemma {:induction false} SemaSetNames(f: string, n: nat, x: string)
    ensures x in SemaSet(f, n) <==> x in SemaNames(f, n)
  {
    if n > 0 {
      SemaSetNames(f, n - 1, x);
      assert SemaNames(f, n) == SemaNames(f, n - 1) + [SemaName(f, n - 1)];
    }
  }

  lemma {:induction false} SemaphoresScoped(f: string, n: nat, body: Stmt, sems: set<string>)
    requires forall i: nat :: i < n ==> SemaName(f, i) !in sems
    requires Scoped(body, f, sems + SemaSet(f, n), true, false)
    ensures Scoped(WithSemaphores(f, n, body), f, sems, true, false)
  {
    if n == 0 {
      assert sems + SemaSet(f, n) == sems;
    } else {
      var outer := SemaName(f, n - 1);
      assert sems + SemaSet(f, n) == (sems + {outer}) + SemaSet(f, n - 1);
      forall i: nat | i < n - 1 ensures SemaName(f, i) !in sems + {outer} { SemaNameInjective(f, i, n - 1); }
      SemaphoresScoped(f, n - 1, body, sems + {outer});
    }
  }

  lemma {:induction false} SemaphoresDeclared(f: string, n: nat, body: Stmt)
    ensures Declared(WithSemaphores(f, n, body)) == multiset(SemaNames(f, n)) + Declared(body)
  {
    if n > 0 {
      SemaphoresDeclared(f, n - 1, body);
      assert SemaNames(f, n) == SemaNames(f, n - 1) + [SemaName(f, n - 1)];
    }
  }

  /** The fork of a plain body declares its semaphores and its storage around both sides. */
  lemma {:induction false} ForkIsScoped(f: string, body: Stmt)
    requires Plain(body) && ForkRealize(f, body).Some?
    ensures WellScoped(ForkRealize(f, body).value, f, CountConsumes(body, f))
  {
    var n := CountConsumes(body, f);
    var names := SemaNames(f, n);
    var sems := SemaSet(f, n);
    forall x | x in names ensures x in sems { SemaSetNames(f, n, x); }
    EnoughSemaphores(body, f);
    var producer, consumer := GenProducer(body, f, names).value.0, GenConsumer(body, f, names).0;
    ProducerScoped(body, f, names, sems);
    ConsumerScoped(body, f, names, sems);
    ScopedAnywhere(producer, f, sems, true);
    ScopedAnywhere(consumer, f, sems, true);
    assert {} + sems == sems;
    SemaphoresScoped(f, n, Fork(producer, consumer), {});
    SemaphoresDeclared(f, n, Fork(producer, consumer));
  }

  // ---- expanding acquire nodes ----

  lemma {:induction false} HoistScoped(s: Stmt, rest: Stmt, f: string, sems: set<string>, stored: bool, inFork: bool)
    requires Scoped(s, f, sems, stored, inFork) && Scoped(rest, f, sems, stored, inFork)
    ensures Scoped(Hoist(s, rest), f, sems, stored, inFork) && Declared(Hoist(s, rest)) == Declared(s) + Declared(rest)
    decreases s
  {
    if s.Acquire? { HoistScoped(s.body, rest, f, sems, stored, inFork); }
  }

  lemma {:induction false} LetUnderAcquireScoped(s: Stmt, b: Stmt, f: string, sems: set<string>, stored: bool,
                                                 inFork: bool)
    requires IsLet(s) && Scoped(Rebind(s, b), f, sems, stored, inFork)
    ensures Scoped(LetUnderAcquire(s, b), f, sems, stored, inFork)
    ensures Declared(LetUnderAcquire(s, b)) == Declared(Rebind(s, b))
  {
  }

  /** Expanding acquire nodes keeps every use in scope and every declaration. */
  lemma {:induction false} ExpandScoped(s: Stmt, f: string, sems: set<string>, stored: bool, inFork: bool)
    requires Scoped(s, f, sems, stored, inFork)
    ensures Scoped(Expand(s), f, sems, stored, inFork) && Declared(Expand(s)) == Declared(s)
    decreases Size(s), 0
  {
    match s
    case NoOp =>
    case Leaf(_, _, _) =>
    case Release(_) =>
    case Block(a, b) =>
      ExpandScoped(a, f, sems, stored, inFork);
      ExpandScoped(b, f, sems, stored, inFork);
      HoistScoped(Expand(a), Expand(b), f, sems, stored, inFork);
    case Realize(x, b) => ExpandRealizeScoped(x, b, f, sems, stored, inFork);
    case LetStmt(_, _, b) =>
      ExpandScoped(b, f, sems, stored, inFork);
      LetUnderAcquireScoped(s, Expand(b), f, sems, stored, inFork);
    case LetSemaphore(x, b) =>
      ExpandScoped(b, f, sems + {x}, stored, inFork);
      LetUnderAcquireScoped(s, Expand(b), f, sems, stored, inFork);
    case ProducerConsumer(x, p, b) => ExpandProducerConsumerScoped(x, p, b, f, sems, stored, inFork);
    case For(_, _, _, b) => ExpandScoped(b, f, sems, stored, inFork);
    case Fork(a, b) => ExpandScoped(a, f, sems, stored, true); ExpandScoped(b, f, sems, stored, true);
    case Allocate(_, b) => ExpandScoped(b, f, sems, stored, inFork);
    case IfThenElse(_, t, e) => ExpandScoped(t, f, sems, stored, inFork); ExpandScoped(e, f, sems, stored, inFork);
    case Acquire(_, _, b) => ExpandScoped(b, f, sems, stored, inFork);
  }

  lemma {:induction false} ExpandRealizeScoped(x: string, b: Stmt, f: string, sems: set<string>, stored: bool,
                                               inFork: bool)
    requires Scoped(Realize(x, b), f, sems, stored, inFork)
    ensures Scoped(ExpandRealize(x, b), f, sems, stored, inFork) && Declared(ExpandRealize(x, b)) == Declared(b)
    decreases Size(b), 1
  {
    ExpandScoped(b, f, sems, stored || x == f, inFork);
    var b' := Expand(b);
    if b'.Acquire? { ExpandRealizeScoped(x, b'.body, f, sems, stored, inFork); }
  }

  lemma {:induction false} ExpandProducerConsumerScoped(x: string, p: bool, b: Stmt, f: string, sems: set<string>,
                                                        stored: bool, inFork: bool)
    requires Scoped(ProducerConsumer(x, p, b), f, sems, stored, inFork)
    ensures Scoped(ExpandProducerConsumer(x, p, b), f, sems, stored, inFork)
    ensures Declared(ExpandProducerConsumer(x, p, b)) == Declared(b)
    decreases Size(b), 1
  {
    ExpandScoped(b, f, sems, stored, inFork);
    var b' := Expand(b);
    if b'.Acquire? { ExpandProducerConsumerScoped(x, p, b'.body, f, sems, stored, inFork); }
  }

  // ---- tightening fork nodes ----

  /** Whatever is pulled out of a fork is no semaphore of it, and no storage it lacks. */
  predicate Pullable(s: Stmt, f: string, stored: bool) { s.LetStmt? || (s.Realize? && (s.name == f ==> stored)) }

  function Pulled(s: Stmt, inner: Stmt): Stmt
    requires s.LetStmt? || s.Realize?
  {
    if s.LetStmt? then LetStmt(s.name, s.value, inner) else Realize(s.name, inner)
  }

  lemma {:induction false} PulledScoped(s: Stmt, inner: Stmt, f: string, sems: set<string>, stored: bool)
    requires Pullable(s, f, stored) && Scoped(inner, f, sems, stored, true)
    ensures Scoped(Pulled(s, inner), f, sems, stored, true)
  {
    assert s.Realize? ==> (stored || s.name == f) == stored;
  }

  lemma {:induction false} ForkedPart(s: Stmt, f: string, sems: set<string>, stored: bool)
    requires Scoped(s, f, sems, stored, true) && (IsLet(s) || s.Realize?)
    ensures Pullable(s, f, stored) && Scoped(s.body, f, sems, stored, true)
  {
    assert s.Realize? ==> (stored || s.name == f) == stored;
  }

  lemma {:induction false} MakeForkScoped(a: Stmt, b: Stmt, f: string, sems: set<string>, stored: bool)
    requires Scoped(a, f, sems, stored, true) && Scoped(b, f, sems, stored, true)
    ensures Scoped(MakeFork(a, b), f, sems, stored, true)
    decreases Size(a) + Size(b), 0
  {
    var r := MakeFork(a, b);
    if IsLet(a) || a.Realize? { ForkedPart(a, f, sems, stored); }
    if IsLet(b) || b.Realize? { ForkedPart(b, f, sems, stored); }
    if IsLet(a) && IsLet(b) && SameLet(a, b) {
      PullScoped(a, a.body, b.body, r, f, sems, stored);
    } else if IsLet(a) && !StmtUses(b, a.name) {
      PullScoped(a, a.body, b, r, f, sems, stored);
    } else if IsLet(b) && !StmtUses(a, b.name) {
      PullScoped(b, a, b.body, r, f, sems, stored);
    } else if a.Realize? && !StmtUses(b, a.name) {
      PullScoped(a, a.body, b, r, f, sems, stored);
    } else if b.Realize? && !StmtUses(a, b.name) {
      PullScoped(b, a, b.body, r, f, sems, stored);
    }
  }

  lemma {:induction false} PullScoped(s: Stmt, a: Stmt, b: Stmt, r: Stmt, f: string, sems: set<string>, stored: bool)
    requires Pullable(s, f, stored) && r == Pulled(s, MakeFork(a, b))
    requires Scoped(a, f, sems, stored, true) && Scoped(b, f, sems, stored, true)
    ensures Scoped(r, f, sems, stored, true)
    decreases Size(a) + Size(b), 1
  {
    MakeForkScoped(a, b, f, sems, stored);
    PulledScoped(s, MakeFork(a, b), f, sems, stored);
  }

  lemma {:induction false} TightenForkScoped(a: Stmt, b: Stmt, f: string, sems: set<string>, stored: bool, inFork: bool)
    requires Scoped(Tighten(a, true), f, sems, stored, true) && Scoped(Tighten(b, true), f, sems, stored, true)
    ensures Scoped(Tighten(Fork(a, b), inFork), f, sems, stored, inFork)
    ensures Declared(Tighten(Fork(a, b), inFork)) == multiset{}
  {
    MakeForkScoped(Tighten(a, true), Tighten(b, true), f, sems, stored);
    ScopedAnywhere(Tighten(Fork(a, b), inFork), f, sems, stored);
  }

  lemma {:induction false} TightenRealizeScoped(x: string, b: Stmt, f: string, sems: set<string>, stored: bool,
                                                inFork: bool)
    requires Scoped(Tighten(b, inFork), f, sems, stored || x == f, inFork) && (x == f && inFork ==> stored)
    ensures Scoped(Tighten(Realize(x, b), inFork), f, sems, stored, inFork)
    ensures Declared(Tighten(Realize(x, b), inFork)) == Declared(Tighten(b, inFork))
  {
    var r := Tighten(Realize(x, b), inFork);
    assert r == Realize(x, Tighten(b, inFork)) || (inFork && r == Tighten(b, inFork));
  }

  lemma {:induction false} TightenLetScoped(x: string, v: Expr, b: Stmt, f: string, sems: set<string>, stored: bool,
                                            inFork: bool)
    requires Scoped(Tighten(b, inFork), f, sems, stored, inFork)
    ensures Scoped(Tighten(LetStmt(x, v, b), inFork), f, sems, stored, inFork)
    ensures Declared(Tighten(LetStmt(x, v, b), inFork)) == Declared(Tighten(b, inFork))
  {
    var r := Tighten(LetStmt(x, v, b), inFork);
    assert r == LetStmt(x, v, Tighten(b, inFork)) || r == Tighten(b, inFork);
  }

  /** Tightening fork nodes keeps every use in scope and every declaration. */
  lemma {:induction false} TightenScoped(s: Stmt, f: string, sems: set<string>, stored: bool, inFork: bool)
    requires Scoped(s, f, sems, stored, inFork)
    ensures Scoped(Tighten(s, inFork), f, sems, stored, inFork) && Declared(Tighten(s, inFork)) == Declared(s)
  {
    match s
    case NoOp =>
    case Leaf(_, _, _) =>
    case Release(_) =>
    case Fork(a, b) =>
      TightenScoped(a, f, sems, stored, true);
      TightenScoped(b, f, sems, stored, true);
      TightenForkScoped(a, b, f, sems, stored, inFork);
      ScopedAnywhere(s, f, sems, stored);
    case Realize(x, b) =>
      TightenScoped(b, f, sems, stored || x == f, inFork);
      TightenRealizeScoped(x, b, f, sems, stored, inFork);
    case LetStmt(x, v, b) =>
      TightenScoped(b, f, sems, stored, inFork);
      TightenLetScoped(x, v, b, f, sems, stored, inFork);
    case LetSemaphore(x, b) =>
      TightenScoped(b, f, sems + {x}, stored, false);
      assert Tighten(s, false) == LetSemaphore(x, Tighten(b, false));
    case For(_, _, _, b) => TightenScoped(b, f, sems, stored, inFork);
    case Block(a, b) => TightenScoped(a, f, sems, stored, inFork); TightenScoped(b, f, sems, stored, inFork);
    case Allocate(_, b) => TightenScoped(b, f, sems, stored, inFork);
    case IfThenElse(_, t, e) => TightenScoped(t, f, sems, stored, inFork); TightenScoped(e, f, sems, stored, inFork);
    case ProducerConsumer(_, _, b) => TightenScoped(b, f, sems, stored, inFork);
    case Acquire(_, _, b) => TightenScoped(b, f, sems, stored, inFork);
  }

  /** The three passes together. */
  lemma {:induction false} PassesAreScoped(f: string, body: Stmt)
    requires Plain(body) && ForkRealize(f, body).Some?
    ensures WellScoped(Tighten(Expand(ForkRealize(f, body).value), false), f, CountConsumes(body, f))
  {
    var fork := ForkRealize(f, body).value;
    ForkIsScoped(f, body);
    ExpandScoped(fork, f, {}, false, false);
    TightenScoped(Expand(fork), f, {}, false, false);
  }
}
