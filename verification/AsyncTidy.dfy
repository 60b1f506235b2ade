/**
 * What the two clean-up passes achieve.  After ExpandAcquireNodes no acquire is the first thing of a
 * block, a realization or a produce/consume node; after TightenForkNodes both sides of every fork have
 * something to do, and start with nothing that could be done around the fork.
 */
module AsyncTidy {
  import opened Wrappers
  import opened Ir
  import opened AsyncIr
  import opened AsyncFork
  import opened AsyncPasses
  import opened AsyncWhole

  /** Acquires have moved out of blocks, realizations and produce/consume nodes. */
  predicate Expanded(s: Stmt)
  {
    match s
    case NoOp => true
    case Leaf(_, _, _) => true
    case Release(_) => true
    case LetStmt(_, _, b) => Expanded(b)
    case LetSemaphore(_, b) => Expanded(b)
    case For(_, _, _, b) => Expanded(b)
    case Block(a, b) => !a.Acquire? && Expanded(a) && Expanded(b)
    case Fork(a, b) => Expanded(a) && Expanded(b)
    case Realize(_, b) => !b.Acquire? && Expanded(b)
    case Allocate(_, b) => Expanded(b)
    case IfThenElse(_, t, e) => Expanded(t) && Expanded(e)
    case ProducerConsumer(_, _, b) => !b.Acquire? && Expanded(b)
    case Acquire(_, _, b) => Expanded(b)
  }

  /** A let directly over an acquire is one the acquire needs. */
  predicate LetIsNeeded(s: Stmt)
  {
    IsLet(s) && s.body.Acquire? ==> s.body.sema == s.name || Uses(s.body.count, s.name)
  }

  lemma {:induction false} HoistExpanded(s: Stmt, rest: Stmt)
    requires Expanded(s) && Expanded(rest)
    ensures Expanded(Hoist(s, rest))
    decreases s
  {
    if s.Acquire? { HoistExpanded(s.body, rest); }
  }

  lemma {:induction false} ExpandExpands(s: Stmt)
    ensures Expanded(Expand(s)) && LetIsNeeded(Expand(s))
    decreases Size(s), 0
  {
    match s
    case NoOp =>
    case Leaf(_, _, _) =>
    case Release(_) =>
    case LetStmt(_, _, b) => ExpandExpands(b); LetExpanded(s, Expand(b));
    case LetSemaphore(_, b) => ExpandExpands(b); LetExpanded(s, Expand(b));
    case For(_, _, _, b) => ExpandExpands(b);
    case Block(a, b) => ExpandExpands(a); ExpandExpands(b); HoistExpanded(Expand(a), Expand(b));
    case Fork(a, b) => ExpandExpands(a); ExpandExpands(b);
    case Realize(x, b) => ExpandRealizeExpands(x, b);
    case Allocate(_, b) => ExpandExpands(b);
    case IfThenElse(_, t, e) => ExpandExpands(t); ExpandExpands(e);
    case ProducerConsumer(x, p, b) => ExpandProducerConsumerExpands(x, p, b);
    case Acquire(_, _, b) => ExpandExpands(b);
  }

  lemma {:induction false} LetExpanded(s: Stmt, b: Stmt)
    requires IsLet(s) && Expanded(b)
    ensures Expanded(LetUnderAcquire(s, b)) && LetIsNeeded(LetUnderAcquire(s, b))
  {
  }

  lemma {:induction false} ExpandRealizeExpands(x: string, b: Stmt)
    ensures Expanded(ExpandRealize(x, b)) && !IsLet(ExpandRealize(x, b))
    decreases Size(b), 1
  {
    ExpandExpands(b);
    var b', r := Expand(b), ExpandRealize(x, b);
    if b'.Acquire? {
      ExpandRealizeExpands(x, b'.body);
      assert r == Acquire(b'.sema, b'.count, ExpandRealize(x, b'.body));
    } else {
      assert r == Realize(x, b');
    }
  }

  lemma {:induction false} ExpandProducerConsumerExpands(x: string, p: bool, b: Stmt)
    ensures Expanded(ExpandProducerConsumer(x, p, b)) && !IsLet(ExpandProducerConsumer(x, p, b))
    decreases Size(b), 1
  {
    ExpandExpands(b);
    var b', r := Expand(b), ExpandProducerConsumer(x, p, b);
    if b'.Acquire? {
      ExpandProducerConsumerExpands(x, p, b'.body);
      assert r == Acquire(b'.sema, b'.count, ExpandProducerConsumer(x, p, b'.body));
    } else {
      assert r == ProducerConsumer(x, p, b');
    }
  }

  // ---- tightening ----

  /** The statement starts with a let or a realization. */
  predicate Opens(s: Stmt) { IsLet(s) || s.Realize? }

  /** Neither side does nothing, and what either side opens the other one uses too, and differently. */
  predicate Tight(a: Stmt, b: Stmt)
  {
    && !IsNoOp(a) && !IsNoOp(b) && !SameLet(a, b)
    && (Opens(a) ==> StmtUses(b, a.name)) && (Opens(b) ==> StmtUses(a, b.name))
  }

  /** Every fork is tight, and what is opened inside a fork is used. */
  predicate Tightened(s: Stmt, inFork: bool)
  {
    match s
    case NoOp => true
    case Leaf(_, _, _) => true
    case Release(_) => true
    case LetStmt(x, _, b) => Tightened(b, inFork) && (inFork ==> StmtUses(b, x))
    case LetSemaphore(x, b) => Tightened(b, inFork) && (inFork ==> StmtUses(b, x))
    case For(_, _, _, b) => Tightened(b, inFork)
    case Block(a, b) => Tightened(a, inFork) && Tightened(b, inFork)
    case Fork(a, b) => Tightened(a, true) && Tightened(b, true) && Tight(a, b)
    case Realize(x, b) => Tightened(b, inFork) && (inFork ==> StmtUses(b, x) || StmtUses(b, x + ".buffer"))
    case Allocate(_, b) => Tightened(b, inFork)
    case IfThenElse(_, t, e) => Tightened(t, inFork) && Tightened(e, inFork)
    case ProducerConsumer(_, _, b) => Tightened(b, inFork)
    case Acquire(_, _, b) => Tightened(b, inFork)
  }

  lemma {:induction false} TightenedAnywhere(s: Stmt, inFork: bool)
    requires Tightened(s, true)
    ensures Tightened(s, inFork)
  {
    match s
    case NoOp =>
    case Leaf(_, _, _) =>
    case Release(_) =>
    case LetStmt(_, _, b) => TightenedAnywhere(b, inFork);
    case LetSemaphore(_, b) => TightenedAnywhere(b, inFork);
    case For(_, _, _, b) => TightenedAnywhere(b, inFork);
    case Block(a, b) => TightenedAnywhere(a, inFork); TightenedAnywhere(b, inFork);
    case Fork(a, b) =>
    case Realize(_, b) => TightenedAnywhere(b, inFork);
    case Allocate(_, b) => TightenedAnywhere(b, inFork);
    case IfThenElse(_, t, e) => TightenedAnywhere(t, inFork); TightenedAnywhere(e, inFork);
    case ProducerConsumer(_, _, b) => TightenedAnywhere(b, inFork);
    case Acquire(_, _, b) => TightenedAnywhere(b, inFork);
  }

  /** What opens the statement, around another body. */
  function Around(s: Stmt, inner: Stmt): Stmt
    requires Opens(s)
  {
    if IsLet(s) then Rebind(s, inner) else Realize(s.name, inner)
  }

  predicate OpensWith(s: Stmt, x: string) { Opens(s) && (x == s.name || (s.LetStmt? && Uses(s.value, x))) }

  lemma {:induction false} AroundUses(s: Stmt, inner: Stmt, x: string)
    requires Opens(s)
    ensures StmtUses(Around(s, inner), x) <==> OpensWith(s, x) || StmtUses(inner, x)
    ensures StmtUses(s, x) <==> OpensWith(s, x) || StmtUses(s.body, x)
  {
  }

  /** `s` opens around `inner`. */
  predicate OpensAround(s: Stmt, inner: Stmt) { Opens(s) && s.body == inner }

  /** make_fork does `s` around the fork of `a'` and `b'`. */
  predicate Pulls(a: Stmt, b: Stmt, s: Stmt, a': Stmt, b': Stmt)
  {
    || (s == a && OpensAround(a, a') && b' == b)
    || (s == b && OpensAround(b, b') && a' == a)
    || (s == a && SameLet(a, b) && OpensAround(a, a') && OpensAround(b, b'))
  }

  lemma {:induction false} OpensAroundUses(s: Stmt, inner: Stmt, x: string)
    requires OpensAround(s, inner)
    ensures StmtUses(s, x) <==> OpensWith(s, x) || StmtUses(inner, x)
    ensures Size(s) == Size(inner) + 1
  {
    AroundUses(s, inner, x);
  }

  lemma {:induction false} SameLetOpens(a: Stmt, b: Stmt, x: string)
    requires SameLet(a, b)
    ensures OpensWith(a, x) <==> OpensWith(b, x)
  {
  }

  /** One step of make_fork: it pulls something out, or the two sides share all that they open. */
  lemma {:induction false} MakeForkStep(a: Stmt, b: Stmt) returns (s: Stmt, a': Stmt, b': Stmt)
    ensures
      || (Pulls(a, b, s, a', b') && Opens(s) && MakeFork(a, b) == Around(s, MakeFork(a', b')))
      || (!SameLet(a, b) && MakeFork(a, b) == Fork(a, b)
          && (Opens(a) ==> StmtUses(b, a.name)) && (Opens(b) ==> StmtUses(a, b.name)))
  {
    s, a', b' := a, a, b;
    if IsLet(a) && IsLet(b) && SameLet(a, b) {
      a', b' := a.body, b.body;
    } else if IsLet(a) && !StmtUses(b, a.name) {
      a' := a.body;
    } else if IsLet(b) && !StmtUses(a, b.name) {
      s, b' := b, b.body;
    } else if a.Realize? && !StmtUses(b, a.name) {
      a' := a.body;
    } else if b.Realize? && !StmtUses(a, b.name) {
      s, b' := b, b.body;
    }
  }

  lemma {:induction false} PullsUses(a: Stmt, b: Stmt, s: Stmt, a': Stmt, b': Stmt, x: string)
    requires Pulls(a, b, s, a', b')
    ensures Opens(s) && Size(a') + Size(b') < Size(a) + Size(b)
    ensures StmtUses(a, x) || StmtUses(b, x) <==> OpensWith(s, x) || StmtUses(a', x) || StmtUses(b', x)
  {
    if s == a && OpensAround(a, a') {
      OpensAroundUses(a, a', x);
      if b' != b { SameLetOpens(a, b, x); OpensAroundUses(b, b', x); }
    } else {
      OpensAroundUses(b, b', x);
    }
  }

  lemma {:induction false} MakeForkUses(a: Stmt, b: Stmt, x: string)
    ensures StmtUses(MakeFork(a, b), x) <==> StmtUses(a, x) || StmtUses(b, x)
    decreases Size(a) + Size(b)
  {
    var s, a', b' := MakeForkStep(a, b);
    if Pulls(a, b, s, a', b') && Opens(s) && MakeFork(a, b) == Around(s, MakeFork(a', b')) {
      PullsUses(a, b, s, a', b', x);
      MakeForkUses(a', b', x);
      AroundUses(s, MakeFork(a', b'), x);
    } else {
      assert MakeFork(a, b) == Fork(a, b);
    }
  }

  /** What is opened and used has a body with something to do. */
  lemma {:induction false} OpenedDoes(s: Stmt, inner: Stmt)
    requires OpensAround(s, inner) && Tightened(s, true)
    ensures Tightened(inner, true) && !IsNoOp(inner)
    ensures s.Realize? ==> StmtUses(inner, s.name) || StmtUses(inner, s.name + ".buffer")
    ensures IsLet(s) ==> StmtUses(inner, s.name)
  {
  }

  /** Both sides are tightened and have something to do. */
  predicate Sides(a: Stmt, b: Stmt) { Tightened(a, true) && Tightened(b, true) && !IsNoOp(a) && !IsNoOp(b) }

  lemma {:induction false} PulledSides(a: Stmt, b: Stmt, s: Stmt, a': Stmt, b': Stmt)
    requires Sides(a, b) && Pulls(a, b, s, a', b')
    ensures Sides(a', b') && Tightened(s, true) && (OpensAround(s, a') || OpensAround(s, b'))
  {
    if s == a && OpensAround(a, a') {
      OpenedDoes(a, a');
      if b' != b { OpenedDoes(b, b'); }
    } else {
      OpenedDoes(b, b');
    }
  }

  lemma {:induction false} AroundTightened(s: Stmt, a: Stmt, b: Stmt)
    requires Tightened(s, true) && (OpensAround(s, a) || OpensAround(s, b))
    requires Tightened(MakeFork(a, b), true)
    ensures Tightened(Around(s, MakeFork(a, b)), true)
  {
    OpenedDoes(s, if OpensAround(s, a) then a else b);
    MakeForkUses(a, b, s.name);
    if s.Realize? { MakeForkUses(a, b, s.name + ".buffer"); }
  }

  lemma {:induction false} MakeForkTightens(a: Stmt, b: Stmt)
    requires Sides(a, b)
    ensures Tightened(MakeFork(a, b), true)
    decreases Size(a) + Size(b)
  {
    var s, a', b' := MakeForkStep(a, b);
    if Pulls(a, b, s, a', b') && Opens(s) && MakeFork(a, b) == Around(s, MakeFork(a', b')) {
      PullsUses(a, b, s, a', b', "");
      PulledSides(a, b, s, a', b');
      MakeForkTightens(a', b');
      AroundTightened(s, a', b');
    } else {
      assert Tight(a, b) && MakeFork(a, b) == Fork(a, b);
    }
  }

  lemma {:induction false} TightenTightens(s: Stmt, inFork: bool)
    ensures Tightened(Tighten(s, inFork), inFork)
  {
    match s
    case NoOp =>
    case Leaf(_, _, _) =>
    case Release(_) =>
    case LetStmt(_, _, b) => TightenTightens(b, inFork);
    case LetSemaphore(_, b) => TightenTightens(b, inFork);
    case For(_, _, _, b) => TightenTightens(b, inFork);
    case Block(a, b) => TightenTightens(a, inFork); TightenTightens(b, inFork);
    case Fork(a, b) =>
      TightenTightens(a, true);
      TightenTightens(b, true);
      TightenForkTightens(a, b, inFork);
    case Realize(_, b) => TightenTightens(b, inFork);
    case Allocate(_, b) => TightenTightens(b, inFork);
    case IfThenElse(_, t, e) => TightenTightens(t, inFork); TightenTightens(e, inFork);
    case ProducerConsumer(_, _, b) => TightenTightens(b, inFork);
    case Acquire(_, _, b) => TightenTightens(b, inFork);
  }

  lemma {:induction false} TightenForkTightens(a: Stmt, b: Stmt, inFork: bool)
    requires Tightened(Tighten(a, true), true) && Tightened(Tighten(b, true), true)
    ensures Tightened(Tighten(Fork(a, b), inFork), inFork)
  {
    var a', b' := Tighten(a, true), Tighten(b, true);
    if !IsNoOp(a') && !IsNoOp(b') { MakeForkTightens(a', b'); }
    TightenedAnywhere(Tighten(Fork(a, b), inFork), inFork);
  }

  /** After the three passes every fork is tight. */
  lemma {:induction false} ForkedIsTight(f: string, body: Stmt)
    requires ForkRealize(f, body).Some?
    ensures Forked(f, body).Some? && Tightened(Forked(f, body).value, false)
  {
    TightenTightens(Expand(ForkRealize(f, body).value), false);
  }
}
