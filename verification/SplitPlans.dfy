/**
 * Whole chains of splits and fuses of one loop, with the way each split is done decided by the
 * divisibility map that the chain itself builds up.
 */
module SplitPlans {
  import opened Wrappers
  import opened Ir
  import opened Euclid
  import opened Splits
  import opened SplitRuns

  /** What is done with one loop: nothing, a split of which both loops may be planned, or a split fused again. */
  datatype Plan =
    | Leave
    | Divide(s: Split, outer: Plan, inner: Plan)
    | DivideAndFuse(s: Split, fuse: Split, fused: Plan)

  /** The splits in the order in which they are applied. */
  function Flatten(p: Plan): seq<Split> {
    match p
    case Leave => []
    case Divide(s, a, b) => [s] + (Flatten(a) + Flatten(b))
    case DivideAndFuse(s, f, a) => [s, f] + Flatten(a)
  }

  /** The plan is for the loop over `x`, and its tails are guarded. */
  predicate PlanFor(p: Plan, x: string) {
    match p
    case Leave => true
    case Divide(s, a, b) =>
      s.SplitVar? && s.old_ == x && s.tail == GuardWithIf && PlanFor(a, s.outer) && PlanFor(b, s.inner)
    case DivideAndFuse(s, f, a) =>
      && s.SplitVar? && s.old_ == x && s.tail == GuardWithIf
      && f.FuseVars? && f.outer == s.outer && f.inner == s.inner && PlanFor(a, f.old_)
  }

  /** How each split of the plan is done, given what is known to divide what. */
  function Decide(p: Plan, x: string, al: Alignment): Cuts
    requires PlanFor(p, x)
  {
    match p
    case Leave => Whole
    case Divide(s, a, b) =>
      var al1 := AlignmentAfter(s, al);
      Cut(s, WayOf(s, al), Decide(a, s.outer, al1), Decide(b, s.inner, AlignmentAfterAll(Flatten(a), al1)))
    case DivideAndFuse(s, f, a) =>
      CutAndFuse(s, WayOf(s, al), Decide(a, f.old_, AlignmentAfter(f, AlignmentAfter(s, al))))
  }

  // ---- chains ----

  lemma {:induction false} ChainConcat(a: seq<Split>, b: seq<Split>, dims: Dims)
    requires Chain(a + b, dims)
    ensures Chain(a, dims) && Chain(b, DimsAfter(a, dims))
    decreases a
  {
    if a == [] {
      assert a + b == b;
    } else {
      assert (a + b)[1..] == a[1..] + b && (a + b)[0] == a[0];
      ChainConcat(a[1..], b, After(a[0], dims));
    }
  }

  /** New names leave the dimensions already there alone. */
  lemma {:induction false} ChainKeepsDims(ss: seq<Split>, dims: Dims, x: string)
    requires Chain(ss, dims) && x in dims
    ensures x in DimsAfter(ss, dims) && DimsAfter(ss, dims)[x] == dims[x]
    decreases ss
  {
    if ss != [] { ChainKeepsDims(ss[1..], After(ss[0], dims), x); }
  }

  /** A split that the divisibility map calls exact is one. */
  lemma {:induction false} DecidedCut(s: Split, al: Alignment, dims: Dims)
    requires s.SplitVar? && s.tail == GuardWithIf && Applies(s, dims) && NewNames(s, dims)
    requires Aligned(al, dims) && dims[s.old_].extent >= 0
    ensures FaithfulCut(s, WayOf(s, al), dims[s.old_])
    ensures OuterExtent(dims[s.old_], s.factor) >= 0 && s.factor * OuterExtent(dims[s.old_], s.factor) >= 0
  {
    var n := dims[s.old_].extent;
    OuterNonNegative(n, s.factor);
    ProductNonNegative(s.factor, OuterExtent(dims[s.old_], s.factor));
    if KnownToDivide(al[s.inner := s.factor], s.old_, s.factor) { OuterDivides(n, al[s.old_], s.factor); }
  }

  /** What the first split of a plan leaves for the rest of it. */
  lemma {:induction false} FirstOfChain(s: Split, rest: seq<Split>, al: Alignment, dims: Dims)
    requires Chain([s] + rest, dims) && Aligned(al, dims)
    ensures Applies(s, dims) && NewNames(s, dims) && Chain(rest, After(s, dims))
    ensures Aligned(AlignmentAfter(s, al), After(s, dims))
  {
    assert ([s] + rest)[1..] == rest;
    StepKeepsAligned(s, al, dims);
  }

  lemma {:induction false} DecidedIsFaithful(p: Plan, x: string, al: Alignment, dims: Dims)
    requires PlanFor(p, x) && Chain(Flatten(p), dims) && Aligned(al, dims) && x in dims && dims[x].extent >= 0
    ensures Faithful(Decide(p, x, al), dims[x])
    decreases p, 1
  {
    match p
    case Leave =>
    case Divide(_, _, _) => DivideIsFaithful(p, x, al, dims);
    case DivideAndFuse(_, _, _) => FuseIsFaithful(p, x, al, dims);
  }

  lemma {:induction false} DivideIsFaithful(p: Plan, x: string, al: Alignment, dims: Dims)
    requires p.Divide? && PlanFor(p, x) && Chain(Flatten(p), dims) && Aligned(al, dims)
    requires x in dims && dims[x].extent >= 0
    ensures Faithful(Decide(p, x, al), dims[x])
    decreases p, 0
  {
    var s, a, b := p.s, Flatten(p.outer), Flatten(p.inner);
    FirstOfChain(s, a + b, al, dims);
    DecidedCut(s, al, dims);
    var dims1, al1 := After(s, dims), AlignmentAfter(s, al);
    ChainConcat(a, b, dims1);
    ChainKeepsAligned(a, al1, dims1);
    ChainKeepsDims(a, dims1, s.inner);
    DecidedIsFaithful(p.outer, s.outer, al1, dims1);
    DecidedIsFaithful(p.inner, s.inner, AlignmentAfterAll(a, al1), DimsAfter(a, dims1));
  }

  lemma {:induction false} FuseIsFaithful(p: Plan, x: string, al: Alignment, dims: Dims)
    requires p.DivideAndFuse? && PlanFor(p, x) && Chain(Flatten(p), dims) && Aligned(al, dims)
    requires x in dims && dims[x].extent >= 0
    ensures Faithful(Decide(p, x, al), dims[x])
    decreases p, 0
  {
    var s, f, rest := p.s, p.fuse, Flatten(p.fused);
    assert [s, f] + rest == [s] + ([f] + rest);
    FirstOfChain(s, [f] + rest, al, dims);
    DecidedCut(s, al, dims);
    var dims1, al1 := After(s, dims), AlignmentAfter(s, al);
    FirstOfChain(f, rest, al1, dims1);
    DecidedIsFaithful(p.fused, f.old_, AlignmentAfter(f, al1), After(f, dims1));
  }

  /**
   * Any chain of guarded splits and fuses of a loop, done as the divisibility map decides, runs the
   * iterations of the loop once and in order.
   */
  lemma {:induction false} PlannedRun<T>(p: Plan, x: string, al: Alignment, dims: Dims, g: Body<T>)
    requires PlanFor(p, x) && Chain(Flatten(p), dims) && Aligned(al, dims) && x in dims && dims[x].extent >= 0
    ensures Faithful(Decide(p, x, al), dims[x])
    ensures RunCuts(Decide(p, x, al), dims[x], g) == Loop(dims[x].min, dims[x].extent, g)
  {
    DecidedIsFaithful(p, x, al, dims);
    CutsRun(Decide(p, x, al), dims[x], g);
  }

  /** Two loops fused and then planned in any such way run as the nest they were. */
  lemma {:induction false} PlannedFuseRun<T>(f: Split, p: Plan, al: Alignment, dims: Dims, g: Body2<T>)
    requires f.FuseVars? && PlanFor(p, f.old_) && Chain([f] + Flatten(p), dims) && Aligned(al, dims)
    requires dims[f.outer].extent >= 0 && dims[f.inner].extent >= 0
    ensures var outer, inner := dims[f.outer], dims[f.inner];
      var d, c := Dim(0, inner.extent * outer.extent), Decide(p, f.old_, AlignmentAfter(f, al));
      Faithful(c, d) && RunCuts(c, d, Fused(outer, inner, g)) == Nest(outer, inner, g)
  {
    FirstOfChain(f, Flatten(p), al, dims);
    var outer, inner := dims[f.outer], dims[f.inner];
    ProductNonNegative(inner.extent, outer.extent);
    DecidedIsFaithful(p, f.old_, AlignmentAfter(f, al), After(f, dims));
    FusedCutsRun(Decide(p, f.old_, AlignmentAfter(f, al)), outer, inner, g);
  }
}
