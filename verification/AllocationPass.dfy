/**
 * Bounding small allocations: a client of the constant interval analysis that replaces the
 * size of an allocation by a constant upper bound, or marks it dead, or rejects the program.
 */
module AllocationPass {
  import opened Wrappers
  import opened Ir
  import opened Intervals
  import opened BoundsArith
  import opened Bounds
  import opened BoundsVisitor
  import opened BoundsCast
  import opened WideClass
  import opened RegionIr
  import opened SmallAllocations
  import Euclid

  // ---- one allocation ----

  datatype Plan = Reject(why: string) | Kill | Fix(size: int) | Keep

  /** What is done with an allocation, given the upper bound found for its size. */
  function PlanFor(c: Code, bound: Option<Expr>, inThread: bool): Plan
    requires c.Alloc?
  {
    if bound.None? && c.memory.Register? then Reject("dynamic size in registers")
    else if bound.None? && inThread then Reject("dynamic size on the gpu")
    else if bound.None? || !bound.value.Const? then Keep
    else
      var size := bound.value.value;
      if size == 0 && !c.custom then Kill
      else if !inThread && c.memory.Stack? && size <= 0 then Reject("size not positive")
      else if !RoundsUp(c, size, inThread) then Keep
      else if 0 <= size < 0x8000_0000 then Fix(size)
      else Reject("size out of range")
  }

  /** The allocation around its rewritten body. */
  function Applied(c: Code, p: Plan, b: Code): Code
    requires c.Alloc? && !p.Reject?
  {
    match p
    case Kill => Dead(c, b)
    case Fix(size) => Resized(c, size, b)
    case Keep => Around(c, b)
  }

  // ---- the pass as a function ----

  function LetScope(o: Oracle, depth: nat, c: Code, scope: Scope): Scope
    requires c.LetCode?
  {
    scope[c.x := ConstantBounds(o, depth, c.value, scope)]
  }

  function LoopScope(o: Oracle, depth: nat, c: Code, scope: Scope): Scope
    requires c.Loop?
  {
    scope[c.x := LoopBounds(o, depth, c, scope)]
  }

  function Planned(o: Oracle, depth: nat, c: Code, scope: Scope, inThread: bool): Plan
    requires c.Alloc?
  {
    PlanFor(c, SizeBound(o, depth, c, scope), inThread)
  }

  function Bounded(o: Oracle, depth: nat, c: Code, scope: Scope, inThread: bool): Result<Code> {
    match c
    case Nop => Ok(c)
    case Seq(a, b) =>
      var x := Bounded(o, depth, a, scope, inThread);
      if x.Err? then x else
      var y := Bounded(o, depth, b, scope, inThread);
      if y.Err? then y else Ok(Seq(x.value, y.value))
    case Loop(_, _, _, thread, b) =>
      var x := Bounded(o, depth, b, LoopScope(o, depth, c, scope), inThread || thread);
      if x.Err? then x else Ok(Around(c, x.value))
    case LetCode(n, v, b) =>
      var x := Bounded(o, depth, b, LetScope(o, depth, c, scope), inThread);
      if x.Err? then x else Ok(LetCode(n, v, x.value))
    case Alloc(_, _, _, _, _, _, b) =>
      var p := Planned(o, depth, c, scope, inThread);
      if p.Reject? then Err(p.why) else
      var x := Bounded(o, depth, b, scope, inThread);
      if x.Err? then x else Ok(Applied(c, p, x.value))
  }

  /** Some allocation of the program cannot be given a size. */
  predicate Rejected(o: Oracle, depth: nat, c: Code, scope: Scope, inThread: bool) {
    match c
    case Nop => false
    case Seq(a, b) => Rejected(o, depth, a, scope, inThread) || Rejected(o, depth, b, scope, inThread)
    case Loop(_, _, _, thread, b) => Rejected(o, depth, b, LoopScope(o, depth, c, scope), inThread || thread)
    case LetCode(_, _, b) => Rejected(o, depth, b, LetScope(o, depth, c, scope), inThread)
    case Alloc(_, _, _, _, _, _, b) =>
      BadSize(c, SizeBound(o, depth, c, scope), inThread) || Rejected(o, depth, b, scope, inThread)
  }

  /**
   * No bound where one is needed; or a bound that is negative (or zero, for a stack allocation with
   * a custom allocator) where the size would become a constant, or too large for 32 bits.
   */
  predicate BadSize(c: Code, bound: Option<Expr>, inThread: bool)
    requires c.Alloc?
  {
    if bound.None? then c.memory.Register? || inThread
    else if !bound.value.Const? then false
    else
      var size := bound.value.value;
      || (size < 0 && (inThread || !c.memory.Heap?) && (c.memory.Auto? && !inThread ==> c.bytes > 0))
      || (size == 0 && c.custom && c.memory.Stack? && !inThread)
      || (size >= 0x8000_0000 && (inThread || c.memory.Register?))
  }

  lemma {:induction false} BadSizeIsRejected(c: Code, bound: Option<Expr>, inThread: bool)
    requires c.Alloc?
    ensures PlanFor(c, bound, inThread).Reject? <==> BadSize(c, bound, inThread)
  {
    if bound.Some? && bound.value.Const? { SmallQuotient(bound.value.value, c.bytes); }
  }

  lemma {:induction false} SmallQuotient(size: int, bytes: nat)
    ensures bytes > 0 ==> 0 <= 128 / bytes <= 128
  {
    if bytes > 0 { assert 128 / bytes * bytes <= 128; }
  }

  /** The pass fails exactly when some allocation has a bad size. */
  lemma {:induction false} RejectedIff(o: Oracle, depth: nat, c: Code, scope: Scope, inThread: bool)
    ensures Bounded(o, depth, c, scope, inThread).Err? <==> Rejected(o, depth, c, scope, inThread)
  {
    match c
    case Nop =>
    case Seq(a, b) => RejectedIff(o, depth, a, scope, inThread); RejectedIff(o, depth, b, scope, inThread);
    case Loop(_, _, _, thread, b) => RejectedIff(o, depth, b, LoopScope(o, depth, c, scope), inThread || thread);
    case LetCode(_, _, b) => RejectedIff(o, depth, b, LetScope(o, depth, c, scope), inThread);
    case Alloc(_, _, _, _, _, _, b) =>
      BadSizeIsRejected(c, SizeBound(o, depth, c, scope), inThread);
      RejectedIff(o, depth, b, scope, inThread);
  }

  // ---- which sizes become constants ----

  /** Register and thread-local sizes, 16K elements on the stack, and 128 bytes otherwise. */
  predicate IsSmall(c: Code, n: int, inThread: bool)
    requires c.Alloc?
  {
    || inThread || c.memory.Register?
    || (c.memory.Stack? && n <= 16384)
    || (c.memory.Auto? && c.bytes > 0 && n * c.bytes <= 128)
  }

  /** The extents and the condition an allocation is left with. */
  predicate SizeChosen(c: Code, bound: Option<Expr>, inThread: bool, r: Code)
    requires c.Alloc? && r.Alloc?
  {
    if bound.Some? && bound.value.Const? && bound.value.value == 0 && !c.custom then
      r.extents == [Const(Int32, 0)] && r.cond == SmallAllocations.FALSE
    else if bound.Some? && bound.value.Const? && IsSmall(c, bound.value.value, inThread) then
      r.extents == [Const(Int32, bound.value.value)] && r.cond == c.cond
    else
      r.extents == c.extents && r.cond == c.cond
  }

  lemma {:induction false} SmallBytes(n: int, bytes: nat)
    requires bytes > 0
    ensures n <= 128 / bytes <==> n * bytes <= 128
  {
    var q := 128 / bytes;
    assert 128 == bytes * q + 128 % bytes;
    if n <= q { Euclid.ScaleLe(n, q, bytes); } else { Euclid.ScaleLe(q + 1, n, bytes); }
  }

  lemma {:induction false} PlanChooses(c: Code, bound: Option<Expr>, inThread: bool, b: Code)
    requires c.Alloc? && !PlanFor(c, bound, inThread).Reject?
    ensures SizeChosen(c, bound, inThread, Applied(c, PlanFor(c, bound, inThread), b))
  {
    if bound.Some? && bound.value.Const? && c.bytes > 0 { SmallBytes(bound.value.value, c.bytes); }
  }

  /** The result is the program with exactly the sizes of small allocations replaced by their bounds. */
  predicate Chosen(o: Oracle, depth: nat, c: Code, scope: Scope, inThread: bool, r: Code) {
    match c
    case Nop => r == c
    case Seq(a, b) =>
      r.Seq? && Chosen(o, depth, a, scope, inThread, r.first) && Chosen(o, depth, b, scope, inThread, r.rest)
    case Loop(x, mn, ext, thread, b) =>
      && r.Loop? && r == Loop(x, mn, ext, thread, r.body)
      && Chosen(o, depth, b, LoopScope(o, depth, c, scope), inThread || thread, r.body)
    case LetCode(x, v, b) =>
      && r.LetCode? && r == LetCode(x, v, r.body)
      && Chosen(o, depth, b, LetScope(o, depth, c, scope), inThread, r.body)
    case Alloc(n, bytes, memory, _, _, custom, b) =>
      && r.Alloc? && r == Alloc(n, bytes, memory, r.extents, r.cond, custom, r.body)
      && SizeChosen(c, SizeBound(o, depth, c, scope), inThread, r)
      && Chosen(o, depth, b, scope, inThread, r.body)
  }

  lemma {:induction false} BoundedChooses(o: Oracle, depth: nat, c: Code, scope: Scope, inThread: bool)
    requires Bounded(o, depth, c, scope, inThread).Ok?
    ensures Chosen(o, depth, c, scope, inThread, Bounded(o, depth, c, scope, inThread).value)
  {
    match c
    case Nop =>
    case Seq(a, b) => BoundedChooses(o, depth, a, scope, inThread); BoundedChooses(o, depth, b, scope, inThread);
    case Loop(_, _, _, thread, b) => BoundedChooses(o, depth, b, LoopScope(o, depth, c, scope), inThread || thread);
    case LetCode(_, _, b) => BoundedChooses(o, depth, b, LetScope(o, depth, c, scope), inThread);
    case Alloc(_, _, _, _, _, _, b) =>
      BoundedChooses(o, depth, b, scope, inThread);
      PlanChooses(c, SizeBound(o, depth, c, scope), inThread, Bounded(o, depth, b, scope, inThread).value);
  }

  // ---- every run allocates enough ----

  /** Every query of the pass stays inside the guards of the expression analysis. */
  ghost predicate SafeCode(o: Oracle, depth: nat, c: Code, scope: Scope) {
    match c
    case Nop => true
    case Seq(a, b) => SafeCode(o, depth, a, scope) && SafeCode(o, depth, b, scope)
    case Loop(_, mn, _, _, b) =>
      && SafeConstQuery(o, depth, mn, scope) && SafeConstQuery(o, depth, LastOf(c), scope)
      && SafeCode(o, depth, b, LoopScope(o, depth, c, scope))
    case LetCode(_, v, b) => SafeConstQuery(o, depth, v, scope) && SafeCode(o, depth, b, LetScope(o, depth, c, scope))
    case Alloc(_, _, _, es, _, _, b) => SafeConstQuery(o, depth, TotalExtent(es), scope) && SafeCode(o, depth, b, scope)
  }

  lemma {:induction false} ScopesClosed(o: Oracle, depth: nat, c: Code, scope: Scope)
    requires OracleOk(o) && ClosedScope(scope)
    ensures c.LetCode? ==> ClosedScope(LetScope(o, depth, c, scope))
    ensures c.Loop? ==> ClosedScope(LoopScope(o, depth, c, scope))
  {
    if c.LetCode? { ConstantIsClosed(o, depth, c.value, scope); }
    if c.Loop? {
      ConstantIsClosed(o, depth, c.min, scope);
      ConstantIsClosed(o, depth, LastOf(c), scope);
      UnionIsClosed(o, ConstantBounds(o, depth, c.min, scope), ConstantBounds(o, depth, LastOf(c), scope));
    }
  }

  /** The rewritten program allocates at least as much in every run; an allocation made dead asked for nothing. */
  lemma {:induction false} BoundedSuffices(o: Oracle, depth: nat, c: Code, scope: Scope, inThread: bool)
    requires OracleOk(o) && ClosedScope(scope) && SafeCode(o, depth, c, scope)
      && Bounded(o, depth, c, scope, inThread).Ok?
    ensures Sufficient(c, scope, Bounded(o, depth, c, scope, inThread).value)
  {
    ScopesClosed(o, depth, c, scope);
    match c
    case Nop =>
    case Seq(a, b) =>
      BoundedSuffices(o, depth, a, scope, inThread);
      BoundedSuffices(o, depth, b, scope, inThread);
      SeqSuffices(c, scope, Bounded(o, depth, a, scope, inThread).value, Bounded(o, depth, b, scope, inThread).value);
    case Loop(_, _, _, thread, b) =>
      BoundedSuffices(o, depth, b, LoopScope(o, depth, c, scope), inThread || thread);
      LoopSuffices(o, depth, c, scope, Bounded(o, depth, b, LoopScope(o, depth, c, scope), inThread || thread).value);
    case LetCode(_, _, b) =>
      BoundedSuffices(o, depth, b, LetScope(o, depth, c, scope), inThread);
      LetSuffices(o, depth, c, scope, Bounded(o, depth, b, LetScope(o, depth, c, scope), inThread).value);
    case Alloc(_, _, _, _, _, _, b) =>
      BoundedSuffices(o, depth, b, scope, inThread);
      AllocSuffices(o, depth, c, scope, Bounded(o, depth, b, scope, inThread).value,
                    Bounded(o, depth, c, scope, inThread).value);
  }

  // ---- thread-local sizes are fixed ----

  /** Register allocations, and all allocations inside thread loops, have a literal size. */
  predicate FixedSizes(c: Code, inThread: bool) {
    match c
    case Nop => true
    case Seq(a, b) => FixedSizes(a, inThread) && FixedSizes(b, inThread)
    case Loop(_, _, _, thread, b) => FixedSizes(b, inThread || thread)
    case LetCode(_, _, b) => FixedSizes(b, inThread)
    case Alloc(_, _, memory, es, _, _, b) =>
      (inThread || memory.Register? ==> |es| == 1 && es[0].Const?) && FixedSizes(b, inThread)
  }

  /** The simplifier leaves no cast around a constant. */
  ghost predicate FoldsConstants(o: Oracle) { forall e: Expr :: IsConst(o.simplify(e)) ==> o.simplify(e).Const? }

  lemma {:induction false} ThreadLocalIsFixed(o: Oracle, depth: nat, c: Code, scope: Scope, inThread: bool)
    requires FoldsConstants(o) && Bounded(o, depth, c, scope, inThread).Ok?
    ensures FixedSizes(Bounded(o, depth, c, scope, inThread).value, inThread)
  {
    match c
    case Nop =>
    case Seq(a, b) =>
      ThreadLocalIsFixed(o, depth, a, scope, inThread);
      ThreadLocalIsFixed(o, depth, b, scope, inThread);
    case Loop(_, _, _, thread, b) => ThreadLocalIsFixed(o, depth, b, LoopScope(o, depth, c, scope), inThread || thread);
    case LetCode(_, _, b) => ThreadLocalIsFixed(o, depth, b, LetScope(o, depth, c, scope), inThread);
    case Alloc(_, _, _, _, _, _, b) => ThreadLocalIsFixed(o, depth, b, scope, inThread);
  }

  // ---- a class of programs that are always safe ----

  predicate PlainCode(c: Code) {
    match c
    case Nop => true
    case Seq(a, b) => PlainCode(a) && PlainCode(b)
    case Loop(_, mn, ext, _, b) => IntExpr(mn) && IntExpr(ext) && PlainCode(b)
    case LetCode(_, v, b) => IntExpr(v) && PlainCode(b)
    case Alloc(_, _, _, es, _, _, b) => (forall k :: 0 <= k < |es| ==> IntExpr(es[k])) && PlainCode(b)
  }

  /** The simplifier keeps types, and casts of constants that change no value. */
  ghost predicate SimplifyKeeps(o: Oracle) {
    forall e: Expr :: IsWide(TypeOf(e)) && HonestConst(e) ==>
      TypeOf(o.simplify(e)) == TypeOf(e) && HonestConst(o.simplify(e))
  }

  lemma {:induction false} TotalExtentWide(es: seq<Expr>)
    requires forall k :: 0 <= k < |es| ==> IntExpr(es[k])
    ensures WideExpr(TotalExtent(es)) && TypeOf(TotalExtent(es)) == Int64
  {
    if es != [] { TotalExtentWide(es[..|es| - 1]); }
  }

  lemma {:induction false} PlainQuery(o: Oracle, depth: nat, e: Expr, scope: Scope)
    requires SimplifyKeeps(o) && WideExpr(e) && WideScope(scope)
    ensures SafeConstQuery(o, depth, e, scope) && WideInterval(ConstantBounds(o, depth, e, scope), TypeOf(e))
  {
    forall out: Env ensures Safe(o, depth, e, scope, true, out) { WideIsSafe(o, depth, e, scope, true, false, out); }
    WideIsSafe(o, depth, e, scope, true, false, map[]);
  }

  lemma {:induction false} PlainLoop(o: Oracle, depth: nat, c: Code, scope: Scope)
    requires SimplifyKeeps(o) && c.Loop? && IntExpr(c.min) && IntExpr(c.extent) && WideScope(scope)
    ensures SafeConstQuery(o, depth, c.min, scope) && SafeConstQuery(o, depth, LastOf(c), scope)
    ensures WideScope(LoopScope(o, depth, c, scope))
  {
    assert WideExpr(Bin(Add, c.min, c.extent)) && TypeOf(Bin(Add, c.min, c.extent)) == Int32;
    assert WideExpr(LastOf(c)) && TypeOf(LastOf(c)) == Int32;
    PlainQuery(o, depth, c.min, scope);
    PlainQuery(o, depth, LastOf(c), scope);
    UnionWide(o, ConstantBounds(o, depth, c.min, scope), ConstantBounds(o, depth, LastOf(c), scope));
  }

  lemma {:induction false} UnionWide(o: Oracle, a: Interval, b: Interval)
    requires SimplifyKeeps(o) && WideInterval(a, Int32) && WideInterval(b, Int32)
    ensures WideInterval(Union(o, a, b), Int32)
  {
    if a.min.Some? && b.min.Some? { ExtremeWide(Min, a.min.value, b.min.value, Int32); }
    if a.max.Some? && b.max.Some? { ExtremeWide(Max, a.max.value, b.max.value, Int32); }
  }

  lemma {:induction false} PlainIsSafe(o: Oracle, depth: nat, c: Code, scope: Scope)
    requires SimplifyKeeps(o) && PlainCode(c) && WideScope(scope)
    ensures SafeCode(o, depth, c, scope)
  {
    match c
    case Nop =>
    case Seq(a, b) => PlainIsSafe(o, depth, a, scope); PlainIsSafe(o, depth, b, scope);
    case Loop(_, _, _, _, b) =>
      PlainLoop(o, depth, c, scope);
      PlainIsSafe(o, depth, b, LoopScope(o, depth, c, scope));
    case LetCode(_, v, b) =>
      PlainQuery(o, depth, v, scope);
      PlainIsSafe(o, depth, b, LetScope(o, depth, c, scope));
    case Alloc(_, _, _, es, _, _, b) =>
      TotalExtentWide(es);
      PlainQuery(o, depth, TotalExtent(es), scope);
      PlainIsSafe(o, depth, b, scope);
  }

  // ---- the pass ----

  class Pass {
    const o: Oracle
    const depth: nat
    var scope: Scope
    var inThreadLoop: bool

    constructor (o: Oracle, depth: nat)
      ensures this.o == o && this.depth == depth && scope == map[] && !inThreadLoop
    {
      this.o, this.depth := o, depth;
      scope, inThreadLoop := map[], false;
    }

    method Mutate(c: Code) returns (r: Result<Code>)
      requires OracleOk(o)
      modifies this
      ensures scope == old(scope) && inThreadLoop == old(inThreadLoop)
      ensures r == Bounded(o, depth, c, scope, inThreadLoop)
      decreases c, 1
    {
      match c {
        case Nop => r := Ok(c);
        case Seq(a, b) =>
          r := Mutate(a);
          if r.Err? { return; }
          var y := Mutate(b);
          r := if y.Err? then y else Ok(Seq(r.value, y.value));
        case Loop(_, _, _, _, _) => r := MutateLoop(c);
        case LetCode(_, _, _) => r := MutateLet(c);
        case Alloc(_, _, _, _, _, _, _) => r := MutateAlloc(c);
      }
    }

    method MutateLet(c: Code) returns (r: Result<Code>)
      requires OracleOk(o) && c.LetCode?
      modifies this
      ensures scope == old(scope) && inThreadLoop == old(inThreadLoop)
      ensures r == Bounded(o, depth, c, scope, inThreadLoop)
      decreases c, 0
    {
      var outer := scope;
      var i := FindConstantBounds(o, depth, c.value, scope);
      scope := scope[c.x := i];
      r := Mutate(c.body);
      scope := outer;
      if r.Ok? { r := Ok(LetCode(c.x, c.value, r.value)); }
    }

    method MutateLoop(c: Code) returns (r: Result<Code>)
      requires OracleOk(o) && c.Loop?
      modifies this
      ensures scope == old(scope) && inThreadLoop == old(inThreadLoop)
      ensures r == Bounded(o, depth, c, scope, inThreadLoop)
      decreases c, 0
    {
      var outer, outerThread := scope, inThreadLoop;
      var first := FindConstantBounds(o, depth, c.min, scope);
      var last := FindConstantBounds(o, depth, LastOf(c), scope);
      scope, inThreadLoop := scope[c.x := Union(o, first, last)], inThreadLoop || c.thread;
      r := Mutate(c.body);
      scope, inThreadLoop := outer, outerThread;
      if r.Ok? { r := Ok(Around(c, r.value)); }
    }

    method MutateAlloc(c: Code) returns (r: Result<Code>)
      requires OracleOk(o) && c.Alloc?
      modifies this
      ensures scope == old(scope) && inThreadLoop == old(inThreadLoop)
      ensures r == Bounded(o, depth, c, scope, inThreadLoop)
      decreases c, 0
    {
      var total := MakeTotalExtent(c.extents);
      var bounds := FindConstantBounds(o, depth, total, scope);
      var plan := PlanFor(c, bounds.max, inThreadLoop);
      if plan.Reject? { return Err(plan.why); }
      r := Mutate(c.body);
      if r.Ok? { r := Ok(Applied(c, plan, r.value)); }
    }
  }

  /**
   * bound_small_allocations on a whole program: it fails exactly when an allocation has a bad size;
   * otherwise every run of a safe program allocates enough, exactly the small sizes are replaced by their
   * bounds, and thread-local sizes are literals.
   */
  method BoundSmallAllocations(o: Oracle, depth: nat, c: Code) returns (r: Result<Code>)
    requires OracleOk(o)
    ensures r.Err? <==> Rejected(o, depth, c, map[], false)
    ensures r.Ok? && SafeCode(o, depth, c, map[]) ==> forall env: Env {:trigger Run(r.value, env)} ::
      CodeFine(c, env) && CodeIn(c, map[], Here(map[], env)) ==> AllServe(Run(c, env), Run(r.value, env))
    ensures r.Ok? && FoldsConstants(o) ==> FixedSizes(r.value, false)
    ensures r.Ok? ==> Chosen(o, depth, c, map[], false, r.value)
  {
    var pass := new Pass(o, depth);
    r := pass.Mutate(c);
    RejectedIff(o, depth, c, map[], false);
    if r.Ok? && SafeCode(o, depth, c, map[]) { BoundedSuffices(o, depth, c, map[], false); }
    if r.Ok? { BoundedChooses(o, depth, c, map[], false); }
    if r.Ok? && FoldsConstants(o) { ThreadLocalIsFixed(o, depth, c, map[], false); }
  }
}
