/**
 * Allocations, and what replacing the size of one by a constant upper bound, or marking it dead,
 * must keep: every run still allocates at least as much.
 */
module SmallAllocations {
  import opened Wrappers
  import opened Ir
  import opened Intervals
  import opened BoundsArith
  import opened BoundsMulDiv
  import opened BoundsLogic
  import opened Bounds
  import opened BoundsVisitor
  import opened BoundsCast
  import opened BoundsFound
  import opened RegionIr

  datatype Memory = Auto | Heap | Stack | Register

  datatype Code =
    | Nop
    | Seq(first: Code, rest: Code)
    | Loop(x: string, min: Expr, extent: Expr, thread: bool, body: Code)
    | LetCode(x: string, value: Expr, body: Code)
    | Alloc(name: string, bytes: nat, memory: Memory, extents: seq<Expr>, cond: Expr, custom: bool, body: Code)

  /** The same loop or allocation around a new body. */
  function Around(c: Code, b: Code): Code
    requires c.Loop? || c.Alloc?
  {
    match c
    case Loop(x, mn, ext, thread, _) => Loop(x, mn, ext, thread, b)
    case Alloc(n, bytes, memory, es, cond, custom, _) => Alloc(n, bytes, memory, es, cond, custom, b)
  }

  // ---- runs: the allocations made, in order ----

  /** `size` elements are asked for, if `enabled`. */
  datatype Event = Event(name: string, size: int, enabled: bool)

  function Size(extents: seq<Expr>, env: Env): int {
    if extents == [] then 1 else Size(extents[..|extents| - 1], env) * Eval(extents[|extents| - 1], env)
  }

  function Run(c: Code, env: Env): seq<Event>
    decreases c, 0
  {
    match c
    case Nop => []
    case Seq(a, b) => Run(a, env) + Run(b, env)
    case Loop(x, mn, ext, _, b) => RunLoop(x, b, env, Eval(mn, env), Eval(ext, env))
    case LetCode(x, v, b) => Run(b, env[x := Eval(v, env)])
    case Alloc(n, _, _, es, cond, _, b) => [Event(n, Size(es, env), Eval(cond, env) != 0)] + Run(b, env)
  }

  function RunLoop(x: string, b: Code, env: Env, start: int, count: int): seq<Event>
    decreases b, 1, count
  {
    if count <= 0 then [] else Run(b, env[x := start]) + RunLoop(x, b, env, start + 1, count - 1)
  }

  /** One allocation against its rewritten form: at least as large, or dead because nothing was asked for. */
  predicate Serves(old_: Event, new_: Event) {
    old_.name == new_.name && ((new_.enabled == old_.enabled && new_.size >= old_.size)
      || (!new_.enabled && old_.size <= 0))
  }

  predicate AllServe(old_: seq<Event>, new_: seq<Event>) {
    |old_| == |new_| && forall k :: 0 <= k < |old_| ==> Serves(old_[k], new_[k])
  }

  lemma {:induction false} AllServeConcat(a: seq<Event>, a': seq<Event>, b: seq<Event>, b': seq<Event>)
    requires AllServe(a, a') && AllServe(b, b')
    ensures AllServe(a + b, a' + b')
  {
  }

  // ---- what a run needs ----

  ghost predicate CodeFine(c: Code, env: Env)
    decreases c
  {
    match c
    case Nop => true
    case Seq(a, b) => CodeFine(a, env) && CodeFine(b, env)
    case Loop(x, mn, ext, _, b) =>
      && Fine(mn, env) && Fine(ext, env) && TypeOf(mn) == Int32 && TypeOf(ext) == Int32
      && forall i {:trigger env[x := i]} :: Eval(mn, env) <= i < Eval(mn, env) + Eval(ext, env) ==>
        CodeFine(b, env[x := i])
    case LetCode(x, v, b) => Fine(v, env) && CodeFine(b, env[x := Eval(v, env)])
    case Alloc(_, _, _, es, _, _, b) =>
      (forall k :: 0 <= k < |es| ==> Fine(es[k], env)) && CodeFine(b, env)
  }

  predicate CodeIn(c: Code, bound: map<string, Type>, w: World) {
    match c
    case Nop => true
    case Seq(a, b) => CodeIn(a, bound, w) && CodeIn(b, bound, w)
    case Loop(x, mn, ext, _, b) => ExprIn(mn, bound, w) && ExprIn(ext, bound, w) && CodeIn(b, bound[x := Int32], w)
    case LetCode(x, v, b) => ExprIn(v, bound, w) && CodeIn(b, bound[x := TypeOf(v)], w)
    case Alloc(_, _, _, es, _, _, b) => (forall k :: 0 <= k < |es| ==> ExprIn(es[k], bound, w)) && CodeIn(b, bound, w)
  }

  function CodeNames(c: Code): set<string> {
    match c
    case Nop => {}
    case Seq(a, b) => CodeNames(a) + CodeNames(b)
    case Loop(x, mn, ext, _, b) => Names(mn) + Names(ext) + CodeNames(b)
    case LetCode(x, v, b) => Names(v) + CodeNames(b)
    case Alloc(_, _, _, es, _, _, b) => NamesAll(es) + CodeNames(b)
  }

  lemma {:induction false} CodeCarries(c: Code, ns: set<string>, outer: map<string, Type>, inner: map<string, Type>,
                                       w: World, v: World)
    requires CodeIn(c, outer, w) && CodeNames(c) <= ns && Carries(ns, outer, inner, w, v)
    ensures CodeIn(c, inner, v)
  {
    match c
    case Nop =>
    case Seq(a, b) => CodeCarries(a, ns, outer, inner, w, v); CodeCarries(b, ns, outer, inner, w, v);
    case Loop(x, mn, ext, _, b) =>
      ExprCarries(mn, ns, outer, inner, w, v);
      ExprCarries(ext, ns, outer, inner, w, v);
      CarriesUnder(ns, outer, inner, w, v, x, Int32);
      CodeCarries(b, ns, outer[x := Int32], inner[x := Int32], w, v);
    case LetCode(x, val, b) =>
      ExprCarries(val, ns, outer, inner, w, v);
      CarriesUnder(ns, outer, inner, w, v, x, TypeOf(val));
      CodeCarries(b, ns, outer[x := TypeOf(val)], inner[x := TypeOf(val)], w, v);
    case Alloc(_, _, _, es, _, _, b) =>
      forall k | 0 <= k < |es| ensures ExprIn(es[k], inner, v) {
        NamesAllAt(es, k);
        ExprCarries(es[k], ns, outer, inner, w, v);
      }
      CodeCarries(b, ns, outer, inner, w, v);
  }

  // ---- scopes of closed intervals ----

  /** The ends mention no variable, so they mean the same everywhere. */
  predicate ClosedInterval(i: Interval) { IntervalNames(i) == {} }

  predicate ClosedScope(scope: Scope) { forall x :: x in scope ==> ClosedInterval(scope[x]) }

  lemma {:induction false} ClosedEnd(e: Expr, t: Type, out: Env, out': Env)
    requires Names(e) == {} && End(e, t, out)
    ensures End(e, t, out') && Eval(e, out') == Eval(e, out)
  {
    forall x ensures !Uses(e, x) { UsesNames(e, x); }
    EvalAgree(e, out, out');
    FineAgree(e, out, out');
  }

  lemma {:induction false} ClosedHolds(i: Interval, t: Type, v: int, out: Env, out': Env)
    requires ClosedInterval(i) && Holds(i, t, v, out)
    ensures Holds(i, t, v, out')
  {
    if i.min.Some? { ClosedEnd(i.min.value, t, out, out'); }
    if i.max.Some? { ClosedEnd(i.max.value, t, out, out'); }
  }

  /** Closed bounds are read in the environment itself. */
  function Here(scope: Scope, env: Env): World { World(scope, env, env) }

  lemma {:induction false} EnterHere(c: Code, scope: Scope, env: Env, x: string, t: Type, i: Interval, v: int)
    requires ClosedScope(scope) && ClosedInterval(i) && Holds(i, t, v, env) && CodeIn(c, map[x := t], Here(scope, env))
    ensures CodeIn(c, map[], Here(scope[x := i], env[x := v])) && ClosedScope(scope[x := i])
  {
    var w, w' := Here(scope, env), Here(scope[x := i], env[x := v]);
    forall y, t' | y in CodeNames(c) && Known(map[x := t], w, y, t') ensures VarOk(w', y, t') {
      if y == x {
        ClosedHolds(i, t, v, env, env[x := v]);
      } else if y in scope {
        assert ClosedInterval(scope[y]);
        ClosedHolds(scope[y], t', Lookup(env, y), env, env[x := v]);
      }
    }
    CodeCarries(c, CodeNames(c), map[x := t], map[], w, w');
  }

  // ---- the pass ----

  /** The product of the extents in 64 bits. */
  function TotalExtent(extents: seq<Expr>): Expr {
    if extents == [] then Const(Int64, 1)
    else Bin(Mul, TotalExtent(extents[..|extents| - 1]), Cast(Int64, extents[|extents| - 1]))
  }

  lemma {:induction false} TotalExtentMeans(extents: seq<Expr>, w: World)
    requires forall k :: 0 <= k < |extents| ==> Fine(extents[k], w.env) && ExprIn(extents[k], map[], w)
    ensures Fine(TotalExtent(extents), w.env) && ExprIn(TotalExtent(extents), map[], w)
      && TypeOf(TotalExtent(extents)) == Int64
    ensures Eval(TotalExtent(extents), w.env) == Size(extents, w.env)
  {
    if extents != [] {
      var n := |extents| - 1;
      TotalExtentMeans(extents[..n], w);
      var a, b := TotalExtent(extents[..n]), Cast(Int64, extents[n]);
      assert End(b, Int64, w.env) && Eval(b, w.env) == Eval(extents[n], w.env);
      BinEnd(Mul, a, b, Int64, w.env);
      assert ExprIn(Bin(Mul, a, b), map[], w);
    }
  }

  method MakeTotalExtent(extents: seq<Expr>) returns (e: Expr)
    ensures e == TotalExtent(extents)
  {
    e := Const(Int64, 1);
    var k := 0;
    while k < |extents|
      invariant k <= |extents| && e == TotalExtent(extents[..k])
    {
      e := Bin(Mul, e, Cast(Int64, extents[k]));
      assert extents[..k + 1][..k] == extents[..k];
      k := k + 1;
    }
    assert extents[..k] == extents;
  }

  /** The union of two intervals, simplified. */
  function Union(o: Oracle, a: Interval, b: Interval): Interval {
    Interval(if a.min.Some? && b.min.Some? then Some(o.simplify(MinOf(a.min.value, b.min.value))) else None,
             if a.max.Some? && b.max.Some? then Some(o.simplify(MaxOf(a.max.value, b.max.value))) else None)
  }

  lemma {:induction false} UnionHolds(o: Oracle, a: Interval, b: Interval, x: int, y: int, v: int, out: Env)
    requires OracleOk(o) && Holds(a, Int32, x, out) && Holds(b, Int32, y, out) && x <= v <= y
    ensures Holds(Union(o, a, b), Int32, v, out)
  {
    if a.min.Some? && b.min.Some? {
      ExtremeMeans(Min, a.min.value, b.min.value, Int32, out);
      assert SimplifyOk(o, MinOf(a.min.value, b.min.value), out);
    }
    if a.max.Some? && b.max.Some? {
      ExtremeMeans(Max, a.max.value, b.max.value, Int32, out);
      assert SimplifyOk(o, MaxOf(a.max.value, b.max.value), out);
    }
  }

  lemma {:induction false} ConstantIsClosed(o: Oracle, depth: nat, e: Expr, scope: Scope)
    ensures ClosedInterval(ConstantBounds(o, depth, e, scope))
  {
    var i := ConstantBounds(o, depth, e, scope);
    if i.min.Some? { ConstNames(i.min.value); }
    if i.max.Some? { ConstNames(i.max.value); }
  }

  lemma {:induction false} UnionIsClosed(o: Oracle, a: Interval, b: Interval)
    requires OracleOk(o) && ClosedInterval(a) && ClosedInterval(b)
    ensures ClosedInterval(Union(o, a, b))
  {
    if a.min.Some? && b.min.Some? {
      ExtremeNames(Min, a.min.value, b.min.value);
      SimplifyNames(o, MinOf(a.min.value, b.min.value));
    }
    if a.max.Some? && b.max.Some? {
      ExtremeNames(Max, a.max.value, b.max.value);
      SimplifyNames(o, MaxOf(a.max.value, b.max.value));
    }
  }

  ghost predicate SafeConstQuery(o: Oracle, depth: nat, e: Expr, scope: Scope) {
    forall out: Env :: Safe(o, depth, e, scope, true, out)
  }

  lemma {:induction false} ConstQueryHolds(o: Oracle, depth: nat, e: Expr, w: World)
    requires OracleOk(o) && SafeConstQuery(o, depth, e, w.scope) && Fine(e, w.env) && ExprIn(e, map[], w)
    ensures Holds(ConstantBounds(o, depth, e, w.scope), TypeOf(e), Eval(e, w.env), w.out)
  {
    assert Safe(o, depth, e, w.scope, true, w.out);
    ConstantBoundsSound(o, depth, e, w.scope, w.env, w.out);
  }

  /** The last iteration's value: min + extent - 1. */
  function LastOf(c: Code): Expr
    requires c.Loop?
  {
    Bin(Sub, Bin(Add, c.min, c.extent), Const(Int32, 1))
  }

  /** The rewritten code allocates enough in every run inside the scope. */
  ghost predicate Sufficient(c: Code, scope: Scope, r: Code) {
    forall env: Env {:trigger Run(r, env)} :: CodeFine(c, env) && CodeIn(c, map[], Here(scope, env)) ==>
      AllServe(Run(c, env), Run(r, env))
  }

  lemma {:induction false} LetSuffices(o: Oracle, depth: nat, c: Code, scope: Scope, b: Code)
    requires OracleOk(o) && c.LetCode? && ClosedScope(scope) && SafeConstQuery(o, depth, c.value, scope)
    requires Sufficient(c.body, scope[c.x := ConstantBounds(o, depth, c.value, scope)], b)
    ensures Sufficient(c, scope, LetCode(c.x, c.value, b))
  {
    var i := ConstantBounds(o, depth, c.value, scope);
    ConstantIsClosed(o, depth, c.value, scope);
    var r := LetCode(c.x, c.value, b);
    forall env: Env | CodeFine(c, env) && CodeIn(c, map[], Here(scope, env))
      ensures AllServe(Run(c, env), Run(r, env))
    {
      ConstQueryHolds(o, depth, c.value, Here(scope, env));
      EnterHere(c.body, scope, env, c.x, TypeOf(c.value), i, Eval(c.value, env));
      assert Run(r, env) == Run(b, env[c.x := Eval(c.value, env)]);
    }
  }

  function LoopBounds(o: Oracle, depth: nat, c: Code, scope: Scope): Interval
    requires c.Loop?
  {
    Union(o, ConstantBounds(o, depth, c.min, scope), ConstantBounds(o, depth, LastOf(c), scope))
  }

  lemma {:induction false} LoopBoundsHold(o: Oracle, depth: nat, c: Code, w: World, i: int)
    requires OracleOk(o) && c.Loop? && SafeConstQuery(o, depth, c.min, w.scope)
      && SafeConstQuery(o, depth, LastOf(c), w.scope)
    requires Fine(c.min, w.env) && Fine(c.extent, w.env) && TypeOf(c.min) == Int32 && TypeOf(c.extent) == Int32
    requires ExprIn(c.min, map[], w) && ExprIn(c.extent, map[], w)
    requires Eval(c.min, w.env) <= i < Eval(c.min, w.env) + Eval(c.extent, w.env)
    ensures Holds(LoopBounds(o, depth, c, w.scope), Int32, i, w.out)
  {
    BinEnd(Add, c.min, c.extent, Int32, w.env);
    BinEnd(Sub, Bin(Add, c.min, c.extent), Const(Int32, 1), Int32, w.env);
    assert ExprIn(Bin(Add, c.min, c.extent), map[], w);
    ConstQueryHolds(o, depth, c.min, w);
    ConstQueryHolds(o, depth, LastOf(c), w);
    UnionHolds(o, ConstantBounds(o, depth, c.min, w.scope), ConstantBounds(o, depth, LastOf(c), w.scope),
               Eval(c.min, w.env), Eval(LastOf(c), w.env), i, w.out);
  }

  lemma {:induction false} LoopServes(c: Code, scope: Scope, b: Code, env: Env, iv: Interval, start: int, count: int)
    requires c.Loop? && ClosedScope(scope) && ClosedInterval(iv) && Sufficient(c.body, scope[c.x := iv], b)
    requires forall i {:trigger env[c.x := i]} :: start <= i < start + count ==>
      CodeFine(c.body, env[c.x := i]) && Holds(iv, Int32, i, env)
    requires CodeIn(c.body, map[c.x := Int32], Here(scope, env))
    ensures AllServe(RunLoop(c.x, c.body, env, start, count), RunLoop(c.x, b, env, start, count))
    decreases count
  {
    if count > 0 {
      assert CodeFine(c.body, env[c.x := start]);
      EnterHere(c.body, scope, env, c.x, Int32, iv, start);
      var _ := Run(b, env[c.x := start]);
      LoopServes(c, scope, b, env, iv, start + 1, count - 1);
      AllServeConcat(Run(c.body, env[c.x := start]), Run(b, env[c.x := start]),
                     RunLoop(c.x, c.body, env, start + 1, count - 1), RunLoop(c.x, b, env, start + 1, count - 1));
    }
  }

  lemma {:induction false} LoopSuffices(o: Oracle, depth: nat, c: Code, scope: Scope, b: Code)
    requires OracleOk(o) && c.Loop? && ClosedScope(scope)
    requires SafeConstQuery(o, depth, c.min, scope) && SafeConstQuery(o, depth, LastOf(c), scope)
    requires Sufficient(c.body, scope[c.x := LoopBounds(o, depth, c, scope)], b)
    ensures Sufficient(c, scope, Around(c, b))
  {
    var iv, r := LoopBounds(o, depth, c, scope), Around(c, b);
    ConstantIsClosed(o, depth, c.min, scope);
    ConstantIsClosed(o, depth, LastOf(c), scope);
    UnionIsClosed(o, ConstantBounds(o, depth, c.min, scope), ConstantBounds(o, depth, LastOf(c), scope));
    forall env: Env | CodeFine(c, env) && CodeIn(c, map[], Here(scope, env))
      ensures AllServe(Run(c, env), Run(r, env))
    {
      forall i | Eval(c.min, env) <= i < Eval(c.min, env) + Eval(c.extent, env)
        ensures CodeFine(c.body, env[c.x := i]) && Holds(iv, Int32, i, env)
      {
        LoopBoundsHold(o, depth, c, Here(scope, env), i);
      }
      LoopServes(c, scope, b, env, iv, Eval(c.min, env), Eval(c.extent, env));
    }
  }

  const FALSE := Const(UInt1, 0)

  /** The dead allocation and the one of constant size. */
  function Dead(c: Code, b: Code): Code
    requires c.Alloc?
  {
    Alloc(c.name, c.bytes, c.memory, [Const(Int32, 0)], FALSE, c.custom, b)
  }

  function Resized(c: Code, size: int, b: Code): Code
    requires c.Alloc?
  {
    Alloc(c.name, c.bytes, c.memory, [Const(Int32, size)], c.cond, c.custom, b)
  }

  function SizeBound(o: Oracle, depth: nat, c: Code, scope: Scope): Option<Expr>
    requires c.Alloc?
  {
    ConstantBounds(o, depth, TotalExtent(c.extents), scope).max
  }

  lemma {:induction false} SizeBounded(o: Oracle, depth: nat, c: Code, scope: Scope, env: Env)
    requires OracleOk(o) && c.Alloc? && SafeConstQuery(o, depth, TotalExtent(c.extents), scope)
    requires CodeFine(c, env) && CodeIn(c, map[], Here(scope, env))
    ensures var bound := SizeBound(o, depth, c, scope); bound.Some? ==> Size(c.extents, env) <= Eval(bound.value, env)
  {
    TotalExtentMeans(c.extents, Here(scope, env));
    ConstQueryHolds(o, depth, TotalExtent(c.extents), Here(scope, env));
  }

  lemma {:induction false} AllocSuffices(o: Oracle, depth: nat, c: Code, scope: Scope, b: Code, r: Code)
    requires OracleOk(o) && c.Alloc? && SafeConstQuery(o, depth, TotalExtent(c.extents), scope)
      && Sufficient(c.body, scope, b)
    requires
      || r == Around(c, b)
      || (var bound := SizeBound(o, depth, c, scope);
          bound.Some? && bound.value.Const?
            && (r == Resized(c, bound.value.value, b) || (r == Dead(c, b) && bound.value.value == 0)))
    ensures Sufficient(c, scope, r)
  {
    forall env: Env | CodeFine(c, env) && CodeIn(c, map[], Here(scope, env))
      ensures AllServe(Run(c, env), Run(r, env))
    {
      SizeBounded(o, depth, c, scope, env);
      var e := Event(c.name, Size(c.extents, env), Eval(c.cond, env) != 0);
      var e' := Event(r.name, Size(r.extents, env), Eval(r.cond, env) != 0);
      assert Serves(e, e') by {
        if r != Around(c, b) {
          assert r.extents[..0] == [];
          assert Size(r.extents, env) == 1 * r.extents[0].value;
        }
      }
      assert Run(r, env) == [e'] + Run(b, env) && Run(c, env) == [e] + Run(c.body, env);
      AllServeConcat([e], [e'], Run(c.body, env), Run(b, env));
    }
  }

  predicate FitsOnStack(size: int) { size <= 1024 * 16 }

  predicate RoundsUp(c: Code, size: int, inThreadLoop: bool)
    requires c.Alloc?
  {
    || inThreadLoop
    || (c.memory.Stack? && FitsOnStack(size))
    || c.memory.Register?
    || (c.memory.Auto? && c.bytes > 0 && size <= 128 / c.bytes)
  }

  lemma {:induction false} SeqSuffices(c: Code, scope: Scope, a: Code, b: Code)
    requires c.Seq? && Sufficient(c.first, scope, a) && Sufficient(c.rest, scope, b)
    ensures Sufficient(c, scope, Seq(a, b))
  {
    forall env: Env | CodeFine(c, env) && CodeIn(c, map[], Here(scope, env))
      ensures AllServe(Run(c, env), Run(Seq(a, b), env))
    {
      assert AllServe(Run(c.first, env), Run(a, env)) && AllServe(Run(c.rest, env), Run(b, env));
      AllServeConcat(Run(c.first, env), Run(a, env), Run(c.rest, env), Run(b, env));
    }
  }
}
