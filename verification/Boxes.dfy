/**
 * Boxes: one interval per dimension and an optional condition under which the box is
 * touched at all.  Merging keeps the hull of exactly the boxes in use.
 *
 * A box may come from code that does not run, so its ends are read with the evaluator's
 * total division rather than required to be meaningful.
 */
module Boxes {
  import opened Wrappers
  import opened Ir
  import opened Intervals
  import opened BoundsArith

  datatype Box = Box(dims: seq<Interval>, used: Option<Expr>)

  /** The simplifier keeps type and value in every environment. */
  ghost predicate SimplifyAt(o: Oracle, e: Expr, env: Env) {
    TypeOf(o.simplify(e)) == TypeOf(e) && Eval(o.simplify(e), env) == Eval(e, env)
  }

  ghost predicate SimplifyTotal(o: Oracle) {
    forall e: Expr, env: Env {:trigger SimplifyAt(o, e, env)} :: SimplifyAt(o, e, env)
  }

  // ---- int32 ends ----

  predicate IntEnd(x: Option<Expr>) { x.Some? ==> TypeOf(x.value) == Int32 }

  predicate IntEnds(i: Interval) { IntEnd(i.min) && IntEnd(i.max) }

  predicate IntBox(b: Box) { forall i :: 0 <= i < |b.dims| ==> IntEnds(b.dims[i]) }

  predicate Within(i: Interval, v: int, out: Env) {
    (i.min.Some? ==> Eval(i.min.value, out) <= v) && (i.max.Some? ==> v <= Eval(i.max.value, out))
  }

  predicate InUse(b: Box, out: Env) { b.used.Some? ==> Eval(b.used.value, out) != 0 }

  /** The point is in the box, and the box's condition holds. */
  predicate Covers(b: Box, p: seq<int>, out: Env) {
    && |p| == |b.dims| > 0 && InUse(b, out)
    && forall i :: 0 <= i < |p| ==> Within(b.dims[i], p[i], out)
  }

  lemma {:induction false} IntBin(op: BinOp, a: Expr, b: Expr, out: Env)
    requires IsOrder(op) && TypeOf(a) == Int32
    ensures TypeOf(Bin(op, a, b)) == Int32 && Eval(Bin(op, a, b), out) == DoBin(op, Eval(a, out), Eval(b, out))
  {
  }

  lemma {:induction false} ExtremeLiteral(op: BinOp, a: Expr, b: Expr, out: Env)
    requires IsOrder(op) && TypeOf(a) == Int32 && TypeOf(b) == Int32 && (a == b || a.Const?)
    ensures TypeOf(Extreme(op, a, b)) == Int32 && Eval(Extreme(op, a, b), out) == DoBin(op, Eval(a, out), Eval(b, out))
  {
    if a != b && !b.Const? { IntBin(op, b, a, out); }
  }

  lemma {:induction false} ExtremeClamped(op: BinOp, a: Expr, b: Expr, out: Env)
    requires IsOrder(op) && TypeOf(a) == Int32 && TypeOf(b) == Int32 && a != b && Clamped(op, a)
    ensures TypeOf(Extreme(op, a, b)) == Int32 && Eval(Extreme(op, a, b), out) == DoBin(op, Eval(a, out), Eval(b, out))
  {
    IntBin(op, a.a, a.b, out);
    if b.Const? {
      IntBin(op, a.a, Fold(op, a.b, b), out);
    } else {
      IntBin(op, a.a, b, out);
      IntBin(op, Bin(op, a.a, b), a.b, out);
    }
  }

  lemma {:induction false} ExtremeSecond(op: BinOp, a: Expr, b: Expr, out: Env)
    requires IsOrder(op) && TypeOf(a) == Int32 && TypeOf(b) == Int32 && Clamped(op, b)
    ensures var r := Bin(op, Bin(op, a, b.a), b.b);
      TypeOf(r) == Int32 && Eval(r, out) == DoBin(op, Eval(a, out), Eval(b, out))
  {
    IntBin(op, b.a, b.b, out);
    IntBin(op, a, b.a, out);
    IntBin(op, Bin(op, a, b.a), b.b, out);
  }

  lemma {:induction false} ExtremeAbsorbing(op: BinOp, a: Expr, b: Expr, out: Env)
    requires IsOrder(op) && TypeOf(a) == Int32 && TypeOf(b) == Int32
    ensures TypeOf(Absorbing(op, a, b)) == Int32
      && Eval(Absorbing(op, a, b), out) == DoBin(op, Eval(a, out), Eval(b, out))
  {
    if a.Bin? && a.op == op { IntBin(op, a.a, a.b, out); }
    if b.Bin? && b.op == op { IntBin(op, b.a, b.b, out); }
    IntBin(op, a, b, out);
  }

  /** Int32 minima and maxima need no meaningful operands. */
  lemma {:induction false} ExtremeInt(op: BinOp, a: Expr, b: Expr, out: Env)
    requires IsOrder(op) && TypeOf(a) == Int32 && TypeOf(b) == Int32
    ensures TypeOf(Extreme(op, a, b)) == Int32 && Eval(Extreme(op, a, b), out) == DoBin(op, Eval(a, out), Eval(b, out))
  {
    if a == b || a.Const? {
      ExtremeLiteral(op, a, b, out);
    } else if Clamped(op, a) {
      ExtremeClamped(op, a, b, out);
    } else if Clamped(op, b) {
      ExtremeSecond(op, a, b, out);
    } else {
      ExtremeAbsorbing(op, a, b, out);
    }
  }

  // ---- merging ----

  /** The condition, if it is there and not trivially true. */
  function MaybeUnused(b: Box): Option<Expr> {
    if b.used.Some? && !IsOne(b.used.value) then b.used else None
  }

  predicate Complementary(u: Expr, w: Expr) { u == Not(w) || Not(u) == w }

  /** One end of the merged box, given each box's condition if it may be unused. */
  function Choose(op: BinOp, x: Expr, y: Expr, ua: Option<Expr>, ub: Option<Expr>): Expr {
    if ua.Some? && ub.Some? then
      if Complementary(ua.value, ub.value) then Select(ua.value, x, y)
      else Select(And(ua.value, ub.value), Extreme(op, x, y), Select(ua.value, x, y))
    else if ua.Some? then Select(ua.value, Extreme(op, x, y), y)
    else if ub.Some? then Select(ub.value, Extreme(op, x, y), x)
    else Extreme(op, x, y)
  }

  function MergeEnd(o: Oracle, op: BinOp, x: Option<Expr>, y: Option<Expr>, ua: Option<Expr>,
                    ub: Option<Expr>): Option<Expr> {
    if x == y then x
    else if x.Some? && y.Some? then Some(o.simplify(Choose(op, x.value, y.value, ua, ub)))
    else None
  }

  function MergeDim(o: Oracle, x: Interval, y: Interval, ua: Option<Expr>, ub: Option<Expr>): Interval {
    Interval(MergeEnd(o, Min, x.min, y.min, ua, ub), MergeEnd(o, Max, x.max, y.max, ua, ub))
  }

  function MergeUsed(o: Oracle, a: Box, b: Box): Option<Expr> {
    var ua, ub := MaybeUnused(a), MaybeUnused(b);
    if ua.None? || ub.None? then None
    else if ua == ub then a.used
    else
      var u := o.simplify(Or(ua.value, ub.value));
      if IsOne(u) then None else Some(u)
  }

  /** merge_boxes updates its first box in place, dimension by dimension. */
  method MergeBoxes(o: Oracle, a: Box, b: Box) returns (r: Box)
    requires a.dims != [] && b.dims != [] ==> |a.dims| == |b.dims|
    ensures r == Merged(o, a, b)
  {
    if b.dims == [] { return a; }
    if a.dims == [] { return b; }
    r := a;
    var ua, ub := MaybeUnused(a), MaybeUnused(b);
    var i := 0;
    while i < |r.dims|
      invariant i <= |r.dims| == |a.dims| && r.used == a.used
      invariant forall j :: 0 <= j < i ==> r.dims[j] == MergeDim(o, a.dims[j], b.dims[j], ua, ub)
      invariant forall j :: i <= j < |r.dims| ==> r.dims[j] == a.dims[j]
    {
      r := r.(dims := r.dims[i := MergeDim(o, r.dims[i], b.dims[i], ua, ub)]);
      i := i + 1;
    }
    r := r.(used := MergeUsed(o, a, b));
  }

  function Merged(o: Oracle, a: Box, b: Box): Box
    requires a.dims != [] && b.dims != [] ==> |a.dims| == |b.dims|
  {
    if b.dims == [] then a
    else if a.dims == [] then b
    else Box(seq(|a.dims|, i requires 0 <= i < |a.dims| => MergeDim(o, a.dims[i], b.dims[i], MaybeUnused(a),
                                                                    MaybeUnused(b))),
             MergeUsed(o, a, b))
  }

  predicate Holding(u: Option<Expr>, out: Env) { u.Some? ==> Eval(u.value, out) != 0 }

  lemma {:induction false} MaybeUnusedMeans(b: Box, out: Env)
    ensures Holding(MaybeUnused(b), out) <==> InUse(b, out)
  {
    if b.used.Some? { ZeroOne(b.used.value, out); }
  }

  /** The chosen end is the extreme one of the boxes in use, and nothing else. */
  lemma {:induction false} ChooseMeans(op: BinOp, x: Expr, y: Expr, ua: Option<Expr>, ub: Option<Expr>, out: Env)
    requires IsOrder(op) && TypeOf(x) == Int32 && TypeOf(y) == Int32
    ensures TypeOf(Choose(op, x, y, ua, ub)) == Int32
    ensures Holding(ua, out) && Holding(ub, out) ==>
      Eval(Choose(op, x, y, ua, ub), out) == DoBin(op, Eval(x, out), Eval(y, out))
    ensures Holding(ua, out) && !Holding(ub, out) ==> Eval(Choose(op, x, y, ua, ub), out) == Eval(x, out)
    ensures !Holding(ua, out) && Holding(ub, out) ==> Eval(Choose(op, x, y, ua, ub), out) == Eval(y, out)
  {
    ExtremeInt(op, x, y, out);
    if ua.Some? && ub.Some? {
      TwoConditions(op, x, y, ua.value, ub.value, out);
    } else {
      OneCondition(op, x, y, ua, ub, out);
    }
  }

  lemma {:induction false} OneCondition(op: BinOp, x: Expr, y: Expr, ua: Option<Expr>, ub: Option<Expr>, out: Env)
    requires IsOrder(op) && TypeOf(x) == Int32 && TypeOf(y) == Int32 && (ua.None? || ub.None?)
    requires TypeOf(Extreme(op, x, y)) == Int32
    ensures var r := Choose(op, x, y, ua, ub);
      && TypeOf(r) == Int32
      && (Holding(ua, out) && Holding(ub, out) ==> Eval(r, out) == Eval(Extreme(op, x, y), out))
      && (!Holding(ub, out) ==> Eval(r, out) == Eval(x, out))
      && (!Holding(ua, out) ==> Eval(r, out) == Eval(y, out))
  {
    var m := Extreme(op, x, y);
    if ua.Some? { Selects(ua.value, m, y, out); } else if ub.Some? { Selects(ub.value, m, x, out); }
  }

  lemma {:induction false} Selects(c: Expr, x: Expr, y: Expr, out: Env)
    requires TypeOf(x) == Int32
    ensures TypeOf(Select(c, x, y)) == Int32
    ensures Eval(Select(c, x, y), out) == if Eval(c, out) != 0 then Eval(x, out) else Eval(y, out)
  {
  }

  lemma {:induction false} ComplementMeans(u: Expr, w: Expr, out: Env)
    requires Complementary(u, w)
    ensures Eval(u, out) != 0 <==> Eval(w, out) == 0
  {
  }

  lemma {:induction false} ConjunctionMeans(u: Expr, w: Expr, out: Env)
    ensures Eval(And(u, w), out) != 0 <==> Eval(u, out) != 0 && Eval(w, out) != 0
  {
  }

  lemma {:induction false} TwoConditions(op: BinOp, x: Expr, y: Expr, u: Expr, w: Expr, out: Env)
    requires IsOrder(op) && TypeOf(x) == Int32 && TypeOf(y) == Int32
    requires TypeOf(Extreme(op, x, y)) == Int32
    ensures var r := Choose(op, x, y, Some(u), Some(w));
      && TypeOf(r) == Int32
      && (Eval(u, out) != 0 && Eval(w, out) != 0 ==> Eval(r, out) == Eval(Extreme(op, x, y), out))
      && (Eval(u, out) != 0 && Eval(w, out) == 0 ==> Eval(r, out) == Eval(x, out))
      && (Eval(u, out) == 0 && Eval(w, out) != 0 ==> Eval(r, out) == Eval(y, out))
  {
    if Complementary(u, w) {
      ComplementMeans(u, w, out);
      Selects(u, x, y, out);
    } else {
      ConjunctionMeans(u, w, out);
      Selects(u, x, y, out);
      Selects(And(u, w), Extreme(op, x, y), Select(u, x, y), out);
    }
  }

  /** The value `v` is on the right side of the end, if there is one. */
  predicate Beyond(op: BinOp, x: Option<Expr>, v: int, out: Env) {
    x.Some? ==> if op.Min? then Eval(x.value, out) <= v else v <= Eval(x.value, out)
  }

  lemma {:induction false} MergeEndHolds(o: Oracle, op: BinOp, x: Option<Expr>, y: Option<Expr>, ua: Option<Expr>,
                                         ub: Option<Expr>,
                                         v: int, out: Env)
    requires SimplifyTotal(o) && IsOrder(op) && IntEnd(x) && IntEnd(y)
    requires (Holding(ua, out) && Beyond(op, x, v, out)) || (Holding(ub, out) && Beyond(op, y, v, out))
    ensures Beyond(op, MergeEnd(o, op, x, y, ua, ub), v, out)
  {
    if x != y && x.Some? && y.Some? {
      ChooseMeans(op, x.value, y.value, ua, ub, out);
      assert SimplifyAt(o, Choose(op, x.value, y.value, ua, ub), out);
    }
  }

  lemma {:induction false} MergeEndInt(o: Oracle, op: BinOp, x: Option<Expr>, y: Option<Expr>, ua: Option<Expr>,
                                       ub: Option<Expr>)
    requires SimplifyTotal(o) && IsOrder(op) && IntEnd(x) && IntEnd(y)
    ensures IntEnd(MergeEnd(o, op, x, y, ua, ub))
  {
    if x != y && x.Some? && y.Some? {
      ChooseMeans(op, x.value, y.value, ua, ub, map[]);
      assert SimplifyAt(o, Choose(op, x.value, y.value, ua, ub), map[]);
    }
  }

  /** The merged condition is the disjunction. */
  lemma {:induction false} MergeUsedMeans(o: Oracle, a: Box, b: Box, out: Env)
    requires SimplifyTotal(o)
    ensures Holding(MergeUsed(o, a, b), out) <==> InUse(a, out) || InUse(b, out)
  {
    MaybeUnusedMeans(a, out);
    MaybeUnusedMeans(b, out);
    var ua, ub := MaybeUnused(a), MaybeUnused(b);
    if ua.Some? && ub.Some? && ua != ub {
      var both := Or(ua.value, ub.value);
      assert Eval(both, out) == Truth(Eval(ua.value, out) != 0 || Eval(ub.value, out) != 0);
      assert SimplifyAt(o, both, out);
      ZeroOne(o.simplify(both), out);
    }
  }

  /** Merging loses no point of either box. */
  lemma {:induction false} MergeCovers(o: Oracle, a: Box, b: Box, p: seq<int>, out: Env)
    requires SimplifyTotal(o) && IntBox(a) && IntBox(b) && (a.dims != [] && b.dims != [] ==> |a.dims| == |b.dims|)
    requires Covers(a, p, out) || Covers(b, p, out)
    ensures Covers(Merged(o, a, b), p, out)
  {
    if a.dims != [] && b.dims != [] {
      MergeUsedMeans(o, a, b, out);
      MaybeUnusedMeans(a, out);
      MaybeUnusedMeans(b, out);
      var ua, ub := MaybeUnused(a), MaybeUnused(b);
      forall i | 0 <= i < |p| ensures Within(Merged(o, a, b).dims[i], p[i], out) {
        assert IntEnds(a.dims[i]) && IntEnds(b.dims[i]);
        assert Covers(a, p, out) ==> Within(a.dims[i], p[i], out);
        assert Covers(b, p, out) ==> Within(b.dims[i], p[i], out);
        MergeEndHolds(o, Min, a.dims[i].min, b.dims[i].min, ua, ub, p[i], out);
        MergeEndHolds(o, Max, a.dims[i].max, b.dims[i].max, ua, ub, p[i], out);
      }
    }
  }

  lemma {:induction false} MergeInt(o: Oracle, a: Box, b: Box)
    requires SimplifyTotal(o) && IntBox(a) && IntBox(b) && (a.dims != [] && b.dims != [] ==> |a.dims| == |b.dims|)
    ensures IntBox(Merged(o, a, b))
  {
    if a.dims != [] && b.dims != [] {
      forall i | 0 <= i < |a.dims| ensures IntEnds(Merged(o, a, b).dims[i]) {
        assert IntEnds(a.dims[i]) && IntEnds(b.dims[i]);
        MergeEndInt(o, Min, a.dims[i].min, b.dims[i].min, MaybeUnused(a), MaybeUnused(b));
        MergeEndInt(o, Max, a.dims[i].max, b.dims[i].max, MaybeUnused(a), MaybeUnused(b));
      }
    }
  }

  /** Merging adds nothing either: the merged ends are the extreme ends of the boxes in use. */
  lemma {:induction false} MergeIsExact(o: Oracle, a: Box, b: Box, i: nat, out: Env)
    requires SimplifyTotal(o) && IntBox(a) && IntBox(b) && i < |a.dims| == |b.dims|
    requires a.dims[i].min.Some? && b.dims[i].min.Some? && a.dims[i].max.Some? && b.dims[i].max.Some?
    ensures InUse(Merged(o, a, b), out) <==> InUse(a, out) || InUse(b, out)
    ensures var (m, x, y) := (Merged(o, a, b).dims[i], a.dims[i], b.dims[i]);
      && m.min.Some? && m.max.Some?
      && (InUse(a, out) && InUse(b, out) ==>
            && Eval(m.min.value, out) == MinInt(Eval(x.min.value, out), Eval(y.min.value, out))
            && Eval(m.max.value, out) == MaxInt(Eval(x.max.value, out), Eval(y.max.value, out)))
      && (InUse(a, out) && !InUse(b, out) ==>
            Eval(m.min.value, out) == Eval(x.min.value, out) && Eval(m.max.value, out) == Eval(x.max.value, out))
      && (!InUse(a, out) && InUse(b, out) ==>
            Eval(m.min.value, out) == Eval(y.min.value, out) && Eval(m.max.value, out) == Eval(y.max.value, out))
  {
    MergeUsedMeans(o, a, b, out);
    MaybeUnusedMeans(a, out);
    MaybeUnusedMeans(b, out);
    var ua, ub, x, y := MaybeUnused(a), MaybeUnused(b), a.dims[i], b.dims[i];
    assert IntEnds(x) && IntEnds(y);
    MergeEndExact(o, Min, x.min.value, y.min.value, ua, ub, out);
    MergeEndExact(o, Max, x.max.value, y.max.value, ua, ub, out);
  }

  lemma {:induction false} MergeEndExact(o: Oracle, op: BinOp, x: Expr, y: Expr, ua: Option<Expr>, ub: Option<Expr>,
                                         out: Env)
    requires SimplifyTotal(o) && IsOrder(op) && TypeOf(x) == Int32 && TypeOf(y) == Int32
    ensures var r := MergeEnd(o, op, Some(x), Some(y), ua, ub);
      && r.Some?
      && (Holding(ua, out) && Holding(ub, out) ==> Eval(r.value, out) == DoBin(op, Eval(x, out), Eval(y, out)))
      && (Holding(ua, out) && !Holding(ub, out) ==> Eval(r.value, out) == Eval(x, out))
      && (!Holding(ua, out) && Holding(ub, out) ==> Eval(r.value, out) == Eval(y, out))
  {
    ChooseMeans(op, x, y, ua, ub, out);
    assert SimplifyAt(o, Choose(op, x, y, ua, ub), out);
  }
}
