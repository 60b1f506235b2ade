/**
 * What a split or fused loop nest runs.  A loop body is any function from the loop variable
 * to a sequence of actions, so that equal runs mean the same iterations in the same order
 * and nests of loops compose.
 */
module SplitRuns {
  import opened Ir
  import opened Euclid
  import opened Splits

  type Body<T> = int -> seq<T>

  function Loop<T>(lo: int, n: int, g: Body<T>): seq<T>
    decreases n
  {
    if n <= 0 then [] else g(lo) + Loop(lo + 1, n - 1, g)
  }

  lemma {:induction false} LoopConcat<T>(lo: int, m: int, n: int, g: Body<T>)
    requires m >= 0 && n >= 0
    ensures Loop(lo, m + n, g) == Loop(lo, m, g) + Loop(lo + m, n, g)
    decreases m
  {
    if m > 0 {
      LoopConcat(lo + 1, m - 1, n, g);
    }
  }

  lemma {:induction false} LoopSnoc<T>(lo: int, n: nat, g: Body<T>)
    ensures Loop(lo, n + 1, g) == Loop(lo, n, g) + g(lo + n)
  {
    LoopConcat(lo, n, 1, g);
    assert Loop(lo + n + 1, 0, g) == [];
    assert Loop(lo + n, 1, g) == g(lo + n) + [];
  }

  predicate Agree<T(==)>(g: Body<T>, lo: int, g': Body<T>, lo': int, k: int) { g(lo + k) == g'(lo' + k) }

  /** Two loops over bodies that agree after a shift run the same. */
  lemma {:induction false} LoopShift<T>(lo: int, n: int, g: Body<T>, lo': int, g': Body<T>)
    requires forall k :: 0 <= k < n ==> Agree(g, lo, g', lo', k)
    ensures Loop(lo, n, g) == Loop(lo', n, g')
    decreases n
  {
    if n > 0 {
      assert Agree(g, lo, g', lo', 0);
      var next, next' := lo + 1, lo' + 1;
      forall k | 0 <= k < n - 1 ensures Agree(g, next, g', next', k) {
        assert Agree(g, lo, g', lo', k + 1);
        assert next + k == lo + (k + 1) && next' + k == lo' + (k + 1);
      }
      LoopShift(next, n - 1, g, next', g');
    }
  }

  predicate Idle<T>(g: Body<T>, i: int) { |g(i)| == 0 }

  lemma {:induction false} LoopOfNothing<T>(lo: int, n: int, g: Body<T>)
    requires forall i :: lo <= i < lo + n ==> Idle(g, i)
    ensures Loop(lo, n, g) == []
    decreases n
  {
    if n > 0 {
      assert Idle(g, lo);
      LoopOfNothing(lo + 1, n - 1, g);
    }
  }

  /** Blocks of `f` iterations each: the nest is one loop. */
  lemma {:induction false} Blocks<T>(lo: int, count: nat, f: int, outer: Body<T>, g: Body<T>)
    requires f >= 0 && forall o :: 0 <= o < count ==> outer(o) == Loop(lo + o * f, f, g)
    ensures Loop(0, count, outer) == Loop(lo, count * f, g)
    decreases count
  {
    if count > 0 {
      var last := count - 1;
      var start := last * f;
      ScaleLe(0, last, f);
      assert count * f == start + f;
      Blocks(lo, last, f, outer, g);
      LoopSnoc(0, last, outer);
      assert outer(last) == Loop(lo + start, f, g);
      LoopConcat(lo, start, f, g);
    }
  }

  // ---- splits ----

  /** The body at one outer and one inner iteration. */
  function At<T>(s: Split, way: Way, d: Dim, g: Body<T>, o: int, i: int): seq<T>
    requires s.SplitVar?
  {
    if RunsAt(s, way, d, o, i) then g(ValueAt(s, way, d, o, i)) else []
  }

  function InnerLoop<T>(s: Split, way: Way, d: Dim, g: Body<T>, o: int): seq<T>
    requires s.SplitVar?
  {
    Loop(0, s.factor, i => At(s, way, d, g, o, i))
  }

  function SplitLoop<T>(s: Split, way: Way, d: Dim, g: Body<T>): seq<T>
    requires s.SplitVar? && s.factor != 0
  {
    Loop(0, OuterExtent(d, s.factor), o => InnerLoop(s, way, d, g, o))
  }

  /** A factor below one that is accepted, because it divides the known alignment, is negative and runs nothing. */
  lemma {:induction false} NegativeFactorRunsNothing<T>(s: Split, al: Alignment, d: Dim, g: Body<T>)
    requires s.SplitVar? && s.factor <= 0 && Items(s, al).Ok?
    ensures s.factor < 0 && SplitLoop(s, WayOf(s, al), d, g) == []
  {
    var way := WayOf(s, al);
    var outer: Body<T> := o => InnerLoop(s, way, d, g, o);
    forall o ensures Idle(outer, o) { assert outer(o) == InnerLoop(s, way, d, g, o) == []; }
    LoopOfNothing(0, OuterExtent(d, s.factor), outer);
  }

  /** One unguarded block. */
  lemma {:induction false} InnerIsLoop<T>(s: Split, way: Way, d: Dim, g: Body<T>, o: int)
    requires s.SplitVar? && way != Guarded
    ensures InnerLoop(s, way, d, g, o) == Loop(BaseValue(s, way, d, o), s.factor, g)
  {
    var b := BaseValue(s, way, d, o);
    var body: Body<T> := i => At(s, way, d, g, o, i);
    forall k | 0 <= k < s.factor ensures Agree(body, 0, g, b, k) {}
    LoopShift(0, s.factor, body, b, g);
  }

  /** A block that the guard cuts off after `m` iterations. */
  lemma {:induction false} GuardedInner<T>(s: Split, d: Dim, g: Body<T>, o: int, m: int)
    requires s.SplitVar? && 0 <= m <= s.factor && (m == s.factor || m == d.extent - o * s.factor)
      && o * s.factor + m <= d.extent
    ensures InnerLoop(s, Guarded, d, g, o) == Loop(d.min + o * s.factor, m, g)
  {
    var body: Body<T> := i => At(s, Guarded, d, g, o, i);
    var lo := d.min + o * s.factor;
    LoopConcat(0, m, s.factor - m, body);
    forall k | 0 <= k < m ensures Agree(body, 0, g, lo, k) { assert body(k) == At(s, Guarded, d, g, o, k); }
    LoopShift(0, m, body, lo, g);
    forall k | m <= k < s.factor ensures Idle(body, k) { assert body(k) == At(s, Guarded, d, g, o, k); }
    LoopOfNothing(m, s.factor - m, body);
  }

  /** The number of blocks: just enough to cover the extent. */
  lemma {:induction false} BlockCount(n: int, f: int)
    requires f > 0 && n >= 0
    ensures var c := (n - 1 + f) / f; c >= 0 && n <= c * f < n + f && (n > 0 ==> c > 0 && (c - 1) * f < n)
  {
    var c := (n - 1 + f) / f;
    DivBelow(n - 1 + f, f, c);
    DivBelow(n - 1 + f, f, c - 1);
    OuterNonNegative(n, f);
    assert f * (c + 1) == c * f + f && f * (c - 1 + 1) == c * f && (c - 1) * f == c * f - f;
    assert c == 0 ==> c * f == 0;
  }

  /** RoundUp, and a split by a known divisor or by one: the iterations of the extent rounded up to the factor. */
  lemma {:induction false} RoundedRun<T>(s: Split, way: Way, d: Dim, g: Body<T>)
    requires s.SplitVar? && s.factor > 0 && (way == Rounded || way == Exact) && d.extent >= 0
    ensures var n := OuterExtent(d, s.factor) * s.factor;
      SplitLoop(s, way, d, g) == Loop(d.min, n, g) && d.extent <= n < d.extent + s.factor
  {
    BlockCount(d.extent, s.factor);
    var outer: Body<T> := o => InnerLoop(s, way, d, g, o);
    forall o | 0 <= o < OuterExtent(d, s.factor) ensures outer(o) == Loop(d.min + o * s.factor, s.factor, g) {
      InnerIsLoop(s, way, d, g, o);
    }
    Blocks(d.min, OuterExtent(d, s.factor), s.factor, outer, g);
  }

  /** A split by a factor known to divide the extent, or by one, runs the original iterations once and in order. */
  lemma {:induction false} ExactRun<T>(s: Split, al: Alignment, d: Dim, g: Body<T>)
    requires s.SplitVar? && s.factor > 0 && WayOf(s, al) == Exact && d.extent >= 0 && s.inner != s.old_
    requires s.old_ in al ==> al[s.old_] > 0 && d.extent % al[s.old_] == 0
    ensures SplitLoop(s, Exact, d, g) == Loop(d.min, d.extent, g)
  {
    RoundedRun(s, Exact, d, g);
    var n := OuterExtent(d, s.factor) * s.factor;
    if s.factor != 1 {
      OuterDivides(d.extent, al[s.old_], s.factor);
      assert n == d.extent;
    }
  }

  lemma BlockBefore(o: int, c: int, f: int)
    requires f > 0 && o < c
    ensures o * f + f <= c * f
  {
    ScaleLe(o + 1, c, f);
    assert (o + 1) * f == o * f + f;
  }

  /** All blocks but the last are full. */
  lemma {:induction false} FullBlocks<T>(s: Split, d: Dim, g: Body<T>, c: nat)
    requires s.SplitVar? && s.factor > 0 && c * s.factor <= d.extent
    ensures Loop(0, c, o => InnerLoop(s, Guarded, d, g, o)) == Loop(d.min, c * s.factor, g)
  {
    var f := s.factor;
    var outer: Body<T> := o => InnerLoop(s, Guarded, d, g, o);
    forall o | 0 <= o < c ensures outer(o) == Loop(d.min + o * f, f, g) {
      BlockBefore(o, c, f);
      GuardedInner(s, d, g, o, f);
    }
    Blocks(d.min, c, f, outer, g);
  }

  /** Full blocks, then one cut off after `last` iterations. */
  lemma {:induction false} FullThenCut<T>(s: Split, d: Dim, g: Body<T>, c: nat, start: int, last: int)
    requires s.SplitVar? && s.factor > 0 && start == c * s.factor && 0 <= last <= s.factor
      && d.extent == start + last && start >= 0
    ensures Loop(0, c + 1, o => InnerLoop(s, Guarded, d, g, o)) == Loop(d.min, d.extent, g)
  {
    var outer: Body<T> := o => InnerLoop(s, Guarded, d, g, o);
    FullBlocks(s, d, g, c);
    LoopSnoc(0, c, outer);
    GuardedInner(s, d, g, c, last);
    LoopConcat(d.min, start, last, g);
  }

  /** GuardWithIf runs the original iterations once and in order, for any extent. */
  lemma {:induction false} GuardedRun<T>(s: Split, d: Dim, g: Body<T>)
    requires s.SplitVar? && s.factor > 0 && d.extent >= 0
    ensures SplitLoop(s, Guarded, d, g) == Loop(d.min, d.extent, g)
  {
    var f, n := s.factor, d.extent;
    var c := OuterExtent(d, f);
    BlockCount(n, f);
    if n > 0 {
      var start := (c - 1) * f;
      assert start == c * f - f;
      ScaleLe(0, c - 1, f);
      FullThenCut(s, d, g, c - 1, start, n - start);
    } else {
      assert c == 0 by { if c > 0 { ScaleLe(1, c, f); assert false; } }
    }
  }

  /**
   * ShiftInwards, extent at least the factor: all blocks but the last in place, the last moved back to end
   * at the maximum.
   */
  lemma {:induction false} ShiftedRun<T>(s: Split, d: Dim, g: Body<T>)
    requires s.SplitVar? && s.factor > 0 && d.extent >= s.factor
    ensures var c := OuterExtent(d, s.factor);
      && 0 <= (c - 1) * s.factor < d.extent <= (c - 1) * s.factor + s.factor
      && SplitLoop(s, Shifted, d, g) == Loop(d.min, (c - 1) * s.factor, g)
        + Loop(d.min + d.extent - s.factor, s.factor, g)
  {
    var f, n := s.factor, d.extent;
    var c := OuterExtent(d, f);
    BlockCount(n, f);
    assert (c - 1) * f == c * f - f;
    ScaleLe(0, c - 1, f);
    var outer: Body<T> := o => InnerLoop(s, Shifted, d, g, o);
    forall o | 0 <= o < c - 1 ensures outer(o) == Loop(d.min + o * f, f, g) {
      BlockBefore(o, c - 1, f);
      InnerIsLoop(s, Shifted, d, g, o);
    }
    Blocks(d.min, c - 1, f, outer, g);
    LoopSnoc(0, c - 1, outer);
    InnerIsLoop(s, Shifted, d, g, c - 1);
  }

  // ---- counting visits ----

  function Visit(): Body<int> { x => [x] }

  function Count(xs: seq<int>, v: int): nat {
    if xs == [] then 0 else (if xs[0] == v then 1 else 0) + Count(xs[1..], v)
  }

  lemma {:induction false} CountConcat(a: seq<int>, b: seq<int>, v: int)
    ensures Count(a + b, v) == Count(a, v) + Count(b, v)
  {
    if a == [] {
      assert a + b == b;
    } else {
      assert (a + b)[1..] == a[1..] + b;
      CountConcat(a[1..], b, v);
    }
  }

  lemma {:induction false} CountLoop(lo: int, n: int, v: int)
    ensures Count(Loop(lo, n, Visit()), v) == if lo <= v < lo + n then 1 else 0
    decreases n
  {
    if n > 0 {
      CountLoop(lo + 1, n - 1, v);
      CountConcat([lo], Loop(lo + 1, n - 1, Visit()), v);
      assert Visit()(lo) == [lo];
      assert [lo][1..] == [];
    }
  }

  /** ShiftInwards visits each point of the range once or twice and nothing else. */
  lemma {:induction false} ShiftedVisits(s: Split, d: Dim, v: int)
    requires s.SplitVar? && s.factor > 0 && d.extent >= s.factor
    ensures var k := Count(SplitLoop(s, Shifted, d, Visit()), v);
      if d.min <= v < d.min + d.extent then 1 <= k <= 2 else k == 0
  {
    ShiftedRun(s, d, Visit());
    var c := OuterExtent(d, s.factor);
    var a, b := Loop(d.min, (c - 1) * s.factor, Visit()), Loop(d.min + d.extent - s.factor, s.factor, Visit());
    CountConcat(a, b, v);
    CountLoop(d.min, (c - 1) * s.factor, v);
    CountLoop(d.min + d.extent - s.factor, s.factor, v);
  }

  /** A non-empty range shorter than the factor is shifted to start below its minimum. */
  lemma {:induction false} ShortShiftEscapes(s: Split, d: Dim)
    requires s.SplitVar? && 0 < d.extent < s.factor
    ensures Count(SplitLoop(s, Shifted, d, Visit()), d.min + d.extent - s.factor) == 1
  {
    var f := s.factor;
    BlockCount(d.extent, f);
    var c := OuterExtent(d, f);
    assert c == 1 by { if c >= 2 { ScaleLe(1, c - 1, f); assert false; } }
    assert BaseValue(s, Shifted, d, 0) == d.min + d.extent - f;
    var outer: Body<int> := o => InnerLoop(s, Shifted, d, Visit(), o);
    assert Loop(0, 1, outer) == outer(0) + Loop(1, 0, outer);
    assert outer(0) == InnerLoop(s, Shifted, d, Visit(), 0);
    assert SplitLoop(s, Shifted, d, Visit()) == InnerLoop(s, Shifted, d, Visit(), 0);
    InnerIsLoop(s, Shifted, d, Visit(), 0);
    CountLoop(d.min + d.extent - f, f, d.min + d.extent - f);
  }

  /** ShiftInwards stays in range exactly when the range is empty or at least as long as the factor. */
  lemma {:induction false} ShiftedInRangeIff(s: Split, d: Dim)
    requires s.SplitVar? && s.factor > 0 && d.extent >= 0
    ensures (forall v :: Count(SplitLoop(s, Shifted, d, Visit()), v) > 0 ==> d.min <= v < d.min + d.extent)
      <==> d.extent == 0 || d.extent >= s.factor
  {
    if d.extent >= s.factor {
      forall v | Count(SplitLoop(s, Shifted, d, Visit()), v) > 0 ensures d.min <= v < d.min + d.extent {
        ShiftedVisits(s, d, v);
      }
    } else if d.extent == 0 {
      BlockCount(0, s.factor);
      assert OuterExtent(d, s.factor)
        == 0 by { if OuterExtent(d, s.factor) > 0 { ScaleLe(1, OuterExtent(d, s.factor), s.factor); assert false; } }
    } else {
      ShortShiftEscapes(s, d);
    }
  }

  // ---- fusing ----

  type Body2<T> = (int, int) -> seq<T>

  function FusedAt<T>(outer: Dim, inner: Dim, g: Body2<T>, t: int): seq<T> {
    var factor := MaxInt(inner.extent, 1);
    g(t / factor + outer.min, t % factor + inner.min)
  }

  /** What the body runs at iteration `t` of the fused loop is what the collected definitions say. */
  lemma {:induction false} FusedAtMeans<T>(s: Split, al: Alignment, outer: Dim, inner: Dim, g: Body2<T>, env: Env,
                                           t: int)
    requires s.FuseVars? && DistinctFuse(s) && FusedInside(env, s, outer, inner, t)
    ensures Items(s, al).Ok?
    ensures var r := Meaning(Items(s, al).value, env);
      r.guard && FusedAt(outer, inner, g, t) == g(Lookup(r.env, s.outer), Lookup(r.env, s.inner))
  {
    FuseMeans(s, al, outer, inner, env, t);
  }

  function Fused<T>(outer: Dim, inner: Dim, g: Body2<T>): Body<T> { t => FusedAt(outer, inner, g, t) }

  function FusedLoop<T>(outer: Dim, inner: Dim, g: Body2<T>): seq<T> {
    Loop(0, inner.extent * outer.extent, Fused(outer, inner, g))
  }

  function Row<T>(g: Body2<T>, o: int): Body<T> { i => g(o, i) }

  function Rows<T>(inner: Dim, g: Body2<T>): Body<T> { o => Loop(inner.min, inner.extent, Row(g, o)) }

  function Nest<T>(outer: Dim, inner: Dim, g: Body2<T>): seq<T> { Loop(outer.min, outer.extent, Rows(inner, g)) }

  lemma RowAndColumn(o: int, k: int, n: int)
    requires 0 <= k < n
    ensures (o * n + k) / n == o && (o * n + k) % n == k
  {
    DivBelow(o * n + k, n, o);
    DivBelow(o * n + k, n, o - 1);
    assert n * (o + 1) == o * n + n && n * (o - 1 + 1) == o * n;
    var q := (o * n + k) / n;
    assert q == o;
    assert o * n + k == n * q + (o * n + k) % n;
  }

  lemma {:induction false} FusedBlock<T>(outer: Dim, inner: Dim, g: Body2<T>, o: int)
    requires inner.extent > 0
    ensures Loop(o * inner.extent, inner.extent, Fused(outer, inner, g))
      == Loop(inner.min, inner.extent, Row(g, o + outer.min))
  {
    var n := inner.extent;
    var start, fused, row := o * n, Fused(outer, inner, g), Row(g, o + outer.min);
    forall k | 0 <= k < n ensures Agree(fused, start, row, inner.min, k) {
      RowAndColumn(o, k, n);
      assert fused(start + k) == FusedAt(outer, inner, g, o * n + k);
    }
    LoopShift(start, n, fused, inner.min, row);
  }

  /** A fused loop runs the iterations of the two loops once and in order, unless both extents are negative. */
  lemma {:induction false} FusedRun<T>(outer: Dim, inner: Dim, g: Body2<T>)
    requires !(outer.extent < 0 && inner.extent < 0)
    ensures FusedLoop(outer, inner, g) == Nest(outer, inner, g)
  {
    var n, c := inner.extent, outer.extent;
    if n > 0 && c > 0 {
      FusedRows(outer, inner, g);
    } else {
      if n <= 0 && c >= 0 { ScaleLe(n, 0, c); } else { ScaleLe(c, 0, n); }
      forall o | outer.min <= o < outer.min + c ensures Idle(Rows(inner, g), o) {}
      LoopOfNothing(outer.min, c, Rows(inner, g));
    }
  }

  /** The rows of the nest, counted from zero. */
  function RowsFromZero<T>(outer: Dim, inner: Dim, g: Body2<T>): Body<T> {
    o => Loop(inner.min, inner.extent, Row(g, o + outer.min))
  }

  lemma {:induction false} FusedRows<T>(outer: Dim, inner: Dim, g: Body2<T>)
    requires outer.extent > 0 && inner.extent > 0
    ensures FusedLoop(outer, inner, g) == Nest(outer, inner, g)
  {
    FusedBlocks(outer, inner, g);
    RowsShift(outer, inner, g);
    assert outer.extent * inner.extent == inner.extent * outer.extent;
  }

  lemma {:induction false} FusedBlocks<T>(outer: Dim, inner: Dim, g: Body2<T>)
    requires outer.extent > 0 && inner.extent > 0
    ensures Loop(0, outer.extent, RowsFromZero(outer, inner, g))
      == Loop(0, outer.extent * inner.extent, Fused(outer, inner, g))
  {
    var n, row := inner.extent, RowsFromZero(outer, inner, g);
    forall o | 0 <= o < outer.extent ensures row(o) == Loop(0 + o * n, n, Fused(outer, inner, g)) {
      FusedBlock(outer, inner, g, o);
    }
    Blocks(0, outer.extent, n, row, Fused(outer, inner, g));
  }

  lemma {:induction false} RowsShift<T>(outer: Dim, inner: Dim, g: Body2<T>)
    ensures Loop(0, outer.extent, RowsFromZero(outer, inner, g)) == Nest(outer, inner, g)
  {
    var row, rows := RowsFromZero(outer, inner, g), Rows(inner, g);
    forall k | 0 <= k < outer.extent ensures Agree(row, 0, rows, outer.min, k) {
      assert k + outer.min == outer.min + k;
    }
    LoopShift(0, outer.extent, row, outer.min, rows);
  }

  /** Two negative extents multiply to a positive one, and the fused loop runs where the nest does not. */
  lemma {:induction false} FusedNegative(outer: Dim, inner: Dim)
    requires outer.extent < 0 && inner.extent < 0
    ensures var g: Body2<int> := (o, i) => [o]; FusedLoop(outer, inner, g) != [] && Nest(outer, inner, g) == []
  {
    var g: Body2<int> := (o, i) => [o];
    ScaleLe(inner.extent, -1, -outer.extent);
    assert inner.extent * outer.extent > 0;
    assert |Fused(outer, inner, g)(0)| == 1;
  }

  // ---- splits of splits ----

  /** How one original loop has been cut up: each cut's loops may be cut again, or fused and then cut again. */
  datatype Cuts =
    | Whole
    | Cut(s: Split, way: Way, outer: Cuts, inner: Cuts)
    | CutAndFuse(s: Split, way: Way, fused: Cuts)

  predicate FaithfulCut(s: Split, way: Way, d: Dim) {
    s.SplitVar? && s.factor > 0 && d.extent >= 0 && (way == Guarded || (way == Exact && d.extent % s.factor == 0))
  }

  /** Every cut is guarded or by a divisor of the extent it cuts. */
  predicate Faithful(c: Cuts, d: Dim) {
    match c
    case Whole => d.extent >= 0
    case Cut(s, way, a, b) =>
      FaithfulCut(s, way, d) && Faithful(a, Dim(0, OuterExtent(d, s.factor))) && Faithful(b, Dim(0, s.factor))
    case CutAndFuse(s, way, a) => FaithfulCut(s, way, d) && Faithful(a, Dim(0, s.factor * OuterExtent(d, s.factor)))
  }

  function Pairs<T>(s: Split, way: Way, d: Dim, g: Body<T>): Body2<T>
    requires s.SplitVar?
  {
    (o, i) => At(s, way, d, g, o, i)
  }

  function RunCuts<T>(c: Cuts, d: Dim, g: Body<T>): seq<T>
    requires Faithful(c, d)
  {
    match c
    case Whole => Loop(d.min, d.extent, g)
    case Cut(s, way, a, b) =>
      RunCuts(a, Dim(0, OuterExtent(d, s.factor)), o => RunCuts(b, Dim(0, s.factor), i => At(s, way, d, g, o, i)))
    case CutAndFuse(s, way, a) =>
      var n := OuterExtent(d, s.factor);
      RunCuts(a, Dim(0, s.factor * n), Fused(Dim(0, n), Dim(0, s.factor), Pairs(s, way, d, g)))
  }

  /** However often the loop has been cut and fused, its iterations run once and in order. */
  lemma {:induction false} CutsRun<T>(c: Cuts, d: Dim, g: Body<T>)
    requires Faithful(c, d)
    ensures RunCuts(c, d, g) == Loop(d.min, d.extent, g)
    decreases c, 1
  {
    match c
    case Whole =>
    case Cut(s, way, a, b) =>
      var n := OuterExtent(d, s.factor);
      var cutRows: Body<T> := o => RunCuts(b, Dim(0, s.factor), i => At(s, way, d, g, o, i));
      var rows: Body<T> := o => InnerLoop(s, way, d, g, o);
      CutsRun(a, Dim(0, n), cutRows);
      forall k | 0 <= k < n ensures Agree(cutRows, 0, rows, 0, k) {
        CutsRun(b, Dim(0, s.factor), i => At(s, way, d, g, k, i));
      }
      LoopShift(0, n, cutRows, 0, rows);
      CutRuns(s, way, d, g);
    case CutAndFuse(_, _, _) => RefusedRuns(c, d, g);
  }

  /** Fusing the two loops of a cut gives back one loop. */
  lemma {:induction false} RefusedRuns<T>(c: Cuts, d: Dim, g: Body<T>)
    requires c.CutAndFuse? && Faithful(c, d)
    ensures RunCuts(c, d, g) == Loop(d.min, d.extent, g)
    decreases c, 0
  {
    var s, way, n := c.s, c.way, OuterExtent(d, c.s.factor);
    var outer, inner, pairs := Dim(0, n), Dim(0, s.factor), Pairs(s, way, d, g);
    CutsRun(c.fused, Dim(0, s.factor * n), Fused(outer, inner, pairs));
    FusedRun(outer, inner, pairs);
    var rows: Body<T> := o => InnerLoop(s, way, d, g, o);
    forall k | 0 <= k < n ensures Agree(Rows(inner, pairs), 0, rows, 0, k) { RowIsInner(s, way, d, g, k); }
    LoopShift(0, n, Rows(inner, pairs), 0, rows);
    CutRuns(s, way, d, g);
  }

  lemma {:induction false} RowIsInner<T>(s: Split, way: Way, d: Dim, g: Body<T>, o: int)
    requires s.SplitVar?
    ensures Loop(0, s.factor, Row(Pairs(s, way, d, g), o)) == InnerLoop(s, way, d, g, o)
  {
    var row, body: Body<T> := Row(Pairs(s, way, d, g), o), i => At(s, way, d, g, o, i);
    forall k | 0 <= k < s.factor ensures Agree(row, 0, body, 0, k) {}
    LoopShift(0, s.factor, row, 0, body);
  }

  /** Two loops fused and then cut in any way run as the nest they were. */
  lemma {:induction false} FusedCutsRun<T>(c: Cuts, outer: Dim, inner: Dim, g: Body2<T>)
    requires Faithful(c, Dim(0, inner.extent * outer.extent)) && !(outer.extent < 0 && inner.extent < 0)
    ensures RunCuts(c, Dim(0, inner.extent * outer.extent), Fused(outer, inner, g)) == Nest(outer, inner, g)
  {
    CutsRun(c, Dim(0, inner.extent * outer.extent), Fused(outer, inner, g));
    FusedRun(outer, inner, g);
  }

  lemma {:induction false} CutRuns<T>(s: Split, way: Way, d: Dim, g: Body<T>)
    requires s.SplitVar? && s.factor > 0 && d.extent >= 0
      && (way == Guarded || (way == Exact && d.extent % s.factor == 0))
    ensures SplitLoop(s, way, d, g) == Loop(d.min, d.extent, g)
  {
    if way == Guarded {
      GuardedRun(s, d, g);
    } else {
      RoundedRun(s, Exact, d, g);
      SelfDivides(s.factor);
      OuterDivides(d.extent, s.factor, s.factor);
    }
  }
}
