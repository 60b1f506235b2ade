/**
 * The generated AI Engine convolution against the naive one.
 *
 * Memory is a function from word addresses, since the vector kernel loads whole vectors that
 * may reach past a buffer's end; which words matter, and how far the loads reach, is part of
 * what is proved.  The input has strides 1, 16, 48, 576, the kernel 3 x 3 x 12 taps per output
 * channel, the output is dense with a width that is a multiple of 8.
 */
module Conv {
  import opened Wrappers
  import opened Euclid

  type Memory = int -> int

  /** Output width, height, channels and batch. */
  datatype Shape = Shape(w: nat, h: nat, c: nat, n: nat)

  // ---- the sum ----

  const TAPS := 108

  /** Tap `t` of the kernel at `kb`, for the output at input position `p`. */
  function Term(b0: Memory, b1: Memory, p: int, kb: int, t: nat): int {
    b0(p + 16 * (t / 3) + t % 3) * b1(kb + t)
  }

  function Dot(b0: Memory, b1: Memory, p: int, kb: int, m: nat): int {
    if m == 0 then 0 else Dot(b0, b1, p, kb, m - 1) + Term(b0, b1, p, kb, m - 1)
  }

  // ---- the vector unit ----

  /** Sixteen lanes, of which some may not have been loaded. */
  type Register = seq<Option<int>>

  function Undefined(): Register { seq(16, i => None) }

  function Load8(b: Memory, a: int): seq<int> { seq(8, i => b(a + i)) }

  /** Replace the lower or upper eight lanes. */
  function UpdW(r: Register, half: nat, v: seq<int>): Register
    requires |r| == 16 && half < 2 && |v| == 8
  {
    seq(16, i requires 0 <= i < 16 => if 8 * half <= i < 8 * half + 8 then Some(v[i - 8 * half]) else r[i])
  }

  predicate Loaded(r: Register, start: nat) {
    |r| == 16 && start + 8 <= 16 && forall i :: start <= i < start + 8 ==> r[i].Some?
  }

  /** Multiply eight consecutive lanes by one coefficient and accumulate; every lane used must have been loaded. */
  function LMac8(acc: seq<int>, r: Register, start: nat, v: seq<int>, lane: nat): seq<int>
    requires |acc| == 8 && Loaded(r, start) && |v| == 8 && lane < 8
  {
    seq(8, l requires 0 <= l < 8 => acc[l] + r[start + l].value * v[lane])
  }

  /** The first `n` lanes hold the row at `a`. */
  ghost predicate HoldsRow(r: Register, b0: Memory, a: int, n: nat) {
    |r| == 16 && n <= 16 && forall i :: 0 <= i < n ==> r[i] == Some(b0(a + i))
  }

  ghost predicate HoldsTaps(v: seq<int>, b1: Memory, a: int) {
    |v| == 8 && forall i :: 0 <= i < 8 ==> v[i] == b1(a + i)
  }

  lemma {:induction false} LowerHalf(b0: Memory, a: int)
    ensures HoldsRow(UpdW(Undefined(), 0, Load8(b0, a)), b0, a, 8)
  {
  }

  lemma {:induction false} UpperHalf(r: Register, b0: Memory, a: int)
    requires HoldsRow(r, b0, a, 8)
    ensures HoldsRow(UpdW(r, 1, Load8(b0, a + 8)), b0, a, 16)
  {
    var u := UpdW(r, 1, Load8(b0, a + 8));
    forall i | 0 <= i < 16 ensures u[i] == Some(b0(a + i)) {
      if i >= 8 { assert Load8(b0, a + 8)[i - 8] == b0(a + 8 + (i - 8)); }
    }
  }

  /** The accumulators after `t` taps. */
  ghost predicate Partial(acc: seq<int>, b0: Memory, b1: Memory, base: int, kb: int, t: nat) {
    |acc| == 8 && forall l :: 0 <= l < 8 ==> acc[l] == Dot(b0, b1, base + l, kb, t)
  }

  lemma TermIs(b0: Memory, b1: Memory, p: int, kb: int, g: nat, x: nat)
    requires x < 3
    ensures Term(b0, b1, p, kb, 3 * g + x) == b0(p + 16 * g + x) * b1(kb + (3 * g + x))
  {
    assert (3 * g + x) / 3 == g && (3 * g + x) % 3 == x;
  }

  lemma {:induction false} MacStep(b0: Memory, b1: Memory, base: int, kb: int, g: nat, x: nat, acc: seq<int>,
                                   r: Register, v: seq<int>, lane: nat)
    requires x < 3 && lane < 8 && Partial(acc, b0, b1, base, kb, 3 * g + x)
    requires HoldsRow(r, b0, base + 16 * g, if x == 0 then 8 else 16) && |v| == 8 && v[lane] == b1(kb + (3 * g + x))
    ensures Partial(LMac8(acc, r, x, v, lane), b0, b1, base, kb, 3 * g + x + 1)
  {
    var next := LMac8(acc, r, x, v, lane);
    forall l | 0 <= l < 8 ensures next[l] == Dot(b0, b1, base + l, kb, 3 * g + x + 1) {
      TermIs(b0, b1, base + l, kb, g, x);
      assert r[x + l] == Some(b0(base + 16 * g + (x + l)));
      assert base + 16 * g + (x + l) == base + l + 16 * g + x;
    }
  }

  /** The registers before tap 3 * g + x, with coefficient `lane` of its group. */
  datatype Unit = Unit(acc: seq<int>, temporal: Register, spatial: seq<int>, g: nat, x: nat, lane: nat)

  function At(u: Unit): nat { 3 * u.g + u.x }

  ghost predicate UnitOk(u: Unit, b0: Memory, b1: Memory, base: int, kb: int) {
    && u.x < 3 && u.lane == At(u) % 8 && Partial(u.acc, b0, b1, base, kb, At(u))
    && (u.x > 0 ==> HoldsRow(u.temporal, b0, base + 16 * u.g, if u.x == 1 then 8 else 16))
    && (u.lane > 0 ==> HoldsTaps(u.spatial, b1, kb + At(u) - u.lane))
  }

  function Advance(u: Unit, acc: seq<int>, temporal: Register, spatial: seq<int>): Unit {
    Unit(acc, temporal, spatial, if u.x == 2 then u.g + 1 else u.g, if u.x == 2 then 0 else u.x + 1,
         if u.lane == 7 then 0 else u.lane + 1)
  }

  lemma {:induction false} AdvanceOk(u: Unit, acc: seq<int>, temporal: Register, spatial: seq<int>, b0: Memory,
                                     b1: Memory, base: int, kb: int)
    requires u.x < 3 && u.lane == At(u) % 8 && Partial(acc, b0, b1, base, kb, At(u) + 1)
    requires HoldsRow(temporal, b0, base + 16 * u.g, if u.x == 0 then 8 else 16)
      && HoldsTaps(spatial, b1, kb + At(u) - u.lane)
    ensures var v := Advance(u, acc, temporal, spatial); UnitOk(v, b0, b1, base, kb) && At(v) == At(u) + 1
  {
    var v, t := Advance(u, acc, temporal, spatial), At(u);
    assert At(v) == t + 1;
    LaneStep(t);
  }

  lemma LaneStep(t: nat)
    ensures (t + 1) % 8 == if t % 8 == 7 then 0 else t % 8 + 1
  {
  }

  // ---- how far the loads reach ----

  /** The end of the farthest load so far from the input and from the filters; every load starts at or above zero. */
  datatype Reach = Reach(input: int, taps: int)

  const NOTHING := Reach(0, 0)

  function Farther(a: Reach, b: Reach): Reach {
    Reach(if a.input <= b.input then b.input else a.input, if a.taps <= b.taps then b.taps else a.taps)
  }

  /** The ends of the loads made for one coefficient. */
  function TapReach(base: int, kb: int, u: Unit): Reach {
    var row := base + 16 * u.g;
    Reach(if u.x == 0 then row + 8 else if u.x == 1 then row + 16 else 0, if u.lane == 0 then kb + At(u) + 8 else 0)
  }

  /** How far the loads for the first `t` coefficients reach. */
  function BlockReach(base: int, kb: int, t: nat): Reach {
    if t == 0 then NOTHING
    else Reach(base + 16 * ((t - 1) / 3) + (if (t - 1) % 3 == 0 then 8 else 16), kb + 8 * ((t - 1) / 8) + 8)
  }

  lemma {:induction false} ReachStep(base: int, kb: int, u: Unit)
    requires base >= 0 && kb >= 0 && u.x < 3 && u.lane == At(u) % 8
    ensures Farther(BlockReach(base, kb, At(u)), TapReach(base, kb, u)) == BlockReach(base, kb, At(u) + 1)
  {
    RowStep(u.g, u.x);
    GroupStep(At(u));
  }

  lemma {:induction false} RowStep(g: nat, x: nat)
    requires x < 3
    ensures (3 * g + x) / 3 == g && (3 * g + x) % 3 == x
    ensures 3 * g + x > 0 ==> (3 * g + x - 1) / 3 == (if x == 0 then g - 1 else g)
    ensures 3 * g + x > 0 ==> (3 * g + x - 1) % 3 == (if x == 0 then 2 else x - 1)
  {
  }

  lemma {:induction false} GroupStep(t: nat)
    ensures t % 8 == 0 ==> 8 * (t / 8) == t
    ensures t > 0 ==> (t - 1) / 8 == if t % 8 == 0 then t / 8 - 1 else t / 8
  {
  }

  // ---- the kernel ----

  /** A row starts with its lower half and is completed for the second coefficient. */
  method LoadRow(b0: Memory, row: int, u: Unit) returns (temporal: Register, ghost end: int)
    requires u.x < 3 && (u.x > 0 ==> HoldsRow(u.temporal, b0, row, if u.x == 1 then 8 else 16))
    ensures HoldsRow(temporal, b0, row, if u.x == 0 then 8 else 16)
    ensures end == if u.x == 0 then row + 8 else if u.x == 1 then row + 16 else 0
  {
    temporal, end := u.temporal, 0;
    if u.x == 0 {
      LowerHalf(b0, row);
      temporal, end := UpdW(Undefined(), 0, Load8(b0, row)), row + 8;
    } else if u.x == 1 {
      UpperHalf(temporal, b0, row);
      temporal, end := UpdW(temporal, 1, Load8(b0, row + 8)), row + 8 + 8;
    }
  }

  /** Coefficients are loaded eight at a time. */
  method LoadTaps(b1: Memory, kb: int, u: Unit) returns (spatial: seq<int>, ghost end: int)
    requires u.lane < 8 && (u.lane > 0 ==> HoldsTaps(u.spatial, b1, kb + At(u) - u.lane))
    ensures HoldsTaps(spatial, b1, kb + At(u) - u.lane) && end == if u.lane == 0 then kb + At(u) + 8 else 0
  {
    spatial, end := u.spatial, 0;
    if u.lane == 0 {
      spatial, end := Load8(b1, kb + At(u)), kb + At(u) + 8;
    }
  }

  /** One coefficient: loads where they are due, then a multiply-accumulate. */
  method Tap(b0: Memory, b1: Memory, base: int, kb: int, u: Unit) returns (v: Unit, ghost reach: Reach)
    requires UnitOk(u, b0, b1, base, kb)
    ensures UnitOk(v, b0, b1, base, kb) && At(v) == At(u) + 1 && reach == TapReach(base, kb, u)
  {
    var temporal, spatial;
    ghost var rowEnd, tapsEnd;
    temporal, rowEnd := LoadRow(b0, base + 16 * u.g, u);
    spatial, tapsEnd := LoadTaps(b1, kb, u);
    reach := Reach(rowEnd, tapsEnd);
    TapOk(b0, b1, base, kb, u, temporal, spatial);
    var acc := LMac8(u.acc, temporal, u.x, spatial, u.lane);
    v := Advance(u, acc, temporal, spatial);
  }

  lemma {:induction false} TapOk(b0: Memory, b1: Memory, base: int, kb: int, u: Unit, temporal: Register,
                                 spatial: seq<int>)
    requires UnitOk(u, b0, b1, base, kb)
    requires HoldsRow(temporal, b0, base + 16 * u.g, if u.x == 0 then 8 else 16)
    requires HoldsTaps(spatial, b1, kb + At(u) - u.lane)
    ensures Loaded(temporal, u.x)
    ensures var v := Advance(u, LMac8(u.acc, temporal, u.x, spatial, u.lane), temporal, spatial);
      UnitOk(v, b0, b1, base, kb) && At(v) == At(u) + 1
  {
    assert spatial[u.lane] == b1(kb + At(u) - u.lane + u.lane);
    MacStep(b0, b1, base, kb, u.g, u.x, u.acc, temporal, spatial, u.lane);
    AdvanceOk(u, LMac8(u.acc, temporal, u.x, spatial, u.lane), temporal, spatial, b0, b1, base, kb);
  }

  /** The unrolled kernel as a loop over its taps: eight neighbouring outputs at once. */
  method Accumulate(b0: Memory, b1: Memory, base: int, kb: int, taps: nat) returns (acc: seq<int>, ghost reach: Reach)
    requires base >= 0 && kb >= 0
    ensures Partial(acc, b0, b1, base, kb, taps) && reach == BlockReach(base, kb, taps)
  {
    var u := Unit(seq(8, l => 0), Undefined(), seq(8, i => 0), 0, 0, 0);
    var t := 0;
    reach := NOTHING;
    while t < taps
      invariant t <= taps && UnitOk(u, b0, b1, base, kb) && At(u) == t && reach == BlockReach(base, kb, t)
    {
      ReachStep(base, kb, u);
      ghost var more;
      u, more := Tap(b0, b1, base, kb, u);
      reach := Farther(reach, more);
      t := t + 1;
    }
    acc := u.acc;
  }

  // ---- the naive sum ----

  /** The extents of the kernel in x, y and z. */
  datatype Kernel = Kernel(x: nat, y: nat, z: nat)

  function NaiveX(b0: Memory, b1: Memory, p: int, kb: int, z: nat, y: nat, m: nat): int {
    if m == 0 then 0
    else NaiveX(b0, b1, p, kb, z, y, m - 1) + b0(p + (m - 1) + y * 16 + z * 48) * b1(kb + (m - 1) + y * 3 + z * 9)
  }

  function NaiveY(b0: Memory, b1: Memory, p: int, kb: int, k: Kernel, z: nat, m: nat): int {
    if m == 0 then 0 else NaiveY(b0, b1, p, kb, k, z, m - 1) + NaiveX(b0, b1, p, kb, z, m - 1, k.x)
  }

  function NaiveZ(b0: Memory, b1: Memory, p: int, kb: int, k: Kernel, m: nat): int {
    if m == 0 then 0 else NaiveZ(b0, b1, p, kb, k, m - 1) + NaiveY(b0, b1, p, kb, k, m - 1, k.y)
  }

  /** The taps from `a` up to `a + m`. */
  function Taps(b0: Memory, b1: Memory, p: int, kb: int, a: nat, m: nat): int {
    if m == 0 then 0 else Taps(b0, b1, p, kb, a, m - 1) + Term(b0, b1, p, kb, a + m - 1)
  }

  lemma {:induction false} TapsConcat(b0: Memory, b1: Memory, p: int, kb: int, a: nat, m: nat, n: nat)
    ensures Taps(b0, b1, p, kb, a, m + n) == Taps(b0, b1, p, kb, a, m) + Taps(b0, b1, p, kb, a + m, n)
  {
    if n > 0 { TapsConcat(b0, b1, p, kb, a, m, n - 1); }
  }

  lemma {:induction false} TapsMore(b0: Memory, b1: Memory, p: int, kb: int, a: nat, m: nat, n: nat, all: nat)
    requires all == m + n
    ensures Taps(b0, b1, p, kb, a, all) == Taps(b0, b1, p, kb, a, m) + Taps(b0, b1, p, kb, a + m, n)
  {
    TapsConcat(b0, b1, p, kb, a, m, n);
  }

  lemma {:induction false} TapsAll(b0: Memory, b1: Memory, p: int, kb: int, m: nat)
    ensures Taps(b0, b1, p, kb, 0, m) == Dot(b0, b1, p, kb, m)
  {
    if m > 0 { TapsAll(b0, b1, p, kb, m - 1); }
  }

  lemma NaiveTerm(b0: Memory, b1: Memory, p: int, kb: int, z: nat, y: nat, x: nat, t: nat)
    requires x < 3 && t == 9 * z + 3 * y + x
    ensures Term(b0, b1, p, kb, t) == b0(p + x + y * 16 + z * 48) * b1(kb + x + y * 3 + z * 9)
  {
    var g := 3 * z + y;
    assert t == 3 * g + x;
    TermIs(b0, b1, p, kb, g, x);
    assert p + 16 * g + x == p + x + y * 16 + z * 48 && kb + t == kb + x + y * 3 + z * 9;
  }

  lemma {:induction false} NaiveXIs(b0: Memory, b1: Memory, p: int, kb: int, z: nat, y: nat, m: nat, a: nat)
    requires m <= 3 && a == 9 * z + 3 * y
    ensures NaiveX(b0, b1, p, kb, z, y, m) == Taps(b0, b1, p, kb, a, m)
  {
    if m > 0 {
      NaiveXIs(b0, b1, p, kb, z, y, m - 1, a);
      NaiveTerm(b0, b1, p, kb, z, y, m - 1, a + m - 1);
    }
  }

  lemma {:induction false} NaiveYStep(b0: Memory, b1: Memory, p: int, kb: int, k: Kernel, z: nat, m: nat, a: nat)
    requires k.x == 3 && 0 < m <= 3 && a == 9 * z
    requires NaiveY(b0, b1, p, kb, k, z, m - 1) == Taps(b0, b1, p, kb, a, 3 * (m - 1))
    ensures NaiveY(b0, b1, p, kb, k, z, m) == Taps(b0, b1, p, kb, a, 3 * m)
  {
    var done, all := 3 * (m - 1), 3 * m;
    NaiveXIs(b0, b1, p, kb, z, m - 1, k.x, a + done);
    TapsMore(b0, b1, p, kb, a, done, k.x, all);
  }

  lemma {:induction false} NaiveYIs(b0: Memory, b1: Memory, p: int, kb: int, k: Kernel, z: nat, m: nat, a: nat)
    requires k.x == 3 && m <= 3 && a == 9 * z
    ensures NaiveY(b0, b1, p, kb, k, z, m) == Taps(b0, b1, p, kb, a, 3 * m)
  {
    if m > 0 {
      NaiveYIs(b0, b1, p, kb, k, z, m - 1, a);
      NaiveYStep(b0, b1, p, kb, k, z, m, a);
    }
  }

  lemma {:induction false} NaiveZStep(b0: Memory, b1: Memory, p: int, kb: int, k: Kernel, m: nat)
    requires k.x == 3 && k.y == 3 && m > 0
    requires NaiveZ(b0, b1, p, kb, k, m - 1) == Taps(b0, b1, p, kb, 0, 9 * (m - 1))
    ensures NaiveZ(b0, b1, p, kb, k, m) == Taps(b0, b1, p, kb, 0, 9 * m)
  {
    var done, all := 9 * (m - 1), 9 * m;
    NaiveYIs(b0, b1, p, kb, k, m - 1, k.y, done);
    TapsMore(b0, b1, p, kb, 0, done, 3 * k.y, all);
  }

  /** The three naive loops visit the taps in the kernel's order. */
  lemma {:induction false} NaiveZIs(b0: Memory, b1: Memory, p: int, kb: int, k: Kernel, m: nat)
    requires k.x == 3 && k.y == 3
    ensures NaiveZ(b0, b1, p, kb, k, m) == Taps(b0, b1, p, kb, 0, 9 * m)
  {
    if m > 0 {
      NaiveZIs(b0, b1, p, kb, k, m - 1);
      NaiveZStep(b0, b1, p, kb, k, m);
    }
  }

  /** The naive sum is the sum over the 108 taps. */
  lemma {:induction false} NaiveIsDot(b0: Memory, b1: Memory, p: int, kb: int, k: Kernel)
    requires k == Kernel(3, 3, 12)
    ensures NaiveZ(b0, b1, p, kb, k, k.z) == Dot(b0, b1, p, kb, TAPS)
  {
    NaiveZIs(b0, b1, p, kb, k, k.z);
    TapsAll(b0, b1, p, kb, 9 * k.z);
  }

  // ---- output positions ----

  datatype Coord = Coord(i: int, j: int, c: int, n: int)

  predicate Within(s: Shape, q: Coord) { 0 <= q.i < s.w && 0 <= q.j < s.h && 0 <= q.c < s.c && 0 <= q.n < s.n }

  /** Dense output: strides 1, w, w*h, w*h*c. */
  function Index(s: Shape, q: Coord): int { q.i + s.w * (q.j + s.h * (q.c + s.c * q.n)) }

  function InputAt(q: Coord): int { q.i + 16 * q.j + 576 * q.n }

  function KernelAt(q: Coord): int { 108 * q.c }

  /** The full sum at an output coordinate. */
  function SumAt(b0: Memory, b1: Memory, q: Coord): int { Dot(b0, b1, InputAt(q), KernelAt(q), TAPS) }

  /** A digit and what is above it determine each other. */
  lemma DigitUnique(a: int, x: int, b: int, y: int, base: int)
    requires 0 <= a < base && 0 <= b < base && a + base * x == b + base * y
    ensures a == b && x == y
  {
    assert base * (x - y) == b - a;
    SmallMultiple(x - y, base, b - a);
  }

  lemma DigitBound(a: int, x: int, base: int, top: int)
    requires 0 <= a < base && 0 <= x < top
    ensures 0 <= a + base * x < base * top
  {
    ScaleLe(x + 1, top, base);
    ScaleLe(0, x, base);
    assert base * (x + 1) == base * x + base;
  }

  /** Different coordinates have different positions. */
  lemma {:induction false} IndexInjective(s: Shape, q: Coord, r: Coord)
    requires Within(s, q) && Within(s, r) && Index(s, q) == Index(s, r)
    ensures q == r
  {
    DigitUnique(q.i, q.j + s.h * (q.c + s.c * q.n), r.i, r.j + s.h * (r.c + s.c * r.n), s.w);
    DigitUnique(q.j, q.c + s.c * q.n, r.j, r.c + s.c * r.n, s.h);
    DigitUnique(q.c, q.n, r.c, r.n, s.c);
  }

  lemma {:induction false} IndexInRange(s: Shape, q: Coord)
    requires Within(s, q)
    ensures 0 <= Index(s, q) < s.w * (s.h * (s.c * s.n))
  {
    DigitBound(q.c, q.n, s.c, s.n);
    DigitBound(q.j, q.c + s.c * q.n, s.h, s.c * s.n);
    DigitBound(q.i, q.j + s.h * (q.c + s.c * q.n), s.w, s.h * (s.c * s.n));
  }

  /** The length of the output. */
  function Length(s: Shape): int { s.w * (s.h * (s.c * s.n)) }
}
