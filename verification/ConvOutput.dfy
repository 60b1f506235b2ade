/**
 * The output loops of the vector kernel and of the naive convolution.
 */
module ConvOutput {
  import opened Euclid
  import opened Conv

  // ---- the order in which the vector kernel stores ----

  /** The number of stores before the one for row `j` of block `x`, batch `n`, channel `c`. */
  function Step(s: Shape, c: int, n: int, x: int, j: int): int {
    j + s.h * (x + (s.w / 8) * (n + s.n * c))
  }

  function Order(s: Shape, q: Coord): int { Step(s, q.c, q.n, q.i / 8, q.j) }

  lemma {:induction false} StepUnique(s: Shape, q: Coord, r: Coord)
    requires Within(s, q) && Within(s, r) && s.w % 8 == 0 && Order(s, q) == Order(s, r)
    ensures q.i / 8 == r.i / 8 && q.j == r.j && q.c == r.c && q.n == r.n
  {
    BlockInRange(s.w, q.i);
    BlockInRange(s.w, r.i);
    DigitUnique(q.j, q.i / 8 + (s.w / 8) * (q.n + s.n * q.c), r.j, r.i / 8 + (s.w / 8) * (r.n + s.n * r.c), s.h);
    DigitUnique(q.i / 8, q.n + s.n * q.c, r.i / 8, r.n + s.n * r.c, s.w / 8);
    DigitUnique(q.n, q.c, r.n, r.c, s.n);
  }

  lemma BlockInRange(w: nat, i: int)
    requires w % 8 == 0 && 0 <= i < w
    ensures 0 <= i / 8 < w / 8
  {
  }

  /** After the last store of one loop comes the first of the next. */
  lemma Carry(s: Shape, c: int, n: int, x: int)
    ensures Step(s, c, n, x, s.h) == Step(s, c, n, x + 1, 0)
    ensures Step(s, c, n, s.w / 8, 0) == Step(s, c, n + 1, 0, 0)
    ensures Step(s, c, s.n, 0, 0) == Step(s, c + 1, 0, 0, 0)
  {
    var b := s.w / 8;
    var y := n + s.n * c;
    CarryOne(s.h, x + b * y);
    assert x + b * y + 1 == (x + 1) + b * y;
    CarryOne(b, y);
    assert b + b * y == 0 + b * ((n + 1) + s.n * c);
    CarryOne(s.n, c);
  }

  lemma CarryOne(base: int, y: int)
    ensures base + base * y == 0 + base * (y + 1)
  {
  }

  lemma {:induction false} OrderBelowEnd(s: Shape, q: Coord)
    requires Within(s, q) && s.w % 8 == 0
    ensures 0 <= Order(s, q) < Step(s, s.c, 0, 0, 0)
  {
    BlockInRange(s.w, q.i);
    var b := s.w / 8;
    DigitBound(q.n, q.c, s.n, s.c);
    DigitBound(q.i / 8, q.n + s.n * q.c, b, s.n * s.c);
    DigitBound(q.j, q.i / 8 + b * (q.n + s.n * q.c), s.h, b * (s.n * s.c));
  }

  // ---- stores ----

  /** What the vector kernel leaves at a coordinate. */
  function VectorAt(b0: Memory, b1: Memory, srs: int -> int, q: Coord): int { srs(SumAt(b0, b1, q)) }

  ghost predicate StoredAt(out: seq<int>, b0: Memory, b1: Memory, srs: int -> int, s: Shape, t: int,
                           written: set<int>, q: Coord) {
    Within(s, q) ==>
      && 0 <= Index(s, q) < |out| && (Index(s, q) in written <==> Order(s, q) < t)
      && (Order(s, q) < t ==> out[Index(s, q)] == VectorAt(b0, b1, srs, q))
  }

  /** Exactly the first `t` stores have been made. */
  ghost predicate Stored(out: seq<int>, b0: Memory, b1: Memory, srs: int -> int, s: Shape, t: int, written: set<int>) {
    forall q {:trigger StoredAt(out, b0, b1, srs, s, t, written, q)} :: StoredAt(out, b0, b1, srs, s, t, written, q)
  }

  function Lane(x: int, l: int, j: int, c: int, n: int): Coord { Coord(8 * x + l, j, c, n) }

  predicate InBlock(s: Shape, x: int, j: int, c: int, n: int) {
    s.w % 8 == 0 && 0 <= x < s.w / 8 && 0 <= j < s.h && 0 <= c < s.c && 0 <= n < s.n
  }

  lemma {:induction false} LaneOk(s: Shape, x: int, l: int, j: int, c: int, n: int)
    requires InBlock(s, x, j, c, n) && 0 <= l < 8
    ensures Within(s, Lane(x, l, j, c, n)) && Order(s, Lane(x, l, j, c, n)) == Step(s, c, n, x, j)
    ensures Index(s, Lane(x, l, j, c, n)) == Index(s, Lane(x, 0, j, c, n)) + l
    ensures InputAt(Lane(x, l, j, c, n)) == InputAt(Lane(x, 0, j, c, n)) + l
  {
    assert (8 * x + l) / 8 == x;
  }

  /** The coordinates of a store are the eight lanes of its block. */
  lemma {:induction false} InThisStore(s: Shape, x: int, j: int, c: int, n: int, q: Coord)
    requires InBlock(s, x, j, c, n) && Within(s, q) && Order(s, q) == Step(s, c, n, x, j)
    ensures q == Lane(x, q.i - 8 * x, j, c, n) && 0 <= q.i - 8 * x < 8
  {
    LaneOk(s, x, 0, j, c, n);
    StepUnique(s, q, Lane(x, 0, j, c, n));
  }

  function AfterStore(out: seq<int>, at: int, v: seq<int>): seq<int>
    requires |v| == 8
  {
    seq(|out|, k requires 0 <= k < |out| => if at <= k < at + 8 then v[k - at] else out[k])
  }

  function Eight(at: int): set<int> { {at, at + 1, at + 2, at + 3, at + 4, at + 5, at + 6, at + 7} }

  /** A store makes the next block right, touches nothing written before, and is the block's first. */
  lemma {:induction false} StoreStep(out: seq<int>, b0: Memory, b1: Memory, srs: int -> int, s: Shape, x: int, j: int,
                                     c: int, n: int,
                                     written: set<int>, v: seq<int>, q: Coord)
    requires InBlock(s, x, j, c, n) && Stored(out, b0, b1, srs, s, Step(s, c, n, x, j), written)
    requires |v| == 8 && forall l :: 0 <= l < 8 ==> v[l] == VectorAt(b0, b1, srs, Lane(x, l, j, c, n))
    ensures var at := Index(s, Lane(x, 0, j, c, n));
      StoredAt(AfterStore(out, at, v), b0, b1, srs, s, Step(s, c, n, x, j) + 1, written + Eight(at), q)
  {
    var t, at := Step(s, c, n, x, j), Index(s, Lane(x, 0, j, c, n));
    assert StoredAt(out, b0, b1, srs, s, t, written, q);
    if Within(s, q) {
      if Order(s, q) == t {
        InThisStore(s, x, j, c, n, q);
        LaneOk(s, x, q.i - 8 * x, j, c, n);
      } else if Index(s, q) in Eight(at) {
        var l := Index(s, q) - at;
        LaneOk(s, x, l, j, c, n);
        IndexInjective(s, q, Lane(x, l, j, c, n));
      }
    }
  }

  lemma {:induction false} StoreIsFirst(out: seq<int>, b0: Memory, b1: Memory, srs: int -> int, s: Shape, x: int,
                                        j: int, c: int, n: int,
                                        written: set<int>, l: int)
    requires InBlock(s, x, j, c, n) && Stored(out, b0, b1, srs, s, Step(s, c, n, x, j), written) && 0 <= l < 8
    ensures var at := Index(s, Lane(x, 0, j, c, n)); 0 <= at + l < |out| && at + l !in written
  {
    LaneOk(s, x, l, j, c, n);
    assert StoredAt(out, b0, b1, srs, s, Step(s, c, n, x, j), written, Lane(x, l, j, c, n));
  }

  function Rounded(acc: seq<int>, srs: int -> int): seq<int>
    requires |acc| == 8
  {
    seq(8, l requires 0 <= l < 8 => srs(acc[l]))
  }

  lemma {:induction false} RoundedLanes(b0: Memory, b1: Memory, srs: int -> int, s: Shape, x: int, j: int, c: int,
                                        n: int, acc: seq<int>)
    requires InBlock(s, x, j, c, n)
    requires var q := Lane(x, 0, j, c, n); Partial(acc, b0, b1, InputAt(q), KernelAt(q), TAPS)
    ensures forall l :: 0 <= l < 8 ==> Rounded(acc, srs)[l] == VectorAt(b0, b1, srs, Lane(x, l, j, c, n))
  {
    forall l | 0 <= l < 8 ensures Rounded(acc, srs)[l] == VectorAt(b0, b1, srs, Lane(x, l, j, c, n)) {
      LaneOk(s, x, l, j, c, n);
    }
  }

  lemma {:induction false} StoreFits(out: seq<int>, b0: Memory, b1: Memory, srs: int -> int, s: Shape, x: int, j: int,
                                     c: int, n: int, written: set<int>)
    requires InBlock(s, x, j, c, n) && Stored(out, b0, b1, srs, s, Step(s, c, n, x, j), written)
    ensures var at := Index(s, Lane(x, 0, j, c, n)); 0 <= at && at + 8 <= |out| && forall k :: at <= k < at + 8 ==>
      k !in written
  {
    var at := Index(s, Lane(x, 0, j, c, n));
    StoreIsFirst(out, b0, b1, srs, s, x, j, c, n, written, 0);
    StoreIsFirst(out, b0, b1, srs, s, x, j, c, n, written, 7);
    forall k | at <= k < at + 8 ensures k !in written {
      StoreIsFirst(out, b0, b1, srs, s, x, j, c, n, written, k - at);
    }
  }

  lemma {:induction false} StoreDone(out: seq<int>, b0: Memory, b1: Memory, srs: int -> int, s: Shape, x: int, j: int,
                                     c: int, n: int,
                                     written: set<int>, v: seq<int>)
    requires InBlock(s, x, j, c, n) && Stored(out, b0, b1, srs, s, Step(s, c, n, x, j), written)
    requires |v| == 8 && forall l :: 0 <= l < 8 ==> v[l] == VectorAt(b0, b1, srs, Lane(x, l, j, c, n))
    ensures var at := Index(s, Lane(x, 0, j, c, n));
      Stored(AfterStore(out, at, v), b0, b1, srs, s, Step(s, c, n, x, j) + 1, written + Eight(at))
  {
    var at, t := Index(s, Lane(x, 0, j, c, n)), Step(s, c, n, x, j) + 1;
    var out', written' := AfterStore(out, at, v), written + Eight(at);
    forall q ensures StoredAt(out', b0, b1, srs, s, t, written', q) {
      StoreStep(out, b0, b1, srs, s, x, j, c, n, written, v, q);
    }
  }

  // ---- how far the loads reach ----

  /** How far the loads for the block of an output reach. */
  function EndOf(q: Coord): Reach { Reach(8 * (q.i / 8) + 16 * q.j + 576 * q.n + 576, 108 * q.c + 112) }

  predicate IsEmpty(s: Shape) { s.w == 0 || s.h == 0 || s.c == 0 || s.n == 0 }

  /** How far all loads together reach. */
  function Farthest(s: Shape): Reach {
    if IsEmpty(s) then NOTHING else Reach(s.w - 8 + 16 * (s.h - 1) + 576 * s.n, 108 * s.c + 4)
  }

  predicate AtMost(a: Reach, b: Reach) { a.input <= b.input && a.taps <= b.taps }

  ghost predicate ReachedAt(s: Shape, t: int, reach: Reach, q: Coord) {
    Within(s, q) && Order(s, q) < t ==> AtMost(EndOf(q), reach)
  }

  /** The first `t` stores have reached this far, and no farther than all will. */
  ghost predicate Reached(s: Shape, t: int, reach: Reach) {
    AtMost(reach, Farthest(s)) && forall q {:trigger ReachedAt(s, t, reach, q)} :: ReachedAt(s, t, reach, q)
  }

  lemma {:induction false} BlockReaches(x: int, j: int, c: int, n: int)
    requires x >= 0
    ensures var q := Lane(x, 0, j, c, n); BlockReach(InputAt(q), KernelAt(q), TAPS) == EndOf(q)
  {
    assert (8 * x + 0) / 8 == x;
  }

  lemma {:induction false} ReachedStep(s: Shape, x: int, j: int, c: int, n: int, reach: Reach)
    requires InBlock(s, x, j, c, n) && Reached(s, Step(s, c, n, x, j), reach)
    ensures Reached(s, Step(s, c, n, x, j) + 1, Farther(reach, EndOf(Lane(x, 0, j, c, n))))
  {
    var next, more := Step(s, c, n, x, j) + 1, Farther(reach, EndOf(Lane(x, 0, j, c, n)));
    LaneOk(s, x, 0, j, c, n);
    EndInside(s, Lane(x, 0, j, c, n));
    forall q ensures ReachedAt(s, next, more, q) {
      assert ReachedAt(s, next - 1, reach, q);
      if Within(s, q) && Order(s, q) == next - 1 { SameEnd(s, x, j, c, n, q); }
    }
  }

  lemma {:induction false} SameEnd(s: Shape, x: int, j: int, c: int, n: int, q: Coord)
    requires InBlock(s, x, j, c, n) && Within(s, q) && Order(s, q) == Step(s, c, n, x, j)
    ensures EndOf(q) == EndOf(Lane(x, 0, j, c, n))
  {
    LaneOk(s, x, 0, j, c, n);
    StepUnique(s, q, Lane(x, 0, j, c, n));
  }

  lemma {:induction false} EndInside(s: Shape, q: Coord)
    requires Within(s, q) && s.w % 8 == 0
    ensures AtMost(EndOf(q), Farthest(s))
  {
    BlockInRange(s.w, q.i);
    assert 8 * (s.w / 8) == s.w;
  }

  /** After the last store the reach is exact. */
  lemma {:induction false} ReachedAll(s: Shape, reach: Reach)
    requires s.w % 8 == 0 && Reached(s, Step(s, s.c, 0, 0, 0), reach) && AtMost(NOTHING, reach)
    ensures reach == Farthest(s)
  {
    if !IsEmpty(s) {
      var q := Coord(s.w - 8, s.h - 1, s.c - 1, s.n - 1);
      OrderBelowEnd(s, q);
      assert ReachedAt(s, Step(s, s.c, 0, 0, 0), reach, q);
      assert 8 * ((s.w - 8) / 8) == s.w - 8;
    }
  }

  /** The sums use the input words below `input` and the filter words below `taps`. */
  function Used(s: Shape): Reach {
    if IsEmpty(s) then NOTHING else Reach(s.w + 16 * (s.h - 1) + 576 * s.n - 14, 108 * s.c)
  }

  /** Buffers of these sizes hold every word that enters a sum. */
  ghost predicate HoldUsed(s: Shape, sizes: Reach) {
    forall q, t: nat {:trigger UsesWords(q, t)} :: Within(s, q) && t < TAPS ==> AtMost(UsesWords(q, t), sizes)
  }

  /** One past the words that tap `t` of an output multiplies. */
  function UsesWords(q: Coord, t: nat): Reach { Reach(InputAt(q) + 16 * (t / 3) + t % 3 + 1, KernelAt(q) + t + 1) }

  /** Buffers hold what the sums use if and only if they are this large; the loads reach six and four words farther. */
  lemma {:induction false} LoadsOverreach(s: Shape, sizes: Reach)
    requires s.w % 8 == 0 && !IsEmpty(s)
    ensures HoldUsed(s, sizes) <==> AtMost(Used(s), sizes)
    ensures Farthest(s) == Reach(Used(s).input + 6, Used(s).taps + 4)
  {
    var last := Coord(s.w - 1, s.h - 1, s.c - 1, s.n - 1);
    assert UsesWords(last, 107) == Used(s);
    forall q, t: nat | Within(s, q) && t < TAPS ensures AtMost(UsesWords(q, t), Used(s)) { TapWithin(t); }
  }

  lemma {:induction false} TapWithin(t: nat)
    requires t < TAPS
    ensures 16 * (t / 3) + t % 3 <= 16 * 35 + 2
  {
  }

  class Output {
    const words: array<int>
    ghost var written: set<int>
    ghost var reach: Reach   // of the loads from the input and the filters

    constructor (words: array<int>)
      ensures this.words == words && written == {} && reach == NOTHING
    {
      this.words := words;
      written, reach := {}, NOTHING;
    }

    /** A vector store: eight words, none of which may have been written before. */
    method Store8(at: int, v: seq<int>)
      requires |v| == 8 && 0 <= at && at + 8 <= words.Length && forall k :: at <= k < at + 8 ==> k !in written
      modifies words, this`written
      ensures words[..] == AfterStore(old(words[..]), at, v) && written == old(written) + Eight(at)
    {
      var l := 0;
      while l < 8
        invariant 0 <= l <= 8
        invariant forall k :: 0 <= k < words.Length ==>
          words[k] == if at <= k < at + l then v[k - at] else old(words[k])
        invariant written == old(written)
      {
        words[at + l] := v[l];
        l := l + 1;
      }
      written := written + Eight(at);
    }

    /** The first `t` stores have been made. */
    ghost predicate Progress(b0: Memory, b1: Memory, srs: int -> int, s: Shape, t: int) reads this, words {
      && Stored(words[..], b0, b1, srs, s, t, written)
      && Reached(s, t, reach) && AtMost(NOTHING, reach)
    }

    /** One store of the kernel. */
    method Block(b0: Memory, b1: Memory, srs: int -> int, s: Shape, x: int, j: int, c: int, n: int)
      requires InBlock(s, x, j, c, n) && Stored(words[..], b0, b1, srs, s, Step(s, c, n, x, j), written)
      modifies words, this
      ensures Stored(words[..], b0, b1, srs, s, Step(s, c, n, x, j) + 1, written)
      ensures reach == Farther(old(reach), EndOf(Lane(x, 0, j, c, n)))
    {
      var q := Lane(x, 0, j, c, n);
      var acc;
      ghost var more;
      acc, more := Accumulate(b0, b1, InputAt(q), KernelAt(q), TAPS);
      BlockReaches(x, j, c, n);
      reach := Farther(reach, more);
      var v := Rounded(acc, srs);
      RoundedLanes(b0, b1, srs, s, x, j, c, n, acc);
      StoreFits(words[..], b0, b1, srs, s, x, j, c, n, written);
      ghost var out, w := words[..], written;
      Store8(Index(s, q), v);
      StoreDone(out, b0, b1, srs, s, x, j, c, n, w, v);
    }

    /**
     * The vector convolution: every output is stored once, with the rounded sum, and the loads stay
     * inside buffers exactly when these reach as far as `Farthest`.
     */
    method Convolve(b0: Memory, b1: Memory, srs: int -> int, s: Shape)
      requires s.w % 8 == 0 && words.Length == Length(s) && written == {} && reach == NOTHING
      modifies words, this
      ensures reach == Farthest(s)
      ensures forall q {:trigger Index(s, q)} :: Within(s, q) ==>
        0 <= Index(s, q) < words.Length && words[Index(s, q)] == VectorAt(b0, b1, srs, q) && Index(s, q) in written
    {
      StartStored(words[..], b0, b1, srs, s);
      StartReached(s);
      var c := 0;
      while c < s.c
        invariant 0 <= c <= s.c && Progress(b0, b1, srs, s, Step(s, c, 0, 0, 0))
      {
        var n := 0;
        while n < s.n
          invariant 0 <= n <= s.n && 0 <= c < s.c && Progress(b0, b1, srs, s, Step(s, c, n, 0, 0))
        {
          Rows(b0, b1, srs, s, c, n);
          n := n + 1;
        }
        Carry(s, c, n, 0);
        c := c + 1;
      }
      ReachedAll(s, reach);
      forall q | Within(s, q)
        ensures 0 <= Index(s, q) < words.Length && words[Index(s, q)] == VectorAt(b0, b1, srs, q)
          && Index(s, q) in written
      {
        OrderBelowEnd(s, q);
        assert StoredAt(words[..], b0, b1, srs, s, Step(s, c, 0, 0, 0), written, q);
      }
    }

    /** The two inner loops: blocks of eight columns, and their rows. */
    method Rows(b0: Memory, b1: Memory, srs: int -> int, s: Shape, c: int, n: int)
      requires s.w % 8 == 0 && 0 <= c < s.c && 0 <= n < s.n && Progress(b0, b1, srs, s, Step(s, c, n, 0, 0))
      modifies words, this
      ensures Progress(b0, b1, srs, s, Step(s, c, n + 1, 0, 0))
    {
      var x := 0;
      while x < s.w / 8
        invariant 0 <= x <= s.w / 8 && Progress(b0, b1, srs, s, Step(s, c, n, x, 0))
      {
        Column(b0, b1, srs, s, c, n, x);
        Carry(s, c, n, x);
        x := x + 1;
      }
      Carry(s, c, n, x);
    }

    /** The rows of one block of columns. */
    method Column(b0: Memory, b1: Memory, srs: int -> int, s: Shape, c: int, n: int, x: int)
      requires s.w % 8 == 0 && 0 <= x < s.w / 8 && 0 <= c < s.c && 0 <= n < s.n
      requires Progress(b0, b1, srs, s, Step(s, c, n, x, 0))
      modifies words, this
      ensures Progress(b0, b1, srs, s, Step(s, c, n, x, s.h))
    {
      var j := 0;
      while j < s.h
        invariant 0 <= j <= s.h && Progress(b0, b1, srs, s, Step(s, c, n, x, j))
      {
        ReachedStep(s, x, j, c, n, reach);
        Block(b0, b1, srs, s, x, j, c, n);
        j := j + 1;
      }
    }
  }

  lemma {:induction false} StartReached(s: Shape)
    requires s.w % 8 == 0
    ensures Reached(s, Step(s, 0, 0, 0, 0), NOTHING)
  {
    var t := Step(s, 0, 0, 0, 0);
    forall q ensures ReachedAt(s, t, NOTHING, q) { if Within(s, q) { OrderBelowEnd(s, q); } }
  }

  lemma {:induction false} StartStored(out: seq<int>, b0: Memory, b1: Memory, srs: int -> int, s: Shape)
    requires s.w % 8 == 0 && |out| == Length(s)
    ensures Stored(out, b0, b1, srs, s, Step(s, 0, 0, 0, 0), {})
  {
    forall q ensures StoredAt(out, b0, b1, srs, s, Step(s, 0, 0, 0, 0), {}, q) {
      if Within(s, q) {
        IndexInRange(s, q);
        OrderBelowEnd(s, q);
      }
    }
  }

  // ---- the naive convolution ----

  const SHIFT := 1024

  function NaiveAt(b0: Memory, b1: Memory, q: Coord): int { SumAt(b0, b1, q) / SHIFT }

  ghost predicate FilledAt(out: seq<int>, b0: Memory, b1: Memory, s: Shape, t: int, q: Coord) {
    Within(s, q) ==> 0 <= Index(s, q) < |out| && (Index(s, q) < t ==> out[Index(s, q)] == NaiveAt(b0, b1, q))
  }

  /** The naive loops fill the output from its start. */
  ghost predicate Filled(out: seq<int>, b0: Memory, b1: Memory, s: Shape, t: int) {
    forall q {:trigger FilledAt(out, b0, b1, s, t, q)} :: FilledAt(out, b0, b1, s, t, q)
  }

  lemma {:induction false} FillStep(out: seq<int>, b0: Memory, b1: Memory, s: Shape, q: Coord, r: Coord)
    requires Within(s, q) && Filled(out, b0, b1, s, Index(s, q)) && 0 <= Index(s, q) < |out|
    ensures FilledAt(out[Index(s, q) := NaiveAt(b0, b1, q)], b0, b1, s, Index(s, q) + 1, r)
  {
    assert FilledAt(out, b0, b1, s, Index(s, q), r);
    if Within(s, r) && Index(s, r) == Index(s, q) { IndexInjective(s, q, r); }
  }

  lemma {:induction false} NaiveCarry(s: Shape, j: int, c: int, n: int)
    ensures Index(s, Coord(s.w, j, c, n)) == Index(s, Coord(0, j + 1, c, n))
    ensures Index(s, Coord(0, s.h, c, n)) == Index(s, Coord(0, 0, c + 1, n))
    ensures Index(s, Coord(0, 0, s.c, n)) == Index(s, Coord(0, 0, 0, n + 1))
  {
    var y := c + s.c * n;
    CarryOne(s.w, j + s.h * y);
    assert j + s.h * y + 1 == (j + 1) + s.h * y;
    CarryOne(s.h, y);
    assert s.h + s.h * y == 0 + s.h * ((c + 1) + s.c * n);
    CarryOne(s.c, n);
  }

  /** The innermost loop. */
  method NaiveRow(b0: Memory, b1: Memory, p: int, kb: int, k: Kernel, z: nat, y: nat) returns (acc: int)
    ensures acc == NaiveX(b0, b1, p, kb, z, y, k.x)
  {
    acc := 0;
    var x := 0;
    while x < k.x
      invariant x <= k.x && acc == NaiveX(b0, b1, p, kb, z, y, x)
    {
      acc := acc + b0(p + x + y * 16 + z * 48) * b1(kb + x + y * 3 + z * 9);
      x := x + 1;
    }
  }

  /** The three inner loops. */
  method NaiveSum(b0: Memory, b1: Memory, p: int, kb: int, k: Kernel) returns (acc: int)
    ensures acc == NaiveZ(b0, b1, p, kb, k, k.z)
  {
    acc := 0;
    var z := 0;
    while z < k.z
      invariant z <= k.z && acc == NaiveZ(b0, b1, p, kb, k, z)
    {
      var y := 0;
      while y < k.y
        invariant y <= k.y && acc == NaiveZ(b0, b1, p, kb, k, z) + NaiveY(b0, b1, p, kb, k, z, y)
      {
        var row := NaiveRow(b0, b1, p, kb, k, z, y);
        acc := acc + row;
        y := y + 1;
      }
      z := z + 1;
    }
  }

  /** The naive convolution. */
  method ConvolveNaive(b0: Memory, b1: Memory, k: Kernel, s: Shape, out: array<int>)
    requires out.Length == Length(s) && k == Kernel(3, 3, 12)
    modifies out
    ensures forall q {:trigger Index(s, q)} :: Within(s, q) ==>
      0 <= Index(s, q) < out.Length && out[Index(s, q)] == NaiveAt(b0, b1, q)
  {
    forall q ensures FilledAt(out[..], b0, b1, s, 0, q) { if Within(s, q) { IndexInRange(s, q); } }
    assert Index(s, Coord(0, 0, 0, 0)) == 0;
    var n := 0;
    while n < s.n
      invariant 0 <= n <= s.n && Filled(out[..], b0, b1, s, Index(s, Coord(0, 0, 0, n)))
    {
      var c := 0;
      while c < s.c
        invariant 0 <= c <= s.c && 0 <= n < s.n && Filled(out[..], b0, b1, s, Index(s, Coord(0, 0, c, n)))
      {
        var j := 0;
        while j < s.h
          invariant 0 <= j <= s.h && Filled(out[..], b0, b1, s, Index(s, Coord(0, j, c, n)))
        {
          var i := 0;
          while i < s.w
            invariant 0 <= i <= s.w && Filled(out[..], b0, b1, s, Index(s, Coord(i, j, c, n)))
          {
            NaivePixel(b0, b1, k, s, out, Coord(i, j, c, n));
            i := i + 1;
          }
          NaiveCarry(s, j, c, n);
          j := j + 1;
        }
        NaiveCarry(s, j, c, n);
        c := c + 1;
      }
      NaiveCarry(s, 0, c, n);
      n := n + 1;
    }
    forall q | Within(s, q) ensures 0 <= Index(s, q) < out.Length && out[Index(s, q)] == NaiveAt(b0, b1, q) {
      IndexInRange(s, q);
      IndexBelowEnd(s, q);
      assert FilledAt(out[..], b0, b1, s, Index(s, Coord(0, 0, 0, n)), q);
    }
  }

  lemma {:induction false} IndexBelowEnd(s: Shape, q: Coord)
    requires Within(s, q)
    ensures Index(s, q) < Index(s, Coord(0, 0, 0, s.n))
  {
    DigitBound(q.c, q.n, s.c, s.n);
    DigitBound(q.j, q.c + s.c * q.n, s.h, s.c * s.n);
    DigitBound(q.i, q.j + s.h * (q.c + s.c * q.n), s.w, s.h * (s.c * s.n));
  }

  method NaivePixel(b0: Memory, b1: Memory, k: Kernel, s: Shape, out: array<int>, q: Coord)
    requires Within(s, q) && k == Kernel(3, 3, 12) && Filled(out[..], b0, b1, s, Index(s, q))
    modifies out
    ensures Filled(out[..], b0, b1, s, Index(s, q.(i := q.i + 1)))
  {
    var acc := NaiveSum(b0, b1, InputAt(q), KernelAt(q), k);
    NaiveIsDot(b0, b1, InputAt(q), KernelAt(q), k);
    assert FilledAt(out[..], b0, b1, s, Index(s, q), q);
    ghost var before := out[..];
    out[Index(s, q)] := acc / SHIFT;
    assert out[..] == before[Index(s, q) := NaiveAt(b0, b1, q)];
    ghost var next := Index(s, q) + 1;
    forall r ensures FilledAt(out[..], b0, b1, s, next, r) { FillStep(before, b0, b1, s, q, r); }
    assert Index(s, q.(i := q.i + 1)) == next;
  }

  // ---- the two agree ----

  /** The final shift rounds to one of the two neighbouring integers, in whatever way. */
  ghost predicate Rounds(srs: int -> int) { forall v :: v / SHIFT <= srs(v) <= v / SHIFT + 1 }

  lemma {:induction false} DigitsOf(k: int, base: nat, top: nat)
    requires 0 <= k < base * top
    ensures base > 0 && 0 <= k % base < base && 0 <= k / base < top && k == k % base + base * (k / base)
  {
    assert base > 0;
    DivSign(k, base);
    DivBelow(k, base, top - 1);
    assert base * (top - 1 + 1) == base * top;
  }

  /** Every word of the output belongs to a coordinate. */
  lemma {:induction false} IndexSurjective(s: Shape, k: int) returns (q: Coord)
    requires 0 <= k < Length(s)
    ensures Within(s, q) && Index(s, q) == k
  {
    DigitsOf(k, s.w, s.h * (s.c * s.n));
    var y := k / s.w;
    DigitsOf(y, s.h, s.c * s.n);
    var z := y / s.h;
    DigitsOf(z, s.c, s.n);
    q := Coord(k % s.w, y % s.h, z % s.c, z / s.c);
  }

  /**
   * The vector convolution and the naive one, run on the same data, leave arrays that differ by at
   * most one at every word, and not at all if the final shift rounds down.
   */
  method ConvolveBoth(b0: Memory, b1: Memory, k: Kernel, srs: int -> int, s: Shape)
    returns (vector: array<int>, naive: array<int>)
    requires s.w % 8 == 0 && k == Kernel(3, 3, 12) && Rounds(srs)
    ensures vector.Length == naive.Length == Length(s)
    ensures forall i :: 0 <= i < Length(s) ==> naive[i] <= vector[i] <= naive[i] + 1
    ensures (forall v :: srs(v) == v / SHIFT) ==> vector[..] == naive[..]
  {
    vector, naive := new int[Length(s)], new int[Length(s)];
    var output := new Output(vector);
    output.Convolve(b0, b1, srs, s);
    ConvolveNaive(b0, b1, k, s, naive);
    forall i | 0 <= i < Length(s)
      ensures naive[i] <= vector[i] <= naive[i] + 1 && ((forall v :: srs(v) == v / SHIFT) ==> vector[i] == naive[i])
    {
      WordsAgree(b0, b1, srs, s, vector[..], naive[..], i);
    }
  }

  lemma {:induction false} WordsAgree(b0: Memory, b1: Memory, srs: int -> int, s: Shape, vector: seq<int>,
                                      naive: seq<int>, i: int)
    requires Rounds(srs) && |vector| == |naive| == Length(s) && 0 <= i < Length(s)
    requires forall q {:trigger Index(s, q)} :: Within(s, q) ==>
      && 0 <= Index(s, q) < Length(s) && vector[Index(s, q)] == VectorAt(b0, b1, srs, q)
      && naive[Index(s, q)] == NaiveAt(b0, b1, q)
    ensures naive[i] <= vector[i] <= naive[i] + 1 && ((forall v :: srs(v) == v / SHIFT) ==> vector[i] == naive[i])
  {
    var q := IndexSurjective(s, i);
  }
}
