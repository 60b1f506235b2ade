/**
 * Rewriting strided and unaligned vector loads into aligned loads of native width followed
 * by shuffles.
 */
module AlignLoads {
  import opened Wrappers
  import opened Euclid

  /** All integers `modulus * y + remainder`; a constant has modulus zero. */
  datatype ModRem = ModRem(modulus: nat, remainder: int)

  /** `trusted` says that the buffer itself is sufficiently aligned. */
  datatype Load = Load(base: int, stride: int, lanes: nat, al: ModRem, trusted: bool)

  datatype Vec =
    | Leaf(load: Load)
    | Slice(v: Vec, begin: int, step: int, size: nat)
    | Concat(vs: seq<Vec>)

  type Memory = int -> int

  // ---- meaning ----

  /** The lanes a load reads. */
  function Read(l: Load, mem: Memory): seq<int> {
    seq(l.lanes, k requires 0 <= k < l.lanes => mem(l.base + k * l.stride))
  }

  predicate SliceFits(begin: int, step: int, size: nat, n: nat) {
    forall k :: 0 <= k < size ==> 0 <= begin + k * step < n
  }

  function Pick(xs: seq<int>, begin: int, step: int, size: nat): seq<int>
    requires SliceFits(begin, step, size, |xs|)
  {
    seq(size, k requires 0 <= k < size => xs[begin + k * step])
  }

  /** A shuffle that picks a lane that does not exist means nothing. */
  function Eval(v: Vec, mem: Memory): Option<seq<int>>
    decreases v, 1
  {
    match v
    case Leaf(l) => Some(Read(l, mem))
    case Slice(w, begin, step, size) =>
      var r := Eval(w, mem);
      if r.Some? && SliceFits(begin, step, size, |r.value|) then
        Some(Pick(r.value, begin, step, size))
      else None
    case Concat(vs) => EvalAll(vs, mem)
  }

  function EvalAll(vs: seq<Vec>, mem: Memory): Option<seq<int>>
    decreases vs, 0
  {
    if vs == [] then Some([])
    else
      var a, b := Eval(vs[0], mem), EvalAll(vs[1..], mem);
      if a.Some? && b.Some? then Some(a.value + b.value) else None
  }

  // ---- alignment ----

  /** The remainder of C++: it has the sign of the dividend. */
  function CRem(a: int, n: int): int
    requires n > 0
  {
    if a >= 0 then a % n else -((-a) % n)
  }

  function Reduce(a: int, m: nat): int { if m == 0 then a else a % m }

  function Shift(al: ModRem, k: int): ModRem { ModRem(al.modulus, Reduce(al.remainder + k, al.modulus)) }

  predicate Known(n: nat, l: Load)
    requires n > 0
  {
    l.trusted && l.al.modulus % n == 0
  }

  /** The analyser's aligned_offset: zero when it knows nothing. */
  function Offset(n: nat, l: Load): int
    requires n > 0
  {
    if Known(n, l) then CRem(l.al.remainder, n) else 0
  }

  /** The base is one of the integers the alignment describes. */
  ghost predicate Describes(al: ModRem, base: int) { exists y: int :: base == al.modulus * y + al.remainder }

  // ---- the rewrite ----

  function MakeSlice(v: Vec, lanes: nat, begin: int, step: int, size: nat): Vec {
    if begin == 0 && size == lanes && step == 1 then v else Slice(v, begin, step, size)
  }

  predicate Handled(l: Load) { l.lanes > 1 && 1 <= l.stride <= 3 }

  function DenseShift(n: nat, l: Load): int
    requires n > 0
  {
    if Known(n, l) && Offset(n, l) < l.stride then Offset(n, l) else 0
  }

  function Dense(n: nat, l: Load): Load
    requires n > 0 && l.stride >= 1
  {
    Load(l.base - DenseShift(n, l), 1, l.lanes * l.stride, Shift(l.al, -DenseShift(n, l)), l.trusted)
  }

  function Native(n: nat, l: Load): Load { Load(l.base, 1, n, l.al, l.trusted) }

  function Piece(n: nat, l: Load, i: nat): Load
    requires i <= l.lanes
  {
    Load(l.base + i, 1, if n <= l.lanes - i then n else l.lanes - i, Shift(l.al, i), l.trusted)
  }

  function Widened(n: nat, l: Load): Load
    requires n > 0
  {
    Load(l.base - Offset(n, l), 1, l.lanes * 2, Shift(l.al, -Offset(n, l)), l.trusted)
  }

  /** Each step goes down, although one of them doubles the lanes. */
  function Rank(n: nat, l: Load): nat
    requires n > 0
  {
    if !Handled(l) then 0
    else if l.stride != 1 then 7
    else if Offset(n, l) == 0 then (if l.lanes < n then 2 else if l.lanes == n then 1 else 3)
    else if l.lanes < n then 5 else if l.lanes == n then 4 else 6
  }

  lemma {:induction false} ShiftKeepsOffset(n: nat, l: Load, l': Load, k: int)
    requires n > 0 && l'.al == Shift(l.al, k * n) && l'.trusted == l.trusted
    ensures Known(n, l') == Known(n, l) && (Offset(n, l') == 0 <==> Offset(n, l) == 0)
  {
    if Known(n, l) {
      CRemZero(l.al.remainder, n);
      CRemZero(l'.al.remainder, n);
      ReduceMod(l.al.remainder + k * n, l.al.modulus, n);
      AddMultiple(l.al.remainder, k, n);
    }
  }

  lemma CRemZero(a: int, n: int)
    requires n > 0
    ensures CRem(a, n) == 0 <==> a % n == 0
  {
    if a < 0 { NegMod(a, n); }
  }

  lemma NegMod(a: int, n: int)
    requires n > 0
    ensures (-a) % n == 0 <==> a % n == 0
  {
    var q, p := a / n, (-a) / n;
    assert a == n * q + a % n && -a == n * p + (-a) % n;
    if a % n == 0 { assert -a == n * (-q); MultipleMod(-q, n); }
    if (-a) % n == 0 { assert a == n * (-p); MultipleMod(-p, n); }
  }

  /** Reducing modulo a multiple of `n` keeps the residue modulo `n`. */
  lemma ReduceMod(a: int, m: nat, n: nat)
    requires n > 0 && m % n == 0
    ensures Reduce(a, m) % n == a % n
  {
    if m > 0 {
      var q, c := a / m, m / n;
      assert a == m * q + a % m && m == n * c;
      assert a == a % m + (c * q) * n by {
        assert m * q == (n * c) * q == (c * q) * n;
      }
      AddMultiple(a % m, c * q, n);
    }
  }

  lemma CRemRange(a: int, n: int)
    requires n > 0
    ensures -n < CRem(a, n) < n && (a >= 0 ==> CRem(a, n) >= 0) && (a - CRem(a, n)) % n == 0
  {
    var b := if a >= 0 then a else -a;
    assert b == n * (b / n) + b % n;
    MultipleMod(b / n, n);
    if a < 0 {
      assert a - CRem(a, n) == n * (-(b / n));
      MultipleMod(-(b / n), n);
    }
  }

  /** Taking the offset off leaves an aligned base. */
  lemma {:induction false} WidenedIsAligned(n: nat, l: Load)
    requires n > 0 && Known(n, l)
    ensures Known(n, Widened(n, l)) && Offset(n, Widened(n, l)) == 0
  {
    var w := Widened(n, l);
    CRemRange(l.al.remainder, n);
    ReduceMod(l.al.remainder - Offset(n, l), l.al.modulus, n);
    CRemZero(w.al.remainder, n);
  }

  /** The termination argument: every load made has a lower rank. */
  lemma {:induction false} RankFalls(n: nat, l: Load)
    requires n > 0 && Handled(l)
    ensures l.stride != 1 ==> Rank(n, Dense(n, l)) < Rank(n, l)
    ensures l.stride == 1 && l.lanes < n ==> Rank(n, Native(n, l)) < Rank(n, l)
    ensures l.stride == 1 && l.lanes == n && Offset(n, l) != 0 ==> Rank(n, Widened(n, l)) < Rank(n, l)
  {
    if l.stride == 1 && l.lanes == n && Offset(n, l) != 0 { WidenedIsAligned(n, l); }
  }

  lemma {:induction false} PieceRankFalls(n: nat, l: Load, i: nat, k: nat)
    requires n > 0 && Handled(l) && l.stride == 1 && l.lanes > n && i == k * n && i < l.lanes
    ensures Rank(n, Piece(n, l, i)) < Rank(n, l)
  {
    ShiftKeepsOffset(n, l, Piece(n, l, i), k);
  }

  function Rewrite(n: nat, l: Load): Vec
    requires n > 0
    decreases Rank(n, l), 0
  {
    if !Handled(l) then Leaf(l)
    else
      RankFalls(n, l);
      if l.stride != 1 then MakeSlice(Rewrite(n, Dense(n, l)), l.lanes * l.stride, DenseShift(n, l), l.stride, l.lanes)
      else if l.lanes < n then MakeSlice(Rewrite(n, Native(n, l)), n, 0, 1, l.lanes)
      else if l.lanes > n then Concat(Pieces(n, l, 0, 0))
      else if Offset(n, l) != 0 then MakeSlice(Rewrite(n, Widened(n, l)), l.lanes * 2, Offset(n, l), 1, l.lanes)
      else Leaf(l)
  }

  /** The pieces from lane `i` on, of native width but perhaps the last. */
  function Pieces(n: nat, l: Load, i: nat, k: nat): seq<Vec>
    requires n > 0 && Handled(l) && l.stride == 1 && l.lanes > n && i == k * n
    decreases Rank(n, l), 0, l.lanes + n - i
  {
    if i >= l.lanes then []
    else
      PieceRankFalls(n, l, i, k);
      [Rewrite(n, Piece(n, l, i))] + Pieces(n, l, i + n, k + 1)
  }

  /** The recursive visit, with its loop over the pieces of a wide load. */
  method Visit(n: nat, l: Load) returns (v: Vec)
    requires n > 0
    ensures v == Rewrite(n, l)
    decreases Rank(n, l)
  {
    if !Handled(l) { return Leaf(l); }
    RankFalls(n, l);
    if l.stride != 1 {
      var shift := if Known(n, l) && Offset(n, l) < l.stride then Offset(n, l) else 0;
      var dense := Visit(n, Dense(n, l));
      return MakeSlice(dense, l.lanes * l.stride, shift, l.stride, l.lanes);
    }
    if l.lanes < n {
      var native := Visit(n, Native(n, l));
      return MakeSlice(native, n, 0, 1, l.lanes);
    }
    if l.lanes > n {
      var slices, i := [], 0;
      ghost var k := 0;
      while i < l.lanes
        invariant i == k * n && slices + Pieces(n, l, i, k) == Pieces(n, l, 0, 0)
        decreases l.lanes + n - i
      {
        PieceRankFalls(n, l, i, k);
        var piece := Visit(n, Piece(n, l, i));
        slices := slices + [piece];
        i, k := i + n, k + 1;
      }
      return Concat(slices);
    }
    if Offset(n, l) != 0 {
      var wide := Visit(n, Widened(n, l));
      return MakeSlice(wide, l.lanes * 2, Offset(n, l), 1, l.lanes);
    }
    v := Leaf(l);
  }

  // ---- the rewritten load reads the same lanes ----

  predicate Normal(al: ModRem) { al.modulus > 0 ==> 0 <= al.remainder < al.modulus }

  lemma {:induction false} ShiftedOffset(n: nat, l: Load, l': Load, k: nat)
    requires n > 0 && Offset(n, l) >= 0 && l'.al == Shift(l.al, k * n) && l'.trusted == l.trusted
    ensures Offset(n, l') >= 0
  {
    ShiftKeepsOffset(n, l, l', k);
    CRemRange(l'.al.remainder, n);
    if l.al.modulus == 0 && l.al.remainder < 0 && Known(n, l) { CRemRange(l.al.remainder, n); }
    ScaleLe(0, k, n);
  }

  lemma {:induction false} DenseOffset(n: nat, l: Load)
    requires n > 0 && Offset(n, l) >= 0 && l.stride >= 1
    ensures Offset(n, Dense(n, l)) >= 0
  {
    if DenseShift(n, l) != 0 {
      CRemRange(l.al.remainder, n);
      ReduceMod(l.al.remainder - Offset(n, l), l.al.modulus, n);
      CRemZero(Dense(n, l).al.remainder, n);
    } else {
      ShiftedOffset(n, l, Dense(n, l), 0);
    }
  }

  /** A strided load that starts less than a stride after an aligned lane is read from that lane on. */
  lemma {:induction false} DenseIsAligned(n: nat, l: Load)
    requires n > 0 && l.stride >= 1 && l.trusted && l.al.modulus % n == 0 && 0 <= CRem(l.al.remainder, n) < l.stride
    ensures CRem(Dense(n, l).al.remainder, n) == 0 && Dense(n, l).base == l.base - CRem(l.al.remainder, n)
  {
    CRemRange(l.al.remainder, n);
    ReduceMod(l.al.remainder - Offset(n, l), l.al.modulus, n);
    CRemZero(Dense(n, l).al.remainder, n);
  }

  lemma {:induction false} SliceEval(v: Vec, lanes: nat, begin: int, step: int, size: nat, mem: Memory, xs: seq<int>)
    requires Eval(v, mem) == Some(xs) && |xs| == lanes && SliceFits(begin, step, size, lanes)
    ensures Eval(MakeSlice(v, lanes, begin, step, size), mem) == Some(Pick(xs, begin, step, size))
  {
    if begin == 0 && size == lanes && step == 1 { assert Pick(xs, begin, step, size) == xs; }
  }

  /** Picking every `l.stride`-th lane of a dense load that starts `begin` lanes earlier gives the lanes of `l`. */
  lemma {:induction false} PickRead(d: Load, l: Load, begin: int, mem: Memory)
    requires d.stride == 1 && d.base + begin == l.base && SliceFits(begin, l.stride, l.lanes, d.lanes)
    ensures Pick(Read(d, mem), begin, l.stride, l.lanes) == Read(l, mem)
  {
    forall k | 0 <= k < l.lanes ensures Pick(Read(d, mem), begin, l.stride, l.lanes)[k] == Read(l, mem)[k] {
      var j := begin + k * l.stride;
      assert Read(d, mem)[j] == mem(d.base + j * 1);
      assert d.base + j * 1 == l.base + k * l.stride;
    }
  }

  lemma {:induction false} PickReads(n: nat, l: Load, d: Load, begin: int, mem: Memory)
    requires n > 0 && d.stride == 1 && d.base + begin == l.base && SliceFits(begin, l.stride, l.lanes, d.lanes)
    requires Eval(Rewrite(n, d), mem) == Some(Read(d, mem))
    ensures Eval(MakeSlice(Rewrite(n, d), d.lanes, begin, l.stride, l.lanes), mem) == Some(Read(l, mem))
  {
    SliceEval(Rewrite(n, d), d.lanes, begin, l.stride, l.lanes, mem, Read(d, mem));
    PickRead(d, l, begin, mem);
  }

  lemma {:induction false} DenseFits(begin: int, step: int, size: nat)
    requires 0 <= begin < step
    ensures SliceFits(begin, step, size, size * step)
  {
    forall k | 0 <= k < size ensures 0 <= begin + k * step < size * step {
      ScaleLe(k + 1, size, step);
      assert (k + 1) * step == k * step + step;
      ScaleLe(0, k, step);
    }
  }

  lemma {:induction false} PieceThenRest(n: nat, l: Load, i: nat, mem: Memory)
    requires n > 0 && l.stride == 1 && i < l.lanes
    ensures Read(Piece(n, l, i), mem) + (if i + n < l.lanes then Read(l, mem)[i + n..] else []) == Read(l, mem)[i..]
  {
    var a, b := Read(Piece(n, l, i), mem), if i + n < l.lanes then Read(l, mem)[i + n..] else [];
    assert |a + b| == |Read(l, mem)[i..]|;
    forall k | 0 <= k < |a + b| ensures (a + b)[k] == Read(l, mem)[i..][k] {
      assert Read(l, mem)[i + k] == mem(l.base + (i + k) * 1);
      if k < |a| { assert a[k] == mem(l.base + i + k * 1); }
    }
  }

  /** What is left to read from lane `i` on. */
  function Rest(l: Load, i: nat, mem: Memory): seq<int> { if i < l.lanes then Read(l, mem)[i..] else [] }

  predicate PiecesAt(n: nat, l: Load, i: nat, k: nat) {
    n > 0 && Handled(l) && l.stride == 1 && l.lanes > n && i == k * n
  }

  lemma {:induction false} PiecesRead(n: nat, l: Load, i: nat, k: nat, mem: Memory)
    requires PiecesAt(n, l, i, k) && Offset(n, l) >= 0
    ensures EvalAll(Pieces(n, l, i, k), mem) == Some(Rest(l, i, mem))
    decreases Rank(n, l), 0, l.lanes + n - i
  {
    if i < l.lanes {
      var p := Piece(n, l, i);
      PieceRankFalls(n, l, i, k);
      ShiftedOffset(n, l, p, k);
      RewriteReads(n, p, mem);
      PiecesNext(n, l, i, k);
      PiecesRead(n, l, i + n, k + 1, mem);
      PiecesStep(n, l, i, k, mem);
    }
  }

  lemma PiecesNext(n: nat, l: Load, i: nat, k: nat)
    requires PiecesAt(n, l, i, k)
    ensures PiecesAt(n, l, i + n, k + 1)
  {
  }

  lemma {:induction false} PiecesStep(n: nat, l: Load, i: nat, k: nat, mem: Memory)
    requires PiecesAt(n, l, i, k) && PiecesAt(n, l, i + n, k + 1) && i < l.lanes
    requires Eval(Rewrite(n, Piece(n, l, i)), mem) == Some(Read(Piece(n, l, i), mem))
    requires EvalAll(Pieces(n, l, i + n, k + 1), mem) == Some(Rest(l, i + n, mem))
    ensures EvalAll(Pieces(n, l, i, k), mem) == Some(Rest(l, i, mem))
  {
    PieceThenRest(n, l, i, mem);
    HeadAndTail(Rewrite(n, Piece(n, l, i)), Pieces(n, l, i + n, k + 1), mem);
  }

  lemma {:induction false} HeadAndTail(v: Vec, vs: seq<Vec>, mem: Memory)
    requires Eval(v, mem).Some? && EvalAll(vs, mem).Some?
    ensures EvalAll([v] + vs, mem) == Some(Eval(v, mem).value + EvalAll(vs, mem).value)
  {
    assert ([v] + vs)[1..] == vs;
  }

  /** Whatever memory holds, the rewritten load yields the lanes of the original, if no offset is negative. */
  lemma {:induction false} RewriteReads(n: nat, l: Load, mem: Memory)
    requires n > 0 && (Handled(l) ==> Offset(n, l) >= 0)
    ensures Eval(Rewrite(n, l), mem) == Some(Read(l, mem))
    decreases Rank(n, l), 0
  {
    if Handled(l) {
      RankFalls(n, l);
      if l.stride != 1 {
        DenseOffset(n, l);
        RewriteReads(n, Dense(n, l), mem);
        DenseFits(DenseShift(n, l), l.stride, l.lanes);
        PickReads(n, l, Dense(n, l), DenseShift(n, l), mem);
      } else if l.lanes < n {
        RewriteReads(n, Native(n, l), mem);
        PickReads(n, l, Native(n, l), 0, mem);
      } else if l.lanes > n {
        PiecesRead(n, l, 0, 0, mem);
      } else if Offset(n, l) != 0 {
        WidenedIsAligned(n, l);
        CRemRange(l.al.remainder, n);
        RewriteReads(n, Widened(n, l), mem);
        PickReads(n, l, Widened(n, l), Offset(n, l), mem);
      }
    }
  }

  /** A negative offset, from a negative constant base, asks for a lane before the first. */
  lemma {:induction false} NegativeOffsetFails(n: nat, l: Load, mem: Memory)
    requires n > 0 && Handled(l) && Normal(l.al) && Offset(n, l) < 0
    ensures Eval(Rewrite(n, l), mem) == None
    decreases Rank(n, l)
  {
    RankFalls(n, l);
    CRemRange(l.al.remainder, n);
    if l.stride != 1 {
      var w := Slice(Rewrite(n, Dense(n, l)), DenseShift(n, l), l.stride, l.lanes);
      NoLane(w, mem);
    } else if l.lanes < n {
      NegativeOffsetFails(n, Native(n, l), mem);
    } else if l.lanes > n {
      PieceRankFalls(n, l, 0, 0);
      assert Piece(n, l, 0).al == l.al;
      NegativeOffsetFails(n, Piece(n, l, 0), mem);
      assert Pieces(n, l, 0, 0)[0] == Rewrite(n, Piece(n, l, 0));
    } else {
      NoLane(Slice(Rewrite(n, Widened(n, l)), Offset(n, l), 1, l.lanes), mem);
    }
  }

  lemma {:induction false} NoLane(v: Vec, mem: Memory)
    requires v.Slice? && v.begin < 0 && v.size > 0
    ensures Eval(v, mem) == None
  {
    assert v.begin + 0 * v.step < 0;
  }

  /** The rewrite of a vector load is right exactly when the computed offset is not negative. */
  lemma {:induction false} RewriteRightIff(n: nat, l: Load, mem: Memory)
    requires n > 0 && l.lanes > 1 && 1 <= l.stride <= 3 && Normal(l.al)
    ensures Eval(Rewrite(n, l), mem) == Some(Read(l, mem)) <==> Offset(n, l) >= 0
  {
    if Offset(n, l) >= 0 { RewriteReads(n, l, mem); } else { NegativeOffsetFails(n, l, mem); }
  }

  lemma ConstantBaseBelowZero(mem: Memory)
    ensures Eval(Rewrite(8, Load(-1, 1, 8, ModRem(0, -1), true)), mem) == None
  {
    NegativeOffsetFails(8, Load(-1, 1, 8, ModRem(0, -1), true), mem);
  }

  // ---- the loads that are left ----

  /** A vector load of small stride that is left is dense, native and, if its alignment is known, aligned. */
  predicate LeafOk(n: nat, l: Load)
    requires n > 0
  {
    l.lanes > 1 && 1 <= l.stride <= 3 ==>
      l.stride == 1 && l.lanes == n && (l.trusted && l.al.modulus % n == 0 ==> l.base % n == 0)
  }

  predicate LeavesOk(n: nat, v: Vec)
    requires n > 0
  {
    match v
    case Leaf(l) => LeafOk(n, l)
    case Slice(w, _, _, _) => LeavesOk(n, w)
    case Concat(vs) => forall i :: 0 <= i < |vs| ==> LeavesOk(n, vs[i])
  }

  lemma {:induction false} ShiftDescribes(al: ModRem, base: int, k: int)
    requires Describes(al, base)
    ensures Describes(Shift(al, k), base + k)
  {
    var y: int :| base == al.modulus * y + al.remainder;
    if al.modulus > 0 {
      var a, m := al.remainder + k, al.modulus;
      var q := a / m;
      assert a == m * q + a % m;
      assert base + k == m * (y + q) + a % m by { assert m * (y + q) == m * y + m * q; }
    }
  }

  lemma {:induction false} KnownIsAligned(n: nat, l: Load)
    requires n > 0 && Known(n, l) && Offset(n, l) == 0 && Describes(l.al, l.base)
    ensures l.base % n == 0
  {
    var y: int :| l.base == l.al.modulus * y + l.al.remainder;
    CRemZero(l.al.remainder, n);
    var c := l.al.modulus / n;
    assert l.al.modulus == n * c;
    assert l.al.modulus * y == (c * y) * n by { assert (n * c) * y == (c * y) * n; }
    AddMultiple(l.al.remainder, c * y, n);
  }

  lemma {:induction false} PiecesLeaves(n: nat, l: Load, i: nat, k: nat)
    requires n > 0 && Handled(l) && l.stride == 1 && l.lanes > n && i == k * n && Describes(l.al, l.base)
    ensures forall j :: 0 <= j < |Pieces(n, l, i, k)| ==> LeavesOk(n, Pieces(n, l, i, k)[j])
    decreases Rank(n, l), 0, l.lanes + n - i
  {
    if i < l.lanes {
      PieceRankFalls(n, l, i, k);
      ShiftDescribes(l.al, l.base, i);
      RewriteLeaves(n, Piece(n, l, i));
      PiecesLeaves(n, l, i + n, k + 1);
    }
  }

  /** Every load left over is native and aligned as far as anything is known. */
  lemma {:induction false} RewriteLeaves(n: nat, l: Load)
    requires n > 0 && Describes(l.al, l.base)
    ensures LeavesOk(n, Rewrite(n, l))
    decreases Rank(n, l), 0
  {
    if Handled(l) {
      RankFalls(n, l);
      if l.stride != 1 {
        ShiftDescribes(l.al, l.base, -DenseShift(n, l));
        RewriteLeaves(n, Dense(n, l));
      } else if l.lanes < n {
        RewriteLeaves(n, Native(n, l));
      } else if l.lanes > n {
        PiecesLeaves(n, l, 0, 0);
      } else if Offset(n, l) != 0 {
        ShiftDescribes(l.al, l.base, -Offset(n, l));
        RewriteLeaves(n, Widened(n, l));
      } else if Known(n, l) {
        KnownIsAligned(n, l);
      }
    }
  }
}
