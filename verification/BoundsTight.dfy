/**
 * Tightness of the interval rules: over bounded, non-empty operand intervals each end of the
 * result is the result of the operation on an end of each operand, so no smaller interval would do.
 * Where a rule has no such ends, when its ends are attained is known exactly.
 */
module BoundsTight {
  import opened Wrappers
  import opened Ir
  import opened Intervals
  import opened BoundsArith
  import opened BoundsMulDiv
  import opened BoundsDivMod
  import opened BoundsLogic
  import opened BoundsCast
  import opened Bounds

  /** A bounded interval that is not empty. */
  predicate Range(i: Interval, t: Type, out: Env) {
    && IsBounded(i) && End(i.min.value, t, out) && End(i.max.value, t, out)
    && Eval(i.min.value, out) <= Eval(i.max.value, out)
  }

  /** The value of one end: the upper one if `high`. */
  function EndAt(i: Interval, high: bool, out: Env): int
    requires IsBounded(i)
  {
    Eval(if high then i.max.value else i.min.value, out)
  }

  lemma {:induction false} EndHolds(i: Interval, t: Type, high: bool, out: Env)
    requires Range(i, t, out)
    ensures Holds(i, t, EndAt(i, high, out), out) && InRange(t, EndAt(i, high, out))
  {
    FineInRange(i.min.value, out);
    FineInRange(i.max.value, out);
  }

  // ---- arithmetic ----

  /** `v` is what the operation makes of the chosen ends. */
  predicate Corner(v: int, op: BinOp, t: Type, a: Interval, b: Interval, p: bool, q: bool, out: Env) {
    IsBounded(a) && IsBounded(b) && v == Wrap(t, DoBin(op, EndAt(a, p, out), EndAt(b, q, out)))
  }

  predicate AtCorner(x: Option<Expr>, op: BinOp, t: Type, a: Interval, b: Interval, out: Env) {
    x.Some? && exists p: bool, q: bool :: Corner(Eval(x.value, out), op, t, a, b, p, q, out)
  }

  predicate AtCorners(i: Interval, op: BinOp, t: Type, a: Interval, b: Interval, out: Env) {
    AtCorner(i.min, op, t, a, b, out) && AtCorner(i.max, op, t, a, b, out)
  }

  /** What the prover is asked before a narrow type's own range is given up. */
  predicate NoWrapProved(o: Oracle, op: BinOp, t: Type, a: Interval, b: Interval)
    requires IsBounded(a) && IsBounded(b)
  {
    match op
    case Add => o.prove(NoOverflow(Add, a.max.value, b.max.value)) && o.prove(NoOverflow(Add, a.min.value, b.min.value))
    case Sub =>
      && o.prove(NoOverflow(Sub, a.max.value, b.min.value)) && o.prove(NoOverflow(Sub, a.min.value, b.max.value))
      && (IsUInt(t) ==> o.prove(Cmp(LE, b.max.value, a.min.value)))
    case Mul => o.prove(ProductTest(a, b)) && o.prove(ProductTest(b, a))
    case _ => true
  }

  predicate Operands(e: Expr, a: Interval, b: Interval, out: Env) {
    e.Bin? && Range(a, TypeOf(e), out) && Range(b, TypeOf(e), out)
  }

  /** An end built by the operation from an end of each operand. */
  lemma {:induction false} BuiltCorner(op: BinOp, x: Expr, y: Expr, a: Interval, b: Interval, p: bool, q: bool,
                                       t: Type, out: Env)
    requires Range(a, t, out) && Range(b, t, out) && (op.Div? || op.Mod? ==> Eval(y, out) != 0)
    requires x == (if p then a.max.value else a.min.value) && y == (if q then b.max.value else b.min.value)
    ensures End(Bin(op, x, y), t, out) && AtCorner(Some(Bin(op, x, y)), op, t, a, b, out)
  {
    BinEnd(op, x, y, t, out);
    assert Corner(Eval(Bin(op, x, y), out), op, t, a, b, p, q, out);
  }

  lemma {:induction false} PointCorner(e: Expr, a: Interval, b: Interval, x: Expr, y: Expr, out: Env)
    requires Operands(e, a, b, out) && a == Point(x) && b == Point(y)
    requires e.op.Div? || e.op.Mod? ==> Eval(y, out) != 0
    ensures AtCorners(Point(Bin(e.op, x, y)), e.op, TypeOf(e), a, b, out)
  {
    BuiltCorner(e.op, x, y, a, b, false, false, TypeOf(e), out);
  }

  lemma {:induction false} SumCorners(o: Oracle, e: Expr, a: Interval, b: Interval, out: Env)
    requires Operands(e, a, b, out) && (e.op.Add? || e.op.Sub?)
    requires IsNarrow(TypeOf(e)) ==> NoWrapProved(o, e.op, TypeOf(e), a, b)
    ensures AtCorners(BinRule(o, e, a, b), e.op, TypeOf(e), a, b, out)
  {
    var t := TypeOf(e);
    if IsPoint(a) && IsPoint(b) {
      PointCorner(e, a, b, a.min.value, b.min.value, out);
    } else if e.op.Add? {
      BuiltCorner(Add, a.min.value, b.min.value, a, b, false, false, t, out);
      BuiltCorner(Add, a.max.value, b.max.value, a, b, true, true, t, out);
    } else {
      BuiltCorner(Sub, a.min.value, b.max.value, a, b, false, true, t, out);
      BuiltCorner(Sub, a.max.value, b.min.value, a, b, true, false, t, out);
    }
  }

  lemma {:induction false} OrderCorner(op: BinOp, t: Type, a: Interval, b: Interval, high: bool, out: Env)
    requires IsOrder(op) && Range(a, t, out) && Range(b, t, out)
    ensures var x, y := if high then a.max.value else a.min.value, if high then b.max.value else b.min.value;
      AtCorner(Some(Extreme(op, x, y)), op, t, a, b, out)
  {
    var x, y := if high then a.max.value else a.min.value, if high then b.max.value else b.min.value;
    ExtremeMeans(op, x, y, t, out);
    FineInRange(x, out);
    FineInRange(y, out);
    assert Corner(Eval(Extreme(op, x, y), out), op, t, a, b, high, high, out);
  }

  lemma {:induction false} OrderCorners(o: Oracle, e: Expr, a: Interval, b: Interval, out: Env)
    requires Operands(e, a, b, out) && IsOrder(e.op)
    ensures AtCorners(BinRule(o, e, a, b), e.op, TypeOf(e), a, b, out)
  {
    if a == Point(e.a) && b == Point(e.b) {
      PointCorner(e, a, b, e.a, e.b, out);
    } else {
      OrderCorner(e.op, TypeOf(e), a, b, false, out);
      OrderCorner(e.op, TypeOf(e), a, b, true, out);
    }
  }

  // ---- products ----

  lemma {:induction false} Swapped(x: Option<Expr>, t: Type, a: Interval, b: Interval, out: Env)
    requires AtCorner(x, Mul, t, b, a, out)
    ensures AtCorner(x, Mul, t, a, b, out)
  {
    var p, q :| Corner(Eval(x.value, out), Mul, t, b, a, p, q, out);
    Commutes(EndAt(b, p, out), EndAt(a, q, out));
    assert Corner(Eval(x.value, out), Mul, t, a, b, q, p, out);
  }

  /** A hull's ends are among the four values. */
  lemma {:induction false} HullIsOne(op: BinOp, w: Expr, x: Expr, y: Expr, z: Expr, t: Type, out: Env)
    requires IsOrder(op) && AllEnds(w, x, y, z, t, out)
    ensures var r := Eval(Extreme(op, Extreme(op, Extreme(op, w, x), y), z), out);
      r == Eval(w, out) || r == Eval(x, out) || r == Eval(y, out) || r == Eval(z, out)
  {
    HullEnd(op, w, x, y, z, t, out);
  }

  lemma {:induction false} SameCorner(x: Expr, r: Expr, op: BinOp, t: Type, a: Interval, b: Interval, out: Env)
    requires AtCorner(Some(x), op, t, a, b, out) && Eval(r, out) == Eval(x, out)
    ensures AtCorner(Some(r), op, t, a, b, out)
  {
    var p, q :| Corner(Eval(x, out), op, t, a, b, p, q, out);
    assert Corner(Eval(r, out), op, t, a, b, p, q, out);
  }

  lemma {:induction false} HullCorner(order: BinOp, w: Expr, x: Expr, y: Expr, z: Expr, op: BinOp, t: Type,
                                      a: Interval, b: Interval, out: Env)
    requires IsOrder(order) && AllEnds(w, x, y, z, t, out)
    requires AtCorner(Some(w), op, t, a, b, out) && AtCorner(Some(x), op, t, a, b, out)
    requires AtCorner(Some(y), op, t, a, b, out) && AtCorner(Some(z), op, t, a, b, out)
    ensures AtCorner(Some(Extreme(order, Extreme(order, Extreme(order, w, x), y), z)), op, t, a, b, out)
  {
    var r := Extreme(order, Extreme(order, Extreme(order, w, x), y), z);
    HullIsOne(order, w, x, y, z, t, out);
    if Eval(r, out) == Eval(w, out) { SameCorner(w, r, op, t, a, b, out);
    } else if Eval(r, out) == Eval(x, out) { SameCorner(x, r, op, t, a, b, out);
    } else if Eval(r, out) == Eval(y, out) { SameCorner(y, r, op, t, a, b, out);
    } else { SameCorner(z, r, op, t, a, b, out); }
  }

  lemma {:induction false} HullCorners(op: BinOp, t: Type, a: Interval, b: Interval, out: Env)
    requires Range(a, t, out) && Range(b, t, out) && (op.Mul? || op.Div?)
    requires op.Div? ==> EndAt(b, false, out) != 0 && EndAt(b, true, out) != 0
    ensures
      var w, x := Bin(op, a.min.value, b.min.value), Bin(op, a.min.value, b.max.value);
      var y, z := Bin(op, a.max.value, b.min.value), Bin(op, a.max.value, b.max.value);
      AtCorners(Hull(w, x, y, z), op, t, a, b, out) && AtCorners(Hull(w, y, x, z), op, t, a, b, out)
  {
    var w, x := Bin(op, a.min.value, b.min.value), Bin(op, a.min.value, b.max.value);
    var y, z := Bin(op, a.max.value, b.min.value), Bin(op, a.max.value, b.max.value);
    BuiltCorner(op, a.min.value, b.min.value, a, b, false, false, t, out);
    BuiltCorner(op, a.min.value, b.max.value, a, b, false, true, t, out);
    BuiltCorner(op, a.max.value, b.min.value, a, b, true, false, t, out);
    BuiltCorner(op, a.max.value, b.max.value, a, b, true, true, t, out);
    HullCorner(Min, w, x, y, z, op, t, a, b, out);
    HullCorner(Max, w, x, y, z, op, t, a, b, out);
    HullCorner(Min, w, y, x, z, op, t, a, b, out);
    HullCorner(Max, w, y, x, z, op, t, a, b, out);
  }

  /** Scaling by one value: whichever way round, each end is an end times the value. */
  lemma {:induction false} ScaleCorners(t: Type, a: Interval, c: Expr, out: Env)
    requires Range(a, t, out) && Range(Point(c), t, out)
    ensures AtCorners(ScaleRule(t, a, c), Mul, t, a, Point(c), out)
  {
    BuiltCorner(Mul, a.min.value, c, a, Point(c), false, false, t, out);
    BuiltCorner(Mul, a.max.value, c, a, Point(c), true, false, t, out);
    var e1, e2 := Bin(Mul, a.min.value, c), Bin(Mul, a.max.value, c);
    ZeroOne(c, out);
    if IsZero(c) {
      assert Corner(Eval(c, out), Mul, t, a, Point(c), false, false, out);
    } else if !(IsPositiveConst(c) || IsUInt(t) || IsNegativeConst(c)) {
      ChosenCorners(Cmp(GE, c, Const(TypeOf(c), 0)), e1, e2, Mul, t, a, Point(c), out);
    }
  }

  /** A select between two corners is one of them. */
  lemma {:induction false} ChosenCorners(cmp: Expr, e1: Expr, e2: Expr, op: BinOp, t: Type, a: Interval, b: Interval,
                                         out: Env)
    requires AtCorner(Some(e1), op, t, a, b, out) && AtCorner(Some(e2), op, t, a, b, out)
    ensures AtCorners(Interval(Some(Select(cmp, e1, e2)), Some(Select(cmp, e2, e1))), op, t, a, b, out)
  {
    SameCorner(if Eval(cmp, out) != 0 then e1 else e2, Select(cmp, e1, e2), op, t, a, b, out);
    SameCorner(if Eval(cmp, out) != 0 then e2 else e1, Select(cmp, e2, e1), op, t, a, b, out);
  }

  lemma {:induction false} ProductCorners(t: Type, a: Interval, b: Interval, out: Env)
    requires Range(a, t, out) && Range(b, t, out)
    ensures AtCorners(ProductEnds(t, a, b), Mul, t, a, b, out)
  {
    if IsPoint(b) {
      ScaleCorners(t, a, b.min.value, out);
    } else {
      HullCorners(Mul, t, a, b, out);
    }
  }

  lemma {:induction false} MulCornersReached(o: Oracle, e: Expr, a: Interval, b: Interval, out: Env)
    requires Operands(e, a, b, out) && e.op.Mul?
    requires IsNarrow(TypeOf(e)) ==> NoWrapProved(o, e.op, TypeOf(e), a, b)
    ensures AtCorners(BinRule(o, e, a, b), e.op, TypeOf(e), a, b, out)
  {
    var t := TypeOf(e);
    if IsPoint(a) && IsPoint(b) {
      PointCorner(e, a, b, a.min.value, b.min.value, out);
    } else if IsPoint(a) {
      ProductCorners(t, b, a, out);
      Swapped(ProductEnds(t, b, a).min, t, a, b, out);
      Swapped(ProductEnds(t, b, a).max, t, a, b, out);
    } else {
      ProductCorners(t, a, b, out);
    }
  }

  /** Division by a positive literal. */
  lemma {:induction false} DivCorners(o: Oracle, e: Expr, a: Interval, c: Expr, out: Env)
    requires Operands(e, a, Point(c), out) && e.op.Div? && c.Const? && c.value > 0
    ensures AtCorners(BinRule(o, e, a, Point(c)), Div, TypeOf(e), a, Point(c), out)
  {
    var t, b := TypeOf(e), Point(c);
    if a == Point(e.a) && b == Point(e.b) {
      PointCorner(e, a, b, e.a, e.b, out);
    } else if o.prove(Cmp(EQ, c, c)) {
      BuiltCorner(Div, a.min.value, c, a, b, false, false, t, out);
      BuiltCorner(Div, a.max.value, c, a, b, true, false, t, out);
    } else {
      HullCorners(Div, t, a, b, out);
    }
  }

  predicate TightOp(o: Oracle, e: Expr, a: Interval, b: Interval)
    requires e.Bin? && IsBounded(a) && IsBounded(b)
  {
    && !e.op.Mod? && (e.op.Div? ==> IsPoint(b) && b.min.value.Const? && b.min.value.value > 0)
    && (IsNarrow(TypeOf(e)) ==> NoWrapProved(o, e.op, TypeOf(e), a, b))
  }

  /** Each end of a sum, difference, product, minimum, maximum or quotient is reached at ends of the operands. */
  lemma {:induction false} BinCorners(o: Oracle, e: Expr, a: Interval, b: Interval, out: Env)
    requires Operands(e, a, b, out) && TightOp(o, e, a, b)
    ensures AtCorners(BinRule(o, e, a, b), e.op, TypeOf(e), a, b, out)
  {
    match e.op
    case Add => SumCorners(o, e, a, b, out);
    case Sub => SumCorners(o, e, a, b, out);
    case Mul => MulCornersReached(o, e, a, b, out);
    case Div => DivCorners(o, e, a, b.min.value, out);
    case Min => OrderCorners(o, e, a, b, out);
    case Max => OrderCorners(o, e, a, b, out);
  }

  /** Values of the operands give the end. */
  ghost predicate Attained(x: Option<Expr>, op: BinOp, t: Type, a: Interval, b: Interval, out: Env) {
    x.Some? && exists va: int, vb: int ::
      Holds(a, t, va, out) && Holds(b, t, vb, out) && Eval(x.value, out) == Wrap(t, DoBin(op, va, vb))
  }

  lemma {:induction false} CornerAttained(x: Option<Expr>, op: BinOp, t: Type, a: Interval, b: Interval, out: Env)
    requires Range(a, t, out) && Range(b, t, out) && AtCorner(x, op, t, a, b, out)
    ensures Attained(x, op, t, a, b, out)
  {
    var p, q :| Corner(Eval(x.value, out), op, t, a, b, p, q, out);
    EndHolds(a, t, p, out);
    EndHolds(b, t, q, out);
  }

  /**
   * For every type, over bounded non-empty operands: both ends of the interval are results of the
   * operation on values of the operands, unless a narrow type could not be shown not to wrap.
   */
  lemma {:induction false} RuleIsTight(o: Oracle, e: Expr, a: Interval, b: Interval, out: Env)
    requires Operands(e, a, b, out) && TightOp(o, e, a, b)
    ensures Attained(BinRule(o, e, a, b).min, e.op, TypeOf(e), a, b, out)
    ensures Attained(BinRule(o, e, a, b).max, e.op, TypeOf(e), a, b, out)
  {
    BinCorners(o, e, a, b, out);
    CornerAttained(BinRule(o, e, a, b).min, e.op, TypeOf(e), a, b, out);
    CornerAttained(BinRule(o, e, a, b).max, e.op, TypeOf(e), a, b, out);
  }

  // ---- remainders ----

  /** Some value of the range has the remainder r. */
  predicate HasRemainder(lo: int, hi: int, c: int, r: int)
    requires c > 0
  {
    exists v :: lo <= v <= hi && v % c == r
  }

  lemma {:induction false} SameRemainder(v: int, w: int, c: int)
    requires c > 0 && v % c == w % c && v < w
    ensures v + c <= w
  {
    var p, q := v / c, w / c;
    assert v == c * p + v % c && w == c * q + w % c;
    assert w - v == c * (q - p);
    if q - p <= 0 { Euclid.ScaleLe(q - p, 0, c); } else { Euclid.ScaleLe(1, q - p, c); }
  }

  lemma {:induction false} LeastRemainder(lo: int, hi: int, c: int)
    requires c > 0
    ensures HasRemainder(lo, hi, c, 0) <==> lo <= hi - hi % c
    ensures HasRemainder(lo, hi, c, c - 1) <==> lo + (c - 1 - lo % c) <= hi
  {
    var down, up := hi - hi % c, lo + (c - 1 - lo % c);
    Residue(hi / c, 0, c);
    Residue(lo / c, c - 1, c);
    assert hi == c * (hi / c) + hi % c && lo == c * (lo / c) + lo % c;
    assert down % c == 0 && up % c == c - 1;
    if HasRemainder(lo, hi, c, 0) {
      var v :| lo <= v <= hi && v % c == 0;
      if v > down { SameRemainder(down, v, c); }
    }
    if HasRemainder(lo, hi, c, c - 1) {
      var v :| lo <= v <= hi && v % c == c - 1;
      if v < up { SameRemainder(v, up, c); }
    }
  }

  lemma {:induction false} Residue(q: int, r: int, c: int)
    requires 0 <= r < c
    ensures (c * q + r) % c == r
  {
    var v := c * q + r;
    assert v == c * (v / c) + v % c;
    assert c * (q - v / c) == v % c - r;
    if q - v / c >= 1 { Euclid.ScaleLe(1, q - v / c, c); } else if q - v / c <= -1 { Euclid.ScaleLe(q - v / c, -1, c); }
  }

  /**
   * A remainder by a positive literal over a range that is not a single expression: zero is reached if
   * and only if the range holds a multiple, and the upper end if and only if it holds a number before one.
   */
  lemma {:induction false} ModTightIff(o: Oracle, e: Expr, a: Interval, c: Expr, out: Env)
    requires Operands(e, a, Point(c), out) && e.op.Mod? && c.Const? && c.value > 0 && !IsPoint(a)
    ensures var r, lo, hi := BinRule(o, e, a, Point(c)), EndAt(a, false, out), EndAt(a, true, out);
      && IsBounded(r)
      && (HasRemainder(lo, hi, c.value, Eval(r.min.value, out)) <==> lo <= hi - hi % c.value)
      && (HasRemainder(lo, hi, c.value, Eval(r.max.value, out)) <==> lo + (c.value - 1 - lo % c.value) <= hi)
  {
    var r, t := BinRule(o, e, a, Point(c)), TypeOf(e);
    assert r == Interval(Some(Const(t, 0)), Some(Bin(Sub, c, Const(t, 1))));
    BinEnd(Sub, c, Const(t, 1), t, out);
    assert Eval(r.max.value, out) == c.value - 1;
    LeastRemainder(EndAt(a, false, out), EndAt(a, true, out), c.value);
  }

  // ---- comparisons ----

  predicate CmpCorner(v: int, op: CmpOp, a: Interval, b: Interval, p: bool, q: bool, out: Env) {
    IsBounded(a) && IsBounded(b) && v == Truth(DoCmp(op, EndAt(a, p, out), EndAt(b, q, out)))
  }

  predicate AtCmpCorner(x: Option<Expr>, op: CmpOp, a: Interval, b: Interval, out: Env) {
    x.Some? && exists p: bool, q: bool :: CmpCorner(Eval(x.value, out), op, a, b, p, q, out)
  }

  /** Each end of an order comparison is its outcome on ends of the operands. */
  lemma {:induction false} CmpCorners(e: Expr, a: Interval, b: Interval, t: Type, out: Env)
    requires e.Cmp? && !e.cop.EQ? && !e.cop.NE? && Range(a, t, out) && Range(b, t, out)
    ensures AtCmpCorner(CmpRule(e, a, b).min, e.cop, a, b, out)
    ensures AtCmpCorner(CmpRule(e, a, b).max, e.cop, a, b, out)
  {
    var r := CmpRule(e, a, b);
    if e.cop.LT? || e.cop.LE? {
      assert CmpCorner(Eval(r.min.value, out), e.cop, a, b, true, false, out);
      assert CmpCorner(Eval(r.max.value, out), e.cop, a, b, false, true, out);
    } else {
      assert CmpCorner(Eval(r.min.value, out), e.cop, a, b, false, true, out);
      assert CmpCorner(Eval(r.max.value, out), e.cop, a, b, true, false, out);
    }
  }

  /** Some values of the two ranges compare to v. */
  ghost predicate Compares(op: CmpOp, t: Type, a: Interval, b: Interval, v: int, out: Env) {
    exists va: int, vb: int ::
      Holds(a, t, va, out) && Holds(b, t, vb, out) && v == Truth(DoCmp(op, va, vb))
  }

  /** The two ranges are one and the same number. */
  predicate OneNumber(a: Interval, b: Interval, out: Env)
    requires IsBounded(a) && IsBounded(b)
  {
    EndAt(a, false, out) == EndAt(a, true, out) == EndAt(b, false, out) == EndAt(b, true, out)
  }

  lemma {:induction false} ComparesAt(op: CmpOp, t: Type, a: Interval, b: Interval, va: int, vb: int, out: Env)
    requires Holds(a, t, va, out) && Holds(b, t, vb, out)
    ensures Compares(op, t, a, b, Truth(DoCmp(op, va, vb)), out)
  {
  }

  /** Values that differ, if there are any. */
  lemma {:induction false} DifferentValues(a: Interval, b: Interval, t: Type, out: Env) returns (va: int, vb: int)
    requires Range(a, t, out) && Range(b, t, out) && !OneNumber(a, b, out)
    ensures Holds(a, t, va, out) && Holds(b, t, vb, out) && va != vb
  {
    var p :| EndAt(a, p, out) != EndAt(b, false, out) || EndAt(a, p, out) != EndAt(b, true, out);
    va := EndAt(a, p, out);
    vb := EndAt(b, EndAt(a, p, out) == EndAt(b, false, out), out);
  }

  /** What the rule says of overlap. */
  lemma {:induction false} OverlapEval(a: Interval, b: Interval, t: Type, out: Env)
    requires Range(a, t, out) && Range(b, t, out)
    ensures var over := And(Cmp(LE, a.min.value, b.max.value), Cmp(LE, b.min.value, a.max.value));
      Eval(over, out) == Truth(EndAt(a, false, out) <= EndAt(b, true, out)
        && EndAt(b, false, out) <= EndAt(a, true, out))
    ensures var apart := Or(Cmp(GT, a.min.value, b.max.value), Cmp(GT, b.min.value, a.max.value));
      Eval(apart, out) == Truth(EndAt(a, false, out) > EndAt(b, true, out)
        || EndAt(b, false, out) > EndAt(a, true, out))
  {
  }

  /**
   * Equality and inequality of ranges that are not single expressions: the end that tells overlapping
   * ranges from apart ones is always reached, the other one if and only if the ranges are not one and
   * the same number.
   */
  lemma {:induction false} EqualTightIff(e: Expr, a: Interval, b: Interval, t: Type, out: Env)
    requires e.Cmp? && (e.cop.EQ? || e.cop.NE?) && Range(a, t, out) && Range(b, t, out)
    requires !(IsPoint(a) && IsPoint(b))
    ensures var r := CmpRule(e, a, b);
      var told, other := if e.cop.EQ? then r.max else r.min, if e.cop.EQ? then r.min else r.max;
      && told.Some? && other.Some?
      && Compares(e.cop, t, a, b, Eval(told.value, out), out)
      && (Compares(e.cop, t, a, b, Eval(other.value, out), out) <==> !OneNumber(a, b, out))
  {
    OverlapEval(a, b, t, out);
    var lo := MaxInt(EndAt(a, false, out), EndAt(b, false, out));
    if lo <= EndAt(a, true, out) && lo <= EndAt(b, true, out) {
      ComparesAt(e.cop, t, a, b, lo, lo, out);
    } else {
      EndHolds(a, t, false, out);
      EndHolds(b, t, false, out);
      ComparesAt(e.cop, t, a, b, EndAt(a, false, out), EndAt(b, false, out), out);
    }
    if !OneNumber(a, b, out) {
      var va, vb := DifferentValues(a, b, t, out);
      ComparesAt(e.cop, t, a, b, va, vb, out);
    }
  }
}
