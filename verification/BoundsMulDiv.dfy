/**
 * The interval rule for multiplication, and the corners of a product.
 */
module BoundsMulDiv {
  import opened Wrappers
  import opened Ir
  import opened Intervals
  import opened BoundsArith
  import opened Euclid

  // ---- multiplication on the integers ----

  lemma MulBetween(x: int, lo: int, hi: int, c: int)
    requires Between(x, lo, hi)
    ensures Between(x * c, lo * c, hi * c) && Between(c * x, c * lo, c * hi)
  {
    if lo <= hi {
      ScaleLe(lo, x, c);
      ScaleLe(x, hi, c);
    } else {
      ScaleLe(hi, x, c);
      ScaleLe(x, lo, c);
    }
  }

  lemma BetweenCorners(v: int, p: int, q: int, w: int, x: int, y: int, z: int)
    requires Between(v, p, q) && Between(p, w, x) && Between(q, y, z)
    ensures Min4(w, x, y, z) <= v <= Max4(w, x, y, z)
  {
  }

  /** A product over two ranges lies between the extreme corner products. */
  lemma MulCorners(a1: int, a2: int, x: int, b1: int, b2: int, y: int)
    requires a1 <= x <= a2 && b1 <= y <= b2
    ensures Min4(a1 * b1, a1 * b2, a2 * b1, a2 * b2) <= x * y <= Max4(a1 * b1, a1 * b2, a2 * b1, a2 * b2)
  {
    MulBetween(x, a1, a2, y);
    MulBetween(y, b1, b2, a1);
    MulBetween(y, b1, b2, a2);
    BetweenCorners(x * y, a1 * y, a2 * y, a1 * b1, a1 * b2, a2 * b1, a2 * b2);
  }

  // ---- multiplication ----

  function Times(x: Option<Expr>, c: Expr): Option<Expr> {
    if x.Some? then Some(Bin(Mul, x.value, c)) else None
  }

  /** The interval `a` scaled by the one value `c`. */
  function ScaleRule(t: Type, a: Interval, c: Expr): Interval {
    var e1, e2 := Times(a.min, c), Times(a.max, c);
    if IsZero(c) then Point(c)
    else if IsPositiveConst(c) || IsUInt(t) then Interval(e1, e2)
    else if IsNegativeConst(c) then Interval(e2, e1)
    else if IsBounded(a) then
      var cmp := Cmp(GE, c, Const(TypeOf(c), 0));
      Interval(Some(Select(cmp, e1.value, e2.value)), Some(Select(cmp, e2.value, e1.value)))
    else EVERYTHING
  }

  function ProductEnds(t: Type, a: Interval, b: Interval): Interval {
    if IsPoint(b) then ScaleRule(t, a, b.min.value)
    else if IsBounded(a) && IsBounded(b) then
      Hull(Bin(Mul, a.min.value, b.min.value), Bin(Mul, a.min.value, b.max.value),
           Bin(Mul, a.max.value, b.min.value), Bin(Mul, a.max.value, b.max.value))
    else EVERYTHING
  }

  function ProductTest(a: Interval, b: Interval): Expr
    requires IsBounded(a) && IsBounded(b)
  {
    And(And(And(NoOverflow(Mul, a.min.value, b.min.value), NoOverflow(Mul, a.min.value, b.max.value)),
            NoOverflow(Mul, a.max.value, b.min.value)), NoOverflow(Mul, a.max.value, b.max.value))
  }

  function MulRule(o: Oracle, e: Expr, a0: Interval, b0: Interval): Interval
    requires e.Bin?
  {
    var t := TypeOf(e);
    if a0 == Point(e.a) && b0 == Point(e.b) then Point(e)
    else if IsPoint(a0) && IsPoint(b0) then Point(Bin(Mul, a0.min.value, b0.min.value))
    else
      if IsPoint(a0) then ProductRule(o, t, b0, a0) else ProductRule(o, t, a0, b0)
  }

  /** Signs of constants are read through casts, so a cast must not change them. */
  predicate PointHonest(i: Interval) { IsPoint(i) ==> HonestConst(i.min.value) }

  predicate MulGuard(a: Interval, b: Interval) {
    (IsPoint(a) && IsPoint(b)) || (PointHonest(a) && PointHonest(b))
  }

  lemma {:induction false} SelectEnd(c: Expr, x: Expr, y: Expr, t: Type, out: Env)
    requires End(c, UInt1, out) && End(x, t, out) && End(y, t, out)
    ensures End(Select(c, x, y), t, out)
    ensures Eval(Select(c, x, y), out) == if Eval(c, out) != 0 then Eval(x, out) else Eval(y, out)
  {
  }

  lemma {:induction false} CmpEnd(op: CmpOp, x: Expr, y: Expr, t: Type, out: Env)
    requires End(x, t, out) && End(y, t, out)
    ensures End(Cmp(op, x, y), UInt1, out)
    ensures Eval(Cmp(op, x, y), out) == Truth(DoCmp(op, Eval(x, out), Eval(y, out)))
  {
  }

  /** What scaling a present end gives, when the product does not wrap. */
  lemma {:induction false} TimesEnd(x: Expr, c: Expr, t: Type, out: Env)
    requires End(x, t, out) && End(c, t, out) && InRange(t, Eval(x, out) * Eval(c, out))
    ensures End(Bin(Mul, x, c), t, out) && Eval(Bin(Mul, x, c), out) == Eval(x, out) * Eval(c, out)
  {
    BinEnd(Mul, x, c, t, out);
  }

  /** No product of an end of `a` with `c` wraps. */
  ghost predicate EndsFit(t: Type, a: Interval, c: int, out: Env) {
    && (a.min.Some? ==> InRange(t, Eval(a.min.value, out) * c))
    && (a.max.Some? ==> InRange(t, Eval(a.max.value, out) * c))
  }

  lemma {:induction false} ScaleSound(t: Type, a: Interval, c: Expr, va: int, out: Env)
    requires Holds(a, t, va, out) && End(c, t, out) && HonestConst(c) && EndsFit(t, a, Eval(c, out), out)
    ensures Holds(ScaleRule(t, a, c), t, va * Eval(c, out), out)
  {
    ZeroOne(c, out);
    HonestSign(c, out);
    FineInRange(c, out);
    if IsZero(c) {
    } else if IsPositiveConst(c) || IsUInt(t) || IsNegativeConst(c) {
      ScaledEnds(t, a, c, va, out);
    } else if IsBounded(a) {
      ScaleBySign(t, a, c, va, out);
    }
  }

  /** The scaled ends bound the product on the sides that the sign says. */
  lemma {:induction false} ScaledEnds(t: Type, a: Interval, c: Expr, va: int, out: Env)
    requires Holds(a, t, va, out) && End(c, t, out) && EndsFit(t, a, Eval(c, out), out)
    ensures var v, e1, e2 := Eval(c, out), Times(a.min, c), Times(a.max, c);
      && (v >= 0 ==> Holds(Interval(e1, e2), t, va * v, out))
      && (v <= 0 ==> Holds(Interval(e2, e1), t, va * v, out))
  {
    var v := Eval(c, out);
    if a.min.Some? {
      TimesEnd(a.min.value, c, t, out);
      ScaleLe(Eval(a.min.value, out), va, v);
    }
    if a.max.Some? {
      TimesEnd(a.max.value, c, t, out);
      ScaleLe(va, Eval(a.max.value, out), v);
    }
  }

  lemma {:induction false} ScaleBySign(t: Type, a: Interval, c: Expr, va: int, out: Env)
    requires Holds(a, t, va, out) && IsBounded(a) && End(c, t, out) && EndsFit(t, a, Eval(c, out), out)
    ensures var cmp := Cmp(GE, c, Const(TypeOf(c), 0));
      var e1, e2 := Bin(Mul, a.min.value, c), Bin(Mul, a.max.value, c);
      Holds(Interval(Some(Select(cmp, e1, e2)), Some(Select(cmp, e2, e1))), t, va * Eval(c, out), out)
  {
    var cmp := Cmp(GE, c, Const(t, 0));
    var e1, e2 := Bin(Mul, a.min.value, c), Bin(Mul, a.max.value, c);
    TimesEnd(a.min.value, c, t, out);
    TimesEnd(a.max.value, c, t, out);
    ScaleLe(Eval(a.min.value, out), va, Eval(c, out));
    ScaleLe(va, Eval(a.max.value, out), Eval(c, out));
    CmpEnd(GE, c, Const(t, 0), t, out);
    SelectEnd(cmp, e1, e2, t, out);
    SelectEnd(cmp, e2, e1, t, out);
  }

  predicate CornersFit(t: Type, a1: int, a2: int, b1: int, b2: int) {
    InRange(t, a1 * b1) && InRange(t, a1 * b2) && InRange(t, a2 * b1) && InRange(t, a2 * b2)
  }

  lemma {:induction false} AndMeans(x: Expr, y: Expr, out: Env)
    requires End(x, UInt1, out) && End(y, UInt1, out)
    ensures End(And(x, y), UInt1, out)
    ensures Eval(And(x, y), out) != 0 <==> Eval(x, out) != 0 && Eval(y, out) != 0
  {
  }

  lemma {:induction false} ProductFits(o: Oracle, t: Type, a: Interval, b: Interval, out: Env)
    requires OracleOk(o) && IsBounded(a) && IsBounded(b) && o.prove(ProductTest(a, b))
    requires End(a.min.value, t, out) && End(a.max.value, t, out) && End(b.min.value, t, out)
      && End(b.max.value, t, out)
    ensures CornersFit(t, Eval(a.min.value, out), Eval(a.max.value, out), Eval(b.min.value, out),
                       Eval(b.max.value, out))
  {
    var w, x := NoOverflow(Mul, a.min.value, b.min.value), NoOverflow(Mul, a.min.value, b.max.value);
    var y, z := NoOverflow(Mul, a.max.value, b.min.value), NoOverflow(Mul, a.max.value, b.max.value);
    NoOverflowMeans(Mul, a.min.value, b.min.value, t, out);
    NoOverflowMeans(Mul, a.min.value, b.max.value, t, out);
    NoOverflowMeans(Mul, a.max.value, b.min.value, t, out);
    NoOverflowMeans(Mul, a.max.value, b.max.value, t, out);
    AndMeans(w, x, out);
    AndMeans(And(w, x), y, out);
    AndMeans(And(And(w, x), y), z, out);
    assert ProveOk(o, ProductTest(a, b), out);
  }

  lemma {:induction false} HullOfProducts(t: Type, a: Interval, b: Interval, va: int, vb: int, out: Env)
    requires IsBounded(a) && IsBounded(b) && Holds(a, t, va, out) && Holds(b, t, vb, out)
    requires CornersFit(t, Eval(a.min.value, out), Eval(a.max.value, out), Eval(b.min.value, out),
                        Eval(b.max.value, out))
    ensures Holds(Hull(Bin(Mul, a.min.value, b.min.value), Bin(Mul, a.min.value, b.max.value),
                       Bin(Mul, a.max.value, b.min.value), Bin(Mul, a.max.value, b.max.value)), t, va * vb, out)
  {
    TimesEnd(a.min.value, b.min.value, t, out);
    TimesEnd(a.min.value, b.max.value, t, out);
    TimesEnd(a.max.value, b.min.value, t, out);
    TimesEnd(a.max.value, b.max.value, t, out);
    MulCorners(Eval(a.min.value, out), Eval(a.max.value, out), va, Eval(b.min.value, out), Eval(b.max.value, out), vb);
    HullHolds(Bin(Mul, a.min.value, b.min.value), Bin(Mul, a.min.value, b.max.value),
              Bin(Mul, a.max.value, b.min.value), Bin(Mul, a.max.value, b.max.value), t, va * vb, out);
  }

  lemma {:induction false} ProductEndsHold(t: Type, a: Interval, b: Interval, va: int, vb: int, out: Env)
    requires Holds(a, t, va, out) && Holds(b, t, vb, out) && PointHonest(b)
    requires IsNarrow(t) ==> IsBounded(a) && IsBounded(b)
    requires IsNarrow(t) ==>
      CornersFit(t, Eval(a.min.value, out), Eval(a.max.value, out), Eval(b.min.value, out), Eval(b.max.value, out))
    ensures Holds(ProductEnds(t, a, b), t, va * vb, out)
  {
    if IsPoint(b) {
      ScaleSound(t, a, b.min.value, va, out);
    } else if IsBounded(a) && IsBounded(b) {
      HullOfProducts(t, a, b, va, vb, out);
    }
  }

  /** A product whose corners fit does not wrap. */
  lemma {:induction false} ProductInRange(t: Type, a: Interval, b: Interval, va: int, vb: int, out: Env)
    requires IsBounded(a) && IsBounded(b) && Holds(a, t, va, out) && Holds(b, t, vb, out)
    requires CornersFit(t, Eval(a.min.value, out), Eval(a.max.value, out), Eval(b.min.value, out),
                        Eval(b.max.value, out))
    ensures InRange(t, va * vb)
  {
    MulCorners(Eval(a.min.value, out), Eval(a.max.value, out), va, Eval(b.min.value, out), Eval(b.max.value, out), vb);
  }

  lemma {:induction false} MulSound(o: Oracle, e: Expr, a0: Interval, b0: Interval, va0: int, vb0: int, out: Env)
    requires OracleOk(o) && e.Bin? && e.op.Mul? && MulGuard(a0, b0)
    requires Holds(a0, TypeOf(e), va0, out) && Holds(b0, TypeOf(e), vb0, out)
    ensures Holds(MulRule(o, e, a0, b0), TypeOf(e), Wrap(TypeOf(e), va0 * vb0), out)
  {
    var t := TypeOf(e);
    if IsPoint(a0) && IsPoint(b0) {
      PointsHold(Mul, t, a0.min.value, b0.min.value, va0, vb0, out);
    } else {
      Commutes(va0, vb0);
      if IsPoint(a0) {
        ProductSound(o, t, b0, a0, vb0, va0, out);
      } else {
        ProductSound(o, t, a0, b0, va0, vb0, out);
      }
    }
  }

  lemma Commutes(x: int, y: int)
    ensures x * y == y * x
  {
  }

  /** A product whose first factor is not a single point. */
  function ProductRule(o: Oracle, t: Type, a: Interval, b: Interval): Interval {
    if IsNarrow(t) && !(IsBounded(a) && IsBounded(b) && o.prove(ProductTest(a, b))) then TypeBounds(t)
    else ProductEnds(t, a, b)
  }

  lemma {:induction false} ProductSound(o: Oracle, t: Type, a: Interval, b: Interval, va: int, vb: int, out: Env)
    requires OracleOk(o) && PointHonest(b) && !IsPoint(a) && Holds(a, t, va, out) && Holds(b, t, vb, out)
    ensures Holds(ProductRule(o, t, a, b), t, Wrap(t, va * vb), out)
  {
    if IsNarrow(t) && !(IsBounded(a) && IsBounded(b) && o.prove(ProductTest(a, b))) {
      TypeBoundsHold(t, Wrap(t, va * vb), out);
    } else {
      if IsNarrow(t) {
        ProductFits(o, t, a, b, out);
        ProductInRange(t, a, b, va, vb, out);
      }
      ProductEndsHold(t, a, b, va, vb, out);
    }
  }
}
