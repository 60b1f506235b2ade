/**
 * The interval rules for division and modulus.
 */
module BoundsDivMod {
  import opened Wrappers
  import opened Ir
  import opened Intervals
  import opened BoundsArith
  import opened BoundsMulDiv
  import opened Euclid

  // ---- division ----

  function Over(x: Option<Expr>, c: Expr): Option<Expr> {
    if x.Some? then Some(Bin(Div, x.value, c)) else None
  }

  function StaticSign(o: Oracle, x: Expr): int {
    var zero := Const(TypeOf(x), 0);
    if IsPositiveConst(x) then 1
    else if IsNegativeConst(x) then -1
    else if o.simplify(Cmp(GT, x, zero)) == Const(UInt1, 1) then 1
    else if o.simplify(Cmp(LT, x, zero)) == Const(UInt1, 1) then -1
    else 0
  }

  /** Division by one value, given as two expressions proved equal. */
  function QuotientRule(t: Type, a: Interval, b1: Expr, b2: Expr): Interval {
    var e1, e2 := Over(a.min, b1), Over(a.max, b2);
    if IsPositiveConst(b1) || IsUInt(t) then Interval(e1, e2)
    else if IsNegativeConst(b1) then Interval(e2, e1)
    else if IsBounded(a) then
      var cmp := Cmp(GT, b1, Const(TypeOf(b1), 0));
      Interval(Some(Select(cmp, e1.value, e2.value)), Some(Select(cmp, e2.value, e1.value)))
    else EVERYTHING
  }

  function QuotientHull(a: Interval, b: Interval): Interval
    requires IsBounded(a) && IsBounded(b)
  {
    Hull(Bin(Div, a.min.value, b.min.value), Bin(Div, a.max.value, b.min.value),
         Bin(Div, a.min.value, b.max.value), Bin(Div, a.max.value, b.max.value))
  }

  predicate OneSign(o: Oracle, b: Interval)
    requires IsBounded(b)
  {
    StaticSign(o, b.min.value) == StaticSign(o, b.max.value) != 0
  }

  function DivRule(o: Oracle, e: Expr, a: Interval, b: Interval): Interval
    requires e.Bin?
  {
    if !IsBounded(b) then EVERYTHING
    else if a == Point(e.a) && b == Point(e.b) then Point(e)
    else if o.prove(Cmp(EQ, b.min.value, b.max.value)) then QuotientRule(TypeOf(e), a, b.min.value, b.max.value)
    else if IsBounded(a) && OneSign(o, b) then QuotientHull(a, b)
    else EVERYTHING
  }

  /** A narrow signed quotient wraps only when the least value is divided by -1. */
  ghost predicate QuotientFits(t: Type, a: Interval, b: Interval, out: Env)
    requires IsBounded(b)
  {
    IsNarrow(t) && !IsUInt(t) ==>
      || (a.min.Some? && Eval(a.min.value, out) > Lo(t))
      || !(Eval(b.min.value, out) <= -1 <= Eval(b.max.value, out))
  }

  ghost predicate DivGuard(e: Expr, a: Interval, b: Interval, out: Env)
    requires e.Bin?
  {
    IsBounded(b) && !(a == Point(e.a) && b == Point(e.b)) ==>
      && HonestConst(b.min.value) && HonestConst(b.max.value) && QuotientFits(TypeOf(e), a, b, out)
  }

  lemma {:induction false} QuotientInRange(t: Type, x: int, b: int)
    requires InRange(t, x) && InRange(t, b) && b != 0
    requires IsNarrow(t) && !IsUInt(t) ==> x > Lo(t) || b != -1
    ensures InRange(t, x / b)
  {
    DivShrinks(x, b);
  }

  lemma {:induction false} QuotientEnd(x: Expr, b: Expr, t: Type, out: Env)
    requires End(x, t, out) && End(b, t, out) && Eval(b, out) != 0
    requires IsNarrow(t) && !IsUInt(t) ==> Eval(x, out) > Lo(t) || Eval(b, out) != -1
    ensures End(Bin(Div, x, b), t, out) && Eval(Bin(Div, x, b), out) == Eval(x, out) / Eval(b, out)
  {
    BinEnd(Div, x, b, t, out);
    QuotientInRange(t, Eval(x, out), Eval(b, out));
  }

  /** No quotient of a present end of `a` by `b` wraps. */
  ghost predicate QuotientsFit(t: Type, a: Interval, b: int, out: Env) {
    IsNarrow(t) && !IsUInt(t) && b == -1 ==>
      (a.min.Some? ==> Eval(a.min.value, out) > Lo(t)) && (a.max.Some? ==> Eval(a.max.value, out) > Lo(t))
  }

  lemma {:induction false} QuotientSound(t: Type, a: Interval, b1: Expr, b2: Expr, va: int, out: Env)
    requires Holds(a, t, va, out) && End(b1, t, out) && End(b2, t, out) && HonestConst(b1)
    requires Eval(b1, out) == Eval(b2, out) != 0 && QuotientsFit(t, a, Eval(b1, out), out)
    ensures Holds(QuotientRule(t, a, b1, b2), t, va / Eval(b1, out), out)
  {
    HonestSign(b1, out);
    FineInRange(b1, out);
    LowQuotient(t, a, b1, va, out);
    HighQuotient(t, a, b2, va, out);
    if IsPositiveConst(b1) || IsUInt(t) || IsNegativeConst(b1) || !IsBounded(a) {
    } else {
      QuotientBySign(t, Bin(Div, a.min.value, b1), Bin(Div, a.max.value, b2), b1, va, out);
    }
  }

  /** The quotient of a present lower end bounds the quotient on the side that the divisor's sign says. */
  lemma {:induction false} LowQuotient(t: Type, a: Interval, b: Expr, va: int, out: Env)
    requires Holds(a, t, va, out) && End(b, t, out) && Eval(b, out) != 0 && QuotientsFit(t, a, Eval(b, out), out)
    ensures a.min.Some? ==> var e := Bin(Div, a.min.value, b);
      && End(e, t, out)
      && (Eval(b, out) > 0 ==> Eval(e, out) <= va / Eval(b, out))
      && (Eval(b, out) < 0 ==> va / Eval(b, out) <= Eval(e, out))
  {
    if a.min.Some? {
      QuotientEnd(a.min.value, b, t, out);
      DivBetween(Eval(a.min.value, out), Eval(a.min.value, out), va, Eval(b, out));
    }
  }

  lemma {:induction false} HighQuotient(t: Type, a: Interval, b: Expr, va: int, out: Env)
    requires Holds(a, t, va, out) && End(b, t, out) && Eval(b, out) != 0 && QuotientsFit(t, a, Eval(b, out), out)
    ensures a.max.Some? ==> var e := Bin(Div, a.max.value, b);
      && End(e, t, out)
      && (Eval(b, out) > 0 ==> va / Eval(b, out) <= Eval(e, out))
      && (Eval(b, out) < 0 ==> Eval(e, out) <= va / Eval(b, out))
  {
    if a.max.Some? {
      QuotientEnd(a.max.value, b, t, out);
      DivBetween(va, va, Eval(a.max.value, out), Eval(b, out));
    }
  }

  lemma {:induction false} QuotientBySign(t: Type, e1: Expr, e2: Expr, b: Expr, va: int, out: Env)
    requires End(e1, t, out) && End(e2, t, out) && End(b, t, out) && Eval(b, out) != 0
    requires var q := va / Eval(b, out);
      if Eval(b, out) > 0 then Eval(e1, out) <= q <= Eval(e2, out) else Eval(e2, out) <= q <= Eval(e1, out)
    ensures var cmp := Cmp(GT, b, Const(TypeOf(b), 0));
      Holds(Interval(Some(Select(cmp, e1, e2)), Some(Select(cmp, e2, e1))), t, va / Eval(b, out), out)
  {
    var cmp := Cmp(GT, b, Const(t, 0));
    CmpEnd(GT, b, Const(t, 0), t, out);
    SelectEnd(cmp, e1, e2, t, out);
    SelectEnd(cmp, e2, e1, t, out);
  }

  lemma {:induction false} StaticSignMeans(o: Oracle, x: Expr, t: Type, out: Env)
    requires OracleOk(o) && End(x, t, out) && HonestConst(x)
    ensures StaticSign(o, x) == 1 ==> Eval(x, out) > 0
    ensures StaticSign(o, x) == -1 ==> Eval(x, out) < 0
    ensures StaticSign(o, x) in {-1, 0, 1}
  {
    var zero := Const(t, 0);
    HonestSign(x, out);
    CmpEnd(GT, x, zero, t, out);
    CmpEnd(LT, x, zero, t, out);
    assert SimplifyOk(o, Cmp(GT, x, zero), out) && SimplifyOk(o, Cmp(LT, x, zero), out);
  }

  lemma {:induction false} DivCorners(a1: int, a2: int, x: int, b1: int, b2: int, y: int)
    requires a1 <= x <= a2 && b1 <= y <= b2 && (b1 > 0 || b2 < 0)
    ensures Min4(a1 / b1, a2 / b1, a1 / b2, a2 / b2) <= x / y <= Max4(a1 / b1, a2 / b1, a1 / b2, a2 / b2)
  {
    DivisorBetween(x, b1, b2, y);
    DivBetween(x, a1, a2, b1);
    DivBetween(x, a1, a2, b2);
    BetweenCorners(x / y, x / b1, x / b2, a1 / b1, a2 / b1, a1 / b2, a2 / b2);
  }

  lemma {:induction false} QuotientHullHolds(o: Oracle, t: Type, a: Interval, b: Interval, va: int, vb: int, out: Env)
    requires OracleOk(o) && IsBounded(a) && IsBounded(b) && Holds(a, t, va, out) && Holds(b, t, vb, out)
    requires OneSign(o, b) && HonestConst(b.min.value) && HonestConst(b.max.value) && QuotientFits(t, a, b, out)
      && vb != 0
    ensures Holds(QuotientHull(a, b), t, va / vb, out)
  {
    StaticSignMeans(o, b.min.value, t, out);
    StaticSignMeans(o, b.max.value, t, out);
    QuotientEnd(a.min.value, b.min.value, t, out);
    QuotientEnd(a.max.value, b.min.value, t, out);
    QuotientEnd(a.min.value, b.max.value, t, out);
    QuotientEnd(a.max.value, b.max.value, t, out);
    DivCorners(Eval(a.min.value, out), Eval(a.max.value, out), va, Eval(b.min.value, out), Eval(b.max.value, out), vb);
    HullHolds(Bin(Div, a.min.value, b.min.value), Bin(Div, a.max.value, b.min.value),
              Bin(Div, a.min.value, b.max.value), Bin(Div, a.max.value, b.max.value), t, va / vb, out);
  }

  lemma {:induction false} ProvedEqual(o: Oracle, x: Expr, y: Expr, t: Type, out: Env)
    requires OracleOk(o) && End(x, t, out) && End(y, t, out) && o.prove(Cmp(EQ, x, y))
    ensures Eval(x, out) == Eval(y, out)
  {
    CmpEnd(EQ, x, y, t, out);
    assert ProveOk(o, Cmp(EQ, x, y), out);
  }

  lemma {:induction false} DivSound(o: Oracle, e: Expr, a: Interval, b: Interval, va: int, vb: int, out: Env)
    requires OracleOk(o) && e.Bin? && e.op.Div? && vb != 0 && DivGuard(e, a, b, out)
    requires Holds(a, TypeOf(e), va, out) && Holds(b, TypeOf(e), vb, out)
    requires InRange(TypeOf(e), va) && InRange(TypeOf(e), vb)
    ensures Holds(DivRule(o, e, a, b), TypeOf(e), Wrap(TypeOf(e), va / vb), out)
  {
    var t := TypeOf(e);
    if !IsBounded(b) {
    } else if a == Point(e.a) && b == Point(e.b) {
      PointsHold(Div, t, e.a, e.b, va, vb, out);
    } else {
      assert QuotientFits(t, a, b, out);
      QuotientInRange(t, va, vb);
      if o.prove(Cmp(EQ, b.min.value, b.max.value)) {
        ProvedEqual(o, b.min.value, b.max.value, t, out);
        QuotientSound(t, a, b.min.value, b.max.value, va, out);
      } else if IsBounded(a) && OneSign(o, b) {
        QuotientHullHolds(o, t, a, b, va, vb, out);
      }
    }
  }

  // ---- modulus ----

  /** The unsigned type of the magnitude; 32-bit and wider values do not overflow here. */
  function Unsigned(t: Type): Type {
    match t
    case Int8 => UInt8
    case Int16 => UInt16
    case _ => t
  }

  function Abs(x: Expr): Expr {
    Cast(Unsigned(TypeOf(x)), Select(Cmp(LT, x, Const(TypeOf(x), 0)), Bin(Sub, Const(TypeOf(x), 0), x), x))
  }

  /** The operand types meet in the signed one. */
  function LargestRemainder(t: Type, b1: Expr, b2: Expr): Expr {
    Bin(Sub, Cast(t, Bin(Max, Abs(b1), Abs(b2))), Const(t, 1))
  }

  function ModRule(e: Expr, a: Interval, b: Interval): Interval
    requires e.Bin?
  {
    var t := TypeOf(e);
    if !IsBounded(b) then b
    else if a == Point(e.a) && b == Point(e.b) then Point(e)
    else if IsPoint(a) && IsPoint(b) then Point(Bin(Mod, a.min.value, b.min.value))
    else if IsUInt(t) || IsPositiveConst(b.min.value) then
      Interval(Some(Const(t, 0)), Some(Bin(Sub, b.max.value, Const(t, 1))))
    else Interval(Some(Const(t, 0)), Some(LargestRemainder(t, b.min.value, b.max.value)))
  }

  /** A half-bounded divisor's own interval is returned, which need not hold the remainder. */
  predicate ModGuard(b: Interval) {
    (IsBounded(b) && HonestConst(b.min.value)) || b == EVERYTHING
  }

  function Magnitude(v: int): int { if v < 0 then -v else v }

  lemma {:induction false} AbsMeans(x: Expr, t: Type, out: Env)
    requires End(x, t, out)
    ensures End(Abs(x), Unsigned(t), out) && Eval(Abs(x), out) == Magnitude(Eval(x, out))
  {
    var zero := Const(t, 0);
    FineInRange(x, out);
    CmpEnd(LT, x, zero, t, out);
    BinEnd(Sub, zero, x, t, out);
    SelectEnd(Cmp(LT, x, zero), Bin(Sub, zero, x), x, t, out);
    var v := Eval(x, out);
    assert Eval(Abs(x), out) == Wrap(Unsigned(t), if v < 0 then Wrap(t, 0 - v) else v);
    WrappedMagnitude(t, v);
  }

  /** Casting the wrapped negation to the unsigned type recovers the magnitude, even of the least value. */
  lemma WrappedMagnitude(t: Type, v: int)
    requires InRange(t, v)
    ensures Wrap(Unsigned(t), if v < 0 then Wrap(t, 0 - v) else v) == Magnitude(v)
  {
    if t.Int8? && v == -128 { assert Wrap(t, 128) == -128; }
    if t.Int16? && v == -32768 { assert Wrap(t, 32768) == -32768; }
  }

  /** Taking one off the wrapped magnitude lands in range, even for the least value. */
  lemma WrappedPred(t: Type, m: int)
    requires 1 <= m && (IsNarrow(t) ==> m <= if IsUInt(t) then Hi(t) else -Lo(t))
    ensures Wrap(t, Wrap(t, m) - 1) == m - 1
  {
    if t.Int8? && m == 128 {
      assert Wrap(t, 128) == -128 && Wrap(t, -129) == 127;
    } else if t.Int16? && m == 32768 {
      assert Wrap(t, 32768) == -32768 && Wrap(t, -32769) == 32767;
    } else {
      assert InRange(t, m) && InRange(t, m - 1);
    }
  }

  lemma {:induction false} RemainderMeans(t: Type, b1: Expr, b2: Expr, out: Env)
    requires End(b1, t, out) && End(b2, t, out)
    requires MaxInt(Magnitude(Eval(b1, out)), Magnitude(Eval(b2, out))) >= 1
    ensures End(LargestRemainder(t, b1, b2), t, out)
    ensures Eval(LargestRemainder(t, b1, b2), out) == MaxInt(Magnitude(Eval(b1, out)), Magnitude(Eval(b2, out))) - 1
  {
    var u, one := Unsigned(t), Const(t, 1);
    FineInRange(b1, out);
    FineInRange(b2, out);
    AbsMeans(b1, t, out);
    AbsMeans(b2, t, out);
    BinMeans(Max, Abs(b1), Abs(b2), u, out);
    var m := Bin(Max, Abs(b1), Abs(b2));
    assert Eval(Cast(t, m), out) == Wrap(t, Eval(m, out));
    BinEnd(Sub, Cast(t, m), one, t, out);
    WrappedPred(t, Eval(m, out));
  }

  lemma {:induction false} RemainderRange(t: Type, va: int, vb: int)
    requires vb != 0 && InRange(t, vb)
    ensures InRange(t, va % vb) && 0 <= va % vb < Magnitude(vb)
  {
  }

  /** The remainder is below the divisor's greatest magnitude. */
  lemma {:induction false} RemainderHolds(t: Type, b: Interval, va: int, vb: int, out: Env)
    requires vb != 0 && IsBounded(b) && HonestConst(b.min.value) && Holds(b, t, vb, out) && InRange(t, vb)
    ensures var hi := if IsUInt(t) || IsPositiveConst(b.min.value) then Bin(Sub, b.max.value, Const(t, 1))
                      else LargestRemainder(t, b.min.value, b.max.value);
      End(hi, t, out) && va % vb <= Eval(hi, out)
  {
    RemainderRange(t, va, vb);
    if IsUInt(t) || IsPositiveConst(b.min.value) {
      HonestSign(b.min.value, out);
      FineInRange(b.max.value, out);
      BinEnd(Sub, b.max.value, Const(t, 1), t, out);
    } else {
      RemainderMeans(t, b.min.value, b.max.value, out);
    }
  }

  lemma {:induction false} ModSound(e: Expr, a: Interval, b: Interval, va: int, vb: int, out: Env)
    requires e.Bin? && e.op.Mod? && vb != 0 && ModGuard(b)
    requires Holds(a, TypeOf(e), va, out) && Holds(b, TypeOf(e), vb, out)
    requires InRange(TypeOf(e), va) && InRange(TypeOf(e), vb)
    ensures Holds(ModRule(e, a, b), TypeOf(e), Wrap(TypeOf(e), va % vb), out)
  {
    var t := TypeOf(e);
    RemainderRange(t, va, vb);
    if !IsBounded(b) {
    } else if IsPoint(a) && IsPoint(b) {
      PointsHold(Mod, t, a.min.value, b.min.value, va, vb, out);
    } else {
      RemainderHolds(t, b, va, vb, out);
    }
  }
}
