/**
 * The sign of a constant is read through casts.  A cast that wraps may change it; here is
 * exactly when multiplying, dividing and taking remainders by such a constant is still
 * bounded rightly.
 */
module BoundsSigns {
  import opened Wrappers
  import opened Ir
  import opened Intervals
  import opened BoundsArith
  import opened BoundsMulDiv
  import opened BoundsDivMod
  import opened Euclid

  /** The sign seen under the casts is not opposite to that of the value. */
  predicate SignKept(c: Expr) {
    (IsPositiveConst(c) ==> Eval(c, map[]) >= 0) && (IsNegativeConst(c) ==> Eval(c, map[]) <= 0)
  }

  /** A constant, as it occurs as an operand of type `t`. */
  predicate Operand(c: Expr, t: Type) { IsConst(c) && End(c, t, map[]) && !IsNarrow(t) }

  function Range(t: Type, l: int, h: int): Interval { Interval(Some(Const(t, l)), Some(Const(t, h))) }

  lemma {:induction false} ConstSigns(c: Expr)
    requires IsConst(c)
    ensures IsZero(c) || IsPositiveConst(c) || IsNegativeConst(c)
    ensures IsZero(c) ==> !IsPositiveConst(c) && !IsNegativeConst(c) && Eval(c, map[]) == 0
    ensures !(IsPositiveConst(c) && IsNegativeConst(c))
  {
    ZeroOne(c, map[]);
    if c.Cast? { ConstSigns(c.arg); }
  }

  // ---- multiplication ----

  ghost predicate ScaledRightly(o: Oracle, e: Expr, c: Expr, l: int, h: int)
    requires e.Bin?
  {
    var t, v := TypeOf(e), Eval(c, map[]);
    forall x {:trigger x * v} :: l <= x <= h ==> Holds(MulRule(o, e, Range(t, l, h), Point(c)), t, x * v, map[])
  }

  lemma {:induction false} ScaledEnds(o: Oracle, e: Expr, c: Expr, l: int, h: int, y: int)
    requires e.Bin? && Operand(c, TypeOf(e)) && l < h
    ensures var t, v := TypeOf(e), Eval(c, map[]);
      var low, high := if IsNegativeConst(c) then h * v else l * v, if IsNegativeConst(c) then l * v else h * v;
      Holds(MulRule(o, e, Range(t, l, h), Point(c)), t, y, map[]) <==> low <= y <= high
  {
    var t, v := TypeOf(e), Eval(c, map[]);
    ConstSigns(c);
    assert MulRule(o, e, Range(t, l, h), Point(c)) == ScaleRule(t, Range(t, l, h), c);
    TimesEnd(Const(t, l), c, t, map[]);
    TimesEnd(Const(t, h), c, t, map[]);
    if IsZero(c) { assert l * v == 0 && h * v == 0; }
  }

  lemma {:induction false} ScaleSignIff(o: Oracle, e: Expr, c: Expr, l: int, h: int)
    requires e.Bin? && Operand(c, TypeOf(e)) && l < h
    ensures ScaledRightly(o, e, c, l, h) <==> SignKept(c)
  {
    var t, v := TypeOf(e), Eval(c, map[]);
    ConstSigns(c);
    if SignKept(c) {
      forall x | l <= x <= h ensures Holds(MulRule(o, e, Range(t, l, h), Point(c)), t, x * v, map[]) {
        ScaledEnds(o, e, c, l, h, x * v);
        ScaleLe(l, x, v);
        ScaleLe(x, h, v);
      }
    } else {
      Spread(l, h, v);
      var p := l * v;
      ScaledEnds(o, e, c, l, h, p);
      assert !Holds(MulRule(o, e, Range(t, l, h), Point(c)), t, p, map[]);
    }
  }

  lemma {:induction false} Spread(l: int, h: int, v: int)
    requires l < h && v != 0
    ensures (v < 0 ==> h * v < l * v) && (v > 0 ==> l * v < h * v)
  {
    assert h * v - l * v == (h - l) * v;
    if v < 0 { assert (h - l) * v < 0; } else { assert (h - l) * v > 0; }
  }

  // ---- division ----

  ghost predicate DividedRightly(o: Oracle, e: Expr, c: Expr, l: int, h: int)
    requires e.Bin? && Eval(c, map[]) != 0
  {
    var t, v := TypeOf(e), Eval(c, map[]);
    forall x {:trigger x / v} :: l <= x <= h ==> Holds(DivRule(o, e, Range(t, l, h), Point(c)), t, x / v, map[])
  }

  lemma {:induction false} DividedEnds(o: Oracle, e: Expr, c: Expr, l: int, h: int, y: int)
    requires e.Bin? && Operand(c, TypeOf(e)) && l < h && Eval(c, map[]) != 0 && o.prove(Cmp(EQ, c, c))
    ensures var t, v := TypeOf(e), Eval(c, map[]);
      var low, high := if IsNegativeConst(c) then h / v else l / v, if IsNegativeConst(c) then l / v else h / v;
      Holds(DivRule(o, e, Range(t, l, h), Point(c)), t, y, map[]) <==> low <= y <= high
  {
    var t, v := TypeOf(e), Eval(c, map[]);
    ConstSigns(c);
    assert DivRule(o, e, Range(t, l, h), Point(c)) == QuotientRule(t, Range(t, l, h), c, c);
    BinEnd(Div, Const(t, l), c, t, map[]);
    BinEnd(Div, Const(t, h), c, t, map[]);
  }

  /** A quotient by a constant of the wrong sign is bounded rightly only if it does not vary. */
  lemma {:induction false} QuotientSignIff(o: Oracle, e: Expr, c: Expr, l: int, h: int)
    requires e.Bin? && Operand(c, TypeOf(e)) && l < h && Eval(c, map[]) != 0 && o.prove(Cmp(EQ, c, c))
    ensures DividedRightly(o, e, c, l, h) <==> SignKept(c) || l / Eval(c, map[]) == h / Eval(c, map[])
  {
    var t, v := TypeOf(e), Eval(c, map[]);
    var i := DivRule(o, e, Range(t, l, h), Point(c));
    ConstSigns(c);
    if SignKept(c) || l / v == h / v {
      forall x | l <= x <= h ensures Holds(i, t, x / v, map[]) {
        DividedEnds(o, e, c, l, h, x / v);
        DivBetween(l, l, x, v);
        DivBetween(x, x, h, v);
      }
    } else {
      var p := l / v;
      DividedEnds(o, e, c, l, h, p);
      DivBetween(l, l, h, v);
      assert !Holds(i, t, p, map[]);
    }
  }

  // ---- modulus ----

  ghost predicate ReducedRightly(e: Expr, c: Expr, l: int, h: int)
    requires e.Bin? && Eval(c, map[]) != 0
  {
    var t, v := TypeOf(e), Eval(c, map[]);
    forall x {:trigger x % v} :: l <= x <= h ==> Holds(ModRule(e, Range(t, l, h), Point(c)), t, x % v, map[])
  }

  lemma {:induction false} RemainderSignIff(e: Expr, c: Expr, l: int, h: int)
    requires e.Bin? && Operand(c, TypeOf(e)) && l < h && Eval(c, map[]) != 0
    ensures ReducedRightly(e, c, l, h) <==> (IsPositiveConst(c) ==> Eval(c, map[]) > 0)
  {
    var t, v := TypeOf(e), Eval(c, map[]);
    var i := ModRule(e, Range(t, l, h), Point(c));
    if IsPositiveConst(c) {
      BinEnd(Sub, c, Const(t, 1), t, map[]);
      assert forall x {:trigger x % v} :: 0 <= x % v;
      if v > 0 {
        assert forall x {:trigger x % v} :: x % v <= v - 1;
      } else {
        assert l % v >= 0;
        assert !Holds(i, t, l % v, map[]);
      }
    } else {
      RemainderMeans(t, c, c, map[]);
      forall x | l <= x <= h ensures Holds(i, t, x % v, map[]) { RemainderRange(t, x, v); }
    }
  }

  /** 200 cast to 8 bits is negative but read as positive. */
  function WrappedConst(): Expr { Cast(Int32, Cast(Int8, Const(Int32, 200))) }

  lemma {:induction false} CastSignEscapes(o: Oracle, e: Expr)
    requires e.Bin? && TypeOf(e) == Int32 && o.prove(Cmp(EQ, WrappedConst(), WrappedConst()))
    ensures Eval(WrappedConst(), map[]) == -56
    ensures !ScaledRightly(o, e, WrappedConst(), 0, 1)
    ensures !DividedRightly(o, e, WrappedConst(), 0, 56)
    ensures !ReducedRightly(e, WrappedConst(), 0, 1)
  {
    var c := WrappedConst();
    var inner := Cast(Int8, Const(Int32, 200));
    assert Eval(Const(Int32, 200), map[]) == 200;
    assert Eval(inner, map[]) == Wrap(Int8, 200) == -56;
    assert Eval(c, map[]) == Wrap(Int32, -56) == -56;
    assert IsPositiveConst(inner) && IsConst(inner) && Fine(inner, map[]);
    ScaleSignIff(o, e, c, 0, 1);
    QuotientSignIff(o, e, c, 0, 56);
    RemainderSignIff(e, c, 0, 1);
  }
}
