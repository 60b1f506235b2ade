/**
 * Where the interval rules stop being sound: for each guard of the soundness theorem, an
 * input that escapes its interval, and for the arithmetic guards the exact condition.
 */
module BoundsLimits {
  import opened Wrappers
  import opened Ir
  import opened Intervals
  import opened BoundsArith
  import opened BoundsMulDiv
  import opened BoundsDivMod
  import opened BoundsLogic
  import opened BoundsCast
  import opened Bounds
  import opened Euclid

  // ---- modulus by a half-bounded divisor ----

  /** Every remainder by a divisor in `b` lies in the interval the rule returns. */
  ghost predicate ModHolds(e: Expr, b: Interval)
    requires e.Bin?
  {
    forall x: int, y: int {:trigger x % y} :: y != 0 && Holds(b, Int32, y, map[]) ==>
      Holds(ModRule(e, EVERYTHING, b), Int32, x % y, map[])
  }

  /** With only a lower end the divisor's interval is returned, right exactly when the end is not positive. */
  lemma ModLowerOnlyIff(e: Expr, l: int)
    requires e.Bin?
    ensures ModHolds(e, Interval(Some(Const(Int32, l)), None)) <==> l <= 0
  {
    var b := Interval(Some(Const(Int32, l)), None);
    if l > 0 {
      assert 0 % l == 0;
      assert Holds(b, Int32, l, map[]) && !Holds(ModRule(e, EVERYTHING, b), Int32, 0 % l, map[]);
    }
  }

  /** With only an upper end it is never right: a large negative divisor leaves a large remainder. */
  lemma ModUpperOnlyNever(e: Expr, u: int)
    requires e.Bin?
    ensures !ModHolds(e, Interval(None, Some(Const(Int32, u))))
  {
    var b := Interval(None, Some(Const(Int32, u)));
    var m := if u < 0 then -u else u;
    var y := -(m + 2);
    RemainderOfSmall(m + 1, y);
    assert Holds(b, Int32, y, map[]);
    assert !Holds(ModRule(e, EVERYTHING, b), Int32, (m + 1) % y, map[]);
  }

  lemma RemainderOfSmall(x: int, y: int)
    requires 0 <= x < -y
    ensures x % y == x
  {
    assert x % y == x % (-y);
  }

  // ---- narrow signed division by -1 ----

  /** The quotient of `x` by -1 lies in the interval found for [a1, a2] divided by -1. */
  ghost predicate NegatedHolds(o: Oracle, e: Expr, t: Type, a1: int, a2: int, x: int)
    requires e.Bin?
  {
    Holds(DivRule(o, e, Interval(Some(Const(t, a1)), Some(Const(t, a2))), Point(Const(t, -1))), t, Wrap(t, x / -1),
          map[])
  }

  /** Dividing [a1, a2] by -1 is bounded rightly exactly when the least value of the type is not inside, or alone. */
  lemma {:induction false} DivByMinusOneIff(o: Oracle, e: Expr, t: Type, a1: int, a2: int)
    requires t.Int8? || t.Int16?
    requires e.Bin? && TypeOf(e) == t && e.b == Const(t, -1) && !e.a.Const?
    requires Lo(t) <= a1 <= a2 <= Hi(t) && o.prove(Cmp(EQ, Const(t, -1), Const(t, -1)))
    ensures (forall x :: a1 <= x <= a2 ==> NegatedHolds(o, e, t, a1, a2, x)) <==> a1 > Lo(t) || a1 == a2
  {
    forall x ensures NegatedHolds(o, e, t, a1, a2, x) <==> Wrap(t, -a2) <= Wrap(t, -x) <= Wrap(t, -a1) {
      NegatedRange(o, e, t, a1, a2, x);
    }
    WrapsOnce(t, -a1);
    if a1 == Lo(t) && a1 < a2 {
      assert !NegatedHolds(o, e, t, a1, a2, a2);
    }
  }

  lemma {:induction false} NegatedRange(o: Oracle, e: Expr, t: Type, a1: int, a2: int, x: int)
    requires t.Int8? || t.Int16?
    requires e.Bin? && TypeOf(e) == t && e.b == Const(t, -1) && !e.a.Const?
    requires Lo(t) <= a1 <= a2 <= Hi(t) && o.prove(Cmp(EQ, Const(t, -1), Const(t, -1)))
    ensures NegatedHolds(o, e, t, a1, a2, x) <==> Wrap(t, -a2) <= Wrap(t, -x) <= Wrap(t, -a1)
  {
    var a, b := Interval(Some(Const(t, a1)), Some(Const(t, a2))), Point(Const(t, -1));
    var e1, e2 := Bin(Div, Const(t, a1), Const(t, -1)), Bin(Div, Const(t, a2), Const(t, -1));
    assert DivRule(o, e, a, b) == Interval(Some(e2), Some(e1));
    NegatedEnd(t, a1);
    NegatedEnd(t, a2);
    assert x / -1 == -x;
  }

  lemma {:induction false} NegatedEnd(t: Type, x: int)
    requires (t.Int8? || t.Int16?) && InRange(t, x)
    ensures var e := Bin(Div, Const(t, x), Const(t, -1)); End(e, t, map[]) && Eval(e, map[]) == Wrap(t, -x)
  {
    BinEnd(Div, Const(t, x), Const(t, -1), t, map[]);
    assert x / -1 == -x;
  }

  // ---- narrow sums and differences with one end ----

  lemma WrapsOnce(t: Type, v: int)
    requires IsNarrow(t)
    ensures var n := Hi(t) - Lo(t) + 1;
      && (Lo(t) - n <= v < Lo(t) ==> Wrap(t, v) == v + n)
      && (Hi(t) < v <= Hi(t) + n ==> Wrap(t, v) == v - n)
  {
    var n, u := Hi(t) - Lo(t) + 1, v - Lo(t);
    if -n <= u < 0 { RemainderIs(u, n, -1, u + n); }
    if n <= u < 2 * n { RemainderIs(u, n, 1, u - n); }
  }

  /** The values up to `end`, or from it on. */
  function Half(t: Type, upper: bool, end: int): Interval {
    if upper then Interval(None, Some(Const(t, end))) else Interval(Some(Const(t, end)), None)
  }

  predicate InHalf(t: Type, upper: bool, end: int, x: int) { InRange(t, x) && if upper then x <= end else end <= x }

  function SumRule(o: Oracle, op: BinOp, e: Expr, a: Interval, b: Interval): Interval
    requires e.Bin?
  {
    if op.Add? then AddRule(o, e, a, b) else SubRule(o, e, a, b)
  }

  /** What the rules are given: a narrow type, two values of it, and a proof that the known end does not overflow. */
  predicate HalfSum(o: Oracle, op: BinOp, e: Expr, t: Type, x: int, y: int) {
    && IsNarrow(t) && (op.Add? || op.Sub?) && e.Bin? && TypeOf(e) == t
    && InRange(t, x) && InRange(t, y) && InRange(t, DoBin(op, x, y))
      && o.prove(NoOverflow(op, Const(t, x), Const(t, y)))
  }

  /** `x` plus or minus `k` lies in the interval found. */
  ghost predicate ShiftHolds(o: Oracle, op: BinOp, e: Expr, t: Type, upper: bool, end: int, k: int, x: int)
    requires e.Bin?
  {
    Holds(SumRule(o, op, e, Half(t, upper, end), Point(Const(t, k))), t, Wrap(t, DoBin(op, x, k)), map[])
  }

  lemma {:induction false} ShiftRange(o: Oracle, op: BinOp, e: Expr, t: Type, upper: bool, end: int, k: int, v: int)
    requires HalfSum(o, op, e, t, end, k) && Subtractable(o, op, t, upper, k, end)
    ensures Holds(SumRule(o, op, e, Half(t, upper, end), Point(Const(t, k))), t, v, map[])
      <==> if upper then v <= DoBin(op, end, k) else DoBin(op, end, k) <= v
  {
    var a, b, sum := Half(t, upper, end), Point(Const(t, k)), Bin(op, Const(t, end), Const(t, k));
    assert SumRule(o, op, e, a, b) == if upper then Interval(None, Some(sum)) else Interval(Some(sum), None);
    BinEnd(op, Const(t, end), Const(t, k), t, map[]);
  }

  /** An unsigned difference from a known lower end also needs a proof that it is not negative. */
  predicate Subtractable(o: Oracle, op: BinOp, t: Type, upper: bool, y: int, x: int) {
    op.Sub? && IsUInt(t) && !upper ==> o.prove(Cmp(LE, Const(t, y), Const(t, x)))
  }

  /** Shifting a half-bounded range is bounded rightly exactly when it moves away from the open side's limit. */
  lemma {:induction false} ShiftOneEndIff(o: Oracle, op: BinOp, e: Expr, t: Type, upper: bool, end: int, k: int)
    requires HalfSum(o, op, e, t, end, k) && Subtractable(o, op, t, upper, k, end)
    ensures (forall x :: InHalf(t, upper, end, x) ==> ShiftHolds(o, op, e, t, upper, end, k, x))
      <==> if upper == op.Add? then k >= 0 else k <= 0
  {
    forall x ensures ShiftHolds(o, op, e, t, upper, end, k, x) <==>
        if upper then Wrap(t, DoBin(op, x, k)) <= DoBin(op, end, k) else DoBin(op, end, k) <= Wrap(t, DoBin(op, x, k))
    {
      ShiftRange(o, op, e, t, upper, end, k, Wrap(t, DoBin(op, x, k)));
    }
    var limit := if upper then Lo(t) else Hi(t);
    WrapsOnce(t, DoBin(op, limit, k));
    if !(if upper == op.Add? then k >= 0 else k <= 0) {
      assert InHalf(t, upper, end, limit) && !ShiftHolds(o, op, e, t, upper, end, k, limit);
    }
  }

  /** `k - x` lies in the interval found. */
  ghost predicate TakenHolds(o: Oracle, e: Expr, t: Type, upper: bool, end: int, k: int, x: int)
    requires e.Bin?
  {
    Holds(SubRule(o, e, Point(Const(t, k)), Half(t, upper, end)), t, Wrap(t, k - x), map[])
  }

  lemma {:induction false} TakenRange(o: Oracle, e: Expr, t: Type, upper: bool, end: int, k: int, v: int)
    requires HalfSum(o, Sub, e, t, k, end) && Subtractable(o, Sub, t, !upper, end, k)
    ensures Holds(SubRule(o, e, Point(Const(t, k)), Half(t, upper, end)), t, v, map[])
      <==> if upper then k - end <= v else v <= k - end
  {
    var a, b, diff := Point(Const(t, k)), Half(t, upper, end), Bin(Sub, Const(t, k), Const(t, end));
    assert SubRule(o, e, a, b) == if upper then Interval(Some(diff), None) else Interval(None, Some(diff));
    BinEnd(Sub, Const(t, k), Const(t, end), t, map[]);
  }

  /** Subtracting a half-bounded range is bounded rightly exactly when its open side's limit does not wrap. */
  lemma {:induction false} TakenOneEndIff(o: Oracle, e: Expr, t: Type, upper: bool, end: int, k: int)
    requires HalfSum(o, Sub, e, t, k, end) && Subtractable(o, Sub, t, !upper, end, k)
    ensures (forall x :: InHalf(t, upper, end, x) ==> TakenHolds(o, e, t, upper, end, k, x))
      <==> if upper then k <= Hi(t) + Lo(t) else Lo(t) + Hi(t) <= k
  {
    forall x ensures TakenHolds(o, e, t, upper, end, k, x) <==>
        if upper then k - end <= Wrap(t, k - x) else Wrap(t, k - x) <= k - end
    {
      TakenRange(o, e, t, upper, end, k, Wrap(t, k - x));
    }
    var limit := if upper then Lo(t) else Hi(t);
    WrapsOnce(t, k - limit);
    if !(if upper then k <= Hi(t) + Lo(t) else Lo(t) + Hi(t) <= k) {
      assert InHalf(t, upper, end, limit) && !TakenHolds(o, e, t, upper, end, k, limit);
    }
  }

  // ---- a let that shadows ----

  function X(): Expr { Var(Int32, "x") }

  /** let x = 0 - x in x + 1 */
  function Shadowing(): Expr {
    Let("x", Bin(Sub, Const(Int32, 0), X()), Bin(Add, X(), Const(Int32, 1)))
  }

  function XMin(): Expr { Var(Int32, "x.min") }

  function XMax(): Expr { Var(Int32, "x.max") }

  function XScope(): Scope { map["x" := Interval(Some(XMin()), Some(XMax()))] }

  lemma Names()
    ensures MinName("x") == "x.min" && MaxName("x") == "x.max" && "x.min" != "x.max" && "x" != "x.min" && "x" != "x.max"
  {
    NamesDiffer("x");
  }

  /** The lower bound reported for the shadowing let, whose inner value reads the captured x.max. */
  function Captured(): Expr {
    Let("x.max", Bin(Sub, Const(Int32, 0), XMin()),
        Let("x.min", Bin(Sub, Const(Int32, 0), XMax()), Bin(Add, XMin(), Const(Int32, 1))))
  }

  lemma CapturedBound(o: Oracle, depth: nat)
    ensures BoundsOf(o, depth, Shadowing(), XScope(), false).min == Some(Captured())
  {
    Names();
    var one := Const(Int32, 1);
    var value, body := Bin(Sub, Const(Int32, 0), X()), Bin(Add, X(), one);
    var val := BoundsOf(o, depth, value, XScope(), false);
    assert BoundsOf(o, depth, X(), XScope(), false) == Interval(Some(XMin()), Some(XMax()));
    var lo, hi := Bin(Sub, Const(Int32, 0), XMax()), Bin(Sub, Const(Int32, 0), XMin());
    assert BoundsOf(o, depth, Const(Int32, 0), XScope(), false) == Point(Const(Int32, 0));
    assert value.op.Sub? && val == BinRule(o, value, Point(Const(Int32, 0)), Interval(Some(XMin()), Some(XMax())));
    assert val == SubRule(o, value, Point(Const(Int32, 0)), Interval(Some(XMin()), Some(XMax())));
    assert val == Interval(Some(lo), Some(hi));
    assert lo != hi;
    var inner := XScope()["x" := LetVar("x", Int32, val)];
    assert LetVar("x", Int32, val) == Interval(Some(XMin()), Some(XMax()));
    var i := BoundsOf(o, depth, body, inner, false);
    assert BoundsOf(o, depth, X(), inner, false) == Interval(Some(XMin()), Some(XMax()));
    assert BoundsOf(o, depth, one, inner, false) == Point(one);
    assert body.op.Add? && i == BinRule(o, body, Interval(Some(XMin()), Some(XMax())), Point(one));
    assert i == AddRule(o, body, Interval(Some(XMin()), Some(XMax())), Point(one));
    var low := Bin(Add, XMin(), one);
    assert i == Interval(Some(low), Some(Bin(Add, XMax(), one)));
    assert Uses(XMin(), "x.min");
    assert Uses(low, "x.min");
    assert Uses(XMax(), "x.max");
    assert Uses(lo, "x.max");
    assert Uses(Let("x.min", lo, low), "x.max");
    assert WrapEnd("x", val, low) == Captured();
  }

  /** With x in [0, 10] outside, the shadowing let takes the value -4 at x = 5, below its reported lower bound 1. */
  lemma ShadowedLetEscapes(o: Oracle, depth: nat)
    ensures var env, out: Env := map["x" := 5], map["x.min" := 0, "x.max" := 10];
      && InScope(Shadowing(), map[], XScope(), env, out) && Eval(Shadowing(), env) == -4
      && BoundsOf(o, depth, Shadowing(), XScope(), false).min == Some(Captured()) && Eval(Captured(), out) == 1
  {
    Names();
    var env, out: Env := map["x" := 5], map["x.min" := 0, "x.max" := 10];
    CapturedBound(o, depth);
    var value := Bin(Sub, Const(Int32, 0), X());
    assert Eval(value, env) == -5;
    assert Eval(Bin(Add, X(), Const(Int32, 1)), env["x" := -5]) == -4;
    assert Eval(XMin(), out) == 0;
    assert Eval(Bin(Sub, Const(Int32, 0), XMin()), out) == 0;
    var out1 := out["x.max" := 0];
    assert Eval(XMax(), out1) == 0;
    assert Eval(Bin(Sub, Const(Int32, 0), XMax()), out1) == 0;
    assert Eval(Bin(Add, XMin(), Const(Int32, 1)), out1["x.min" := 0]) == 1;
    assert InScope(X(), map[], XScope(), env, out) && InScope(X(), map["x" := Int32], XScope(), env, out);
    assert InScope(value, map[], XScope(), env, out);
  }

  // ---- a narrowing cast analyses outer bounds in the inner scope ----

  function Y(): Expr { Var(Int32, "y") }

  function Z(): Expr { Var(Int32, "z") }

  function Ends(l: int, h: int): Interval { Interval(Some(Const(Int32, l)), Some(Const(Int32, h))) }

  /** x lies between the outer y and z; inside, y and z are other variables, of the given ranges. */
  function InnerScope(p: int, q: int, r: int, s: int): Scope {
    map["x" := Interval(Some(Y()), Some(Z())), "y" := Ends(p, q), "z" := Ends(r, s)]
  }

  ghost predicate CastHolds(o: Oracle, depth: nat, to: Type, scope: Scope, x: int, out: Env) {
    Holds(BoundsOf(o, depth, Cast(to, X()), scope, false), to, Wrap(to, x), out)
  }

  lemma {:induction false} WrapAlong(to: Type, v: int, d: nat)
    requires IsNarrow(to)
    ensures Wrap(to, v) + d <= Hi(to) ==> Wrap(to, v + d) == Wrap(to, v) + d
    ensures Wrap(to, v) + d == Hi(to) + 1 ==> Wrap(to, v + d) == Lo(to)
  {
    var n, u := Hi(to) - Lo(to) + 1, v - Lo(to);
    ModAlong(u, n, d);
    assert Wrap(to, v) == u % n + Lo(to) && Wrap(to, v + d) == (u + d) % n + Lo(to);
  }

  lemma {:induction false} ModAlong(u: int, n: int, d: nat)
    requires n > 0
    ensures u % n + d < n ==> (u + d) % n == u % n + d
    ensures u % n + d == n ==> (u + d) % n == 0
  {
    var k, m := u / n, u % n;
    assert u == n * k + m;
    if m + d < n {
      RemainderIs(u + d, n, k, m + d);
    } else if m + d == n {
      assert n * (k + 1) == n * k + n;
      RemainderIs(u + d, n, k + 1, 0);
    }
  }

  lemma {:induction false} RemainderIs(u: int, n: int, k: int, m: int)
    requires 0 <= m < n && u == n * k + m
    ensures u % n == m
  {
    DivBelow(u, n, k);
    DivBelow(u, n, k - 1);
    assert n * (k + 1) == n * k + n && n * (k - 1 + 1) == n * k;
    assert u == n * (u / n) + u % n;
  }

  lemma {:induction false} CastBounds(o: Oracle, depth: nat, to: Type, scope: Scope, p: int, q: int, r: int, s: int,
                                      v: int, out: Env)
    requires depth > 0 && IsNarrow(to) && InRange(to, p) && InRange(to, s) && scope == InnerScope(p, q, r, s)
    requires o.simplify(Y()) == Y() && o.simplify(Z()) == Z()
      && o.prove(FitsTest(Int32, to, Const(Int32, p), Const(Int32, s)))
    ensures Holds(BoundsOf(o, depth, Cast(to, X()), scope, false), to, v, out) <==> p <= v <= s
  {
    var e, a := Cast(to, X()), Interval(Some(Y()), Some(Z()));
    assert BoundsOf(o, depth, X(), scope, false) == a && Strips(e, a);
    assert BoundsOf(o, depth - 1, Y(), scope, true) == Ends(p, q)
      && BoundsOf(o, depth - 1, Z(), scope, true) == Ends(r, s);
    assert Again(o, depth, e, a, scope) == Ends(p, s);
    assert BoundsOf(o, depth, e, scope, false) == CastRule(o, e, a, Some(Const(Int32, p)), Some(Const(Int32, s)));
    CastMeans(to, Const(Int32, p), Int32, out);
    CastMeans(to, Const(Int32, s), Int32, out);
  }

  /**
   * Casting to a narrow type when the second analysis reads the inner y and z: right for every x
   * between the outer ones exactly when the type's whole range was found, or the outer range wraps
   * to a piece of the inner one.
   */
  lemma {:induction false} ReanalysedIff(o: Oracle, depth: nat, to: Type, p: int, q: int, r: int, s: int, out: Env)
    requires depth > 0 && IsNarrow(to) && InRange(to, p) && InRange(to, s) && Lookup(out, "y") <= Lookup(out, "z")
    requires o.simplify(Y()) == Y() && o.simplify(Z()) == Z()
      && o.prove(FitsTest(Int32, to, Const(Int32, p), Const(Int32, s)))
    ensures var y, z, scope := Lookup(out, "y"), Lookup(out, "z"), InnerScope(p, q, r, s);
      (forall x :: y <= x <= z ==> CastHolds(o, depth, to, scope, x, out))
        <==> (p == Lo(to) && s == Hi(to)) || (p <= Wrap(to, y) && Wrap(to, y) + (z - y) <= s)
  {
    var y, z, scope := Lookup(out, "y"), Lookup(out, "z"), InnerScope(p, q, r, s);
    forall x ensures CastHolds(o, depth, to, scope, x, out) <==> WrapsInto(to, p, s, x) {
      CastBounds(o, depth, to, scope, p, q, r, s, Wrap(to, x), out);
    }
    WrapsIntoIff(to, p, s, y, z);
  }

  ghost predicate WrapsInto(to: Type, p: int, s: int, x: int) { p <= Wrap(to, x) <= s }

  /** Which ranges wrap into [p, s]. */
  lemma {:induction false} WrapsIntoIff(to: Type, p: int, s: int, y: int, z: int)
    requires IsNarrow(to) && InRange(to, p) && InRange(to, s) && y <= z
    ensures (forall x :: y <= x <= z ==> WrapsInto(to, p, s, x))
      <==> (p == Lo(to) && s == Hi(to)) || (p <= Wrap(to, y) && Wrap(to, y) + (z - y) <= s)
  {
    var w := Wrap(to, y);
    if p <= w && w + (z - y) <= s {
      forall x | y <= x <= z ensures WrapsInto(to, p, s, x) { WrapAlong(to, y, x - y); }
    } else if p == Lo(to) && s == Hi(to) {
    } else if p <= w <= s {
      WrapAlong(to, y, s + 1 - w);
      assert !WrapsInto(to, p, s, y + (s + 1 - w));
    } else {
      assert !WrapsInto(to, p, s, y);
    }
  }

  /**
   * With the outer y = 300 and z = 301 and both in [0, 10] inside, 300 cast to uint8 is 44, outside the [0,
   * 10] found.
   */
  lemma {:induction false} ReanalysedCastEscapes(o: Oracle, depth: nat, out: Env)
    requires depth > 0 && o.simplify(Y()) == Y() && o.simplify(Z()) == Z()
    requires o.prove(FitsTest(Int32, UInt8, Const(Int32, 0), Const(Int32, 10))) && out == map["y" := 300, "z" := 301]
    ensures exists x :: 300 <= x <= 301 && !CastHolds(o, depth, UInt8, InnerScope(0, 10, 0, 10), x, out)
  {
    ReanalysedIff(o, depth, UInt8, 0, 10, 0, 10, out);
    assert Wrap(UInt8, 300) == 44;
  }
}
