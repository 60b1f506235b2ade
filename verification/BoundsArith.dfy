/**
 * The interval rules for + - min max: each takes the intervals of the operands and builds
 * the interval of the result, and is sound whenever its guard holds.
 */
module BoundsArith {
  import opened Wrappers
  import opened Ir
  import opened Intervals

  /** The simplifier, the prover and the unique-name generator, of which only soundness is used. */
  datatype Oracle = Oracle(simplify: Expr -> Expr, prove: Expr -> bool, unique: seq<Expr> -> string)

  ghost predicate SimplifyOk(o: Oracle, e: Expr, env: Env) {
    Fine(e, env) ==>
      Fine(o.simplify(e), env) && TypeOf(o.simplify(e)) == TypeOf(e) && Eval(o.simplify(e), env) == Eval(e, env)
  }

  ghost predicate ProveOk(o: Oracle, e: Expr, env: Env) {
    Fine(e, env) && o.prove(e) ==> Eval(e, env) != 0
  }

  ghost predicate OracleOk(o: Oracle) {
    && (forall e: Expr, env: Env {:trigger SimplifyOk(o, e, env)} :: SimplifyOk(o, e, env))
    && (forall e: Expr, env: Env {:trigger ProveOk(o, e, env)} :: ProveOk(o, e, env))
    && (forall e: Expr, x: string :: Uses(o.simplify(e), x) ==> Uses(e, x))
    && (forall es: seq<Expr>, e: Expr :: e in es ==> !Uses(e, o.unique(es)))
  }

  // ---- expressions built by the rules ----

  lemma {:induction false} BinEnd(op: BinOp, a: Expr, b: Expr, t: Type, out: Env)
    requires End(a, t, out) && End(b, t, out) && (op.Div? || op.Mod? ==> Eval(b, out) != 0)
    ensures End(Bin(op, a, b), t, out)
    ensures Eval(Bin(op, a, b), out) == Wrap(t, DoBin(op, Eval(a, out), Eval(b, out)))
    ensures InRange(t, Eval(a, out)) && InRange(t, Eval(b, out))
  {
    FineInRange(a, out);
    FineInRange(b, out);
  }

  /** Two ends combined, if both are there. */
  function Both(op: BinOp, x: Option<Expr>, y: Option<Expr>): Option<Expr> {
    if x.Some? && y.Some? then Some(Bin(op, x.value, y.value)) else None
  }

  /** The operation on these two narrow values is the one on the integers. */
  function NoOverflow(op: BinOp, x: Expr, y: Expr): Expr {
    Cmp(EQ, Bin(op, Cast(Int32, x), Cast(Int32, y)), Cast(Int32, Bin(op, x, y)))
  }

  predicate Ring(op: BinOp) { op.Add? || op.Sub? || op.Mul? }

  lemma {:induction false} NoOverflowMeans(op: BinOp, x: Expr, y: Expr, t: Type, out: Env)
    requires Ring(op) && End(x, t, out) && End(y, t, out)
    ensures Fine(NoOverflow(op, x, y), out)
    ensures Eval(NoOverflow(op, x, y), out) != 0 ==> InRange(t, DoBin(op, Eval(x, out), Eval(y, out)))
  {
    BinEnd(op, x, y, t, out);
    var cx, cy := Cast(Int32, x), Cast(Int32, y);
    BinEnd(op, cx, cy, Int32, out);
    assert Eval(cx, out) == Eval(x, out) && Eval(cy, out) == Eval(y, out);
    var l, r := Bin(op, cx, cy), Cast(Int32, Bin(op, x, y));
    assert Eval(r, out) == Wrap(t, DoBin(op, Eval(x, out), Eval(y, out)));
    assert Eval(Cmp(EQ, l, r), out) == Truth(Eval(l, out) == Eval(r, out));
  }

  lemma {:induction false} Proved(o: Oracle, op: BinOp, x: Expr, y: Expr, t: Type, out: Env)
    requires OracleOk(o) && Ring(op) && End(x, t, out) && End(y, t, out) && o.prove(NoOverflow(op, x, y))
    ensures InRange(t, DoBin(op, Eval(x, out), Eval(y, out)))
  {
    NoOverflowMeans(op, x, y, t, out);
    assert ProveOk(o, NoOverflow(op, x, y), out);
  }

  // ---- addition and subtraction ----

  /** `lo` and `hi` are the ends of b that give the least and greatest result. */
  function SumEnds(op: BinOp, a: Interval, lo: Option<Expr>, hi: Option<Expr>): Interval {
    Interval(Both(op, a.min, lo), Both(op, a.max, hi))
  }

  predicate SumOverflows(o: Oracle, op: BinOp, a: Interval, lo: Option<Expr>, hi: Option<Expr>) {
    || (a.max.Some? && hi.Some? && !o.prove(NoOverflow(op, a.max.value, hi.value)))
    || (a.min.Some? && lo.Some? && !o.prove(NoOverflow(op, a.min.value, lo.value)))
  }

  predicate Underflows(o: Oracle, t: Type, a: Interval, b: Interval) {
    IsUInt(t) && a.min.Some? && b.max.Some? && !o.prove(Cmp(LE, b.max.value, a.min.value))
  }

  function AddRule(o: Oracle, e: Expr, a: Interval, b: Interval): Interval
    requires e.Bin?
  {
    var t := TypeOf(e);
    if a == Point(e.a) && b == Point(e.b) then Point(e)
    else if IsPoint(a) && IsPoint(b) then Point(Bin(Add, a.min.value, b.min.value))
    else if IsNarrow(t) && SumOverflows(o, Add, a, b.min, b.max) then TypeBounds(t)
    else SumEnds(Add, a, b.min, b.max)
  }

  function SubRule(o: Oracle, e: Expr, a: Interval, b: Interval): Interval
    requires e.Bin?
  {
    var t := TypeOf(e);
    if a == Point(e.a) && b == Point(e.b) then Point(e)
    else if IsPoint(a) && IsPoint(b) then Point(Bin(Sub, a.min.value, b.min.value))
    else if IsNarrow(t) && (SumOverflows(o, Sub, a, b.max, b.min) || Underflows(o, t, a, b)) then TypeBounds(t)
    else SumEnds(Sub, a, b.max, b.min)
  }

  /** With one end only, nothing rules out wrapping past the other. */
  predicate SumGuard(t: Type, i: Interval) { IsNarrow(t) ==> (i.min.Some? <==> i.max.Some?) }

  lemma {:induction false} SumEndsHold(o: Oracle, op: BinOp, t: Type, a: Interval, lo: Option<Expr>, hi: Option<Expr>,
                                       va: int, y: int, out: Env)
    requires OracleOk(o) && (op.Add? || op.Sub?) && Holds(a, t, va, out)
    requires if op.Add? then Above(lo, t, y, out) && BelowMax(hi, t, y, out)
             else BelowMax(lo, t, y, out) && Above(hi, t, y, out)
    requires SumGuard(t, SumEnds(op, a, lo, hi)) && (IsNarrow(t) ==> !SumOverflows(o, op, a, lo, hi))
    ensures Holds(SumEnds(op, a, lo, hi), t, Wrap(t, DoBin(op, va, y)), out)
  {
    if a.min.Some? && lo.Some? {
      BinEnd(op, a.min.value, lo.value, t, out);
      if IsNarrow(t) { Proved(o, op, a.min.value, lo.value, t, out); }
    }
    if a.max.Some? && hi.Some? {
      BinEnd(op, a.max.value, hi.value, t, out);
      if IsNarrow(t) { Proved(o, op, a.max.value, hi.value, t, out); }
    }
  }

  predicate AddGuard(e: Expr, a: Interval, b: Interval)
    requires e.Bin?
  {
    (IsPoint(a) && IsPoint(b)) || SumGuard(TypeOf(e), SumEnds(Add, a, b.min, b.max))
  }

  predicate SubGuard(e: Expr, a: Interval, b: Interval)
    requires e.Bin?
  {
    (IsPoint(a) && IsPoint(b)) || SumGuard(TypeOf(e), SumEnds(Sub, a, b.max, b.min))
  }

  /** A single-point operand has the point's value. */
  lemma {:induction false} PointsHold(op: BinOp, t: Type, a: Expr, b: Expr, va: int, vb: int, out: Env)
    requires Holds(Point(a), t, va, out) && Holds(Point(b), t, vb, out) && (op.Div? || op.Mod? ==> vb != 0)
    ensures Holds(Point(Bin(op, a, b)), t, Wrap(t, DoBin(op, va, vb)), out)
  {
    BinEnd(op, a, b, t, out);
  }

  lemma {:induction false} AddSound(o: Oracle, e: Expr, a: Interval, b: Interval, va: int, vb: int, out: Env)
    requires OracleOk(o) && e.Bin? && e.op.Add? && AddGuard(e, a, b)
    requires Holds(a, TypeOf(e), va, out) && Holds(b, TypeOf(e), vb, out)
    ensures Holds(AddRule(o, e, a, b), TypeOf(e), Wrap(TypeOf(e), va + vb), out)
  {
    var t := TypeOf(e);
    if IsPoint(a) && IsPoint(b) {
      PointsHold(Add, t, a.min.value, b.min.value, va, vb, out);
    } else if IsNarrow(t) && SumOverflows(o, Add, a, b.min, b.max) {
      TypeBoundsHold(t, Wrap(t, va + vb), out);
    } else {
      SumEndsHold(o, Add, t, a, b.min, b.max, va, vb, out);
    }
  }

  lemma {:induction false} SubSound(o: Oracle, e: Expr, a: Interval, b: Interval, va: int, vb: int, out: Env)
    requires OracleOk(o) && e.Bin? && e.op.Sub? && SubGuard(e, a, b)
    requires Holds(a, TypeOf(e), va, out) && Holds(b, TypeOf(e), vb, out)
    ensures Holds(SubRule(o, e, a, b), TypeOf(e), Wrap(TypeOf(e), va - vb), out)
  {
    var t := TypeOf(e);
    if IsPoint(a) && IsPoint(b) {
      PointsHold(Sub, t, a.min.value, b.min.value, va, vb, out);
    } else if IsNarrow(t) && (SumOverflows(o, Sub, a, b.max, b.min) || Underflows(o, t, a, b)) {
      TypeBoundsHold(t, Wrap(t, va - vb), out);
    } else {
      SumEndsHold(o, Sub, t, a, b.max, b.min, va, vb, out);
    }
  }

  // ---- the hull of four ends ----

  function Hull(w: Expr, x: Expr, y: Expr, z: Expr): Interval {
    Interval(Some(MinOf(MinOf(MinOf(w, x), y), z)), Some(MaxOf(MaxOf(MaxOf(w, x), y), z)))
  }

  function Min4(w: int, x: int, y: int, z: int): int { MinInt(MinInt(MinInt(w, x), y), z) }

  function Max4(w: int, x: int, y: int, z: int): int { MaxInt(MaxInt(MaxInt(w, x), y), z) }

  predicate AllEnds(w: Expr, x: Expr, y: Expr, z: Expr, t: Type, out: Env) {
    End(w, t, out) && End(x, t, out) && End(y, t, out) && End(z, t, out)
  }

  lemma {:induction false} HullHolds(w: Expr, x: Expr, y: Expr, z: Expr, t: Type, v: int, out: Env)
    requires AllEnds(w, x, y, z, t, out)
    requires Min4(Eval(w, out), Eval(x, out), Eval(y, out), Eval(z, out)) <= v
    requires v <= Max4(Eval(w, out), Eval(x, out), Eval(y, out), Eval(z, out))
    ensures Holds(Hull(w, x, y, z), t, v, out)
  {
    HullEnd(Min, w, x, y, z, t, out);
    HullEnd(Max, w, x, y, z, t, out);
  }

  lemma {:induction false} HullEnd(op: BinOp, w: Expr, x: Expr, y: Expr, z: Expr, t: Type, out: Env)
    requires IsOrder(op) && AllEnds(w, x, y, z, t, out)
    ensures IsExtreme(Extreme(op, Extreme(op, Extreme(op, w, x), y), z), op,
                      DoBin(op, DoBin(op, Eval(w, out), Eval(x, out)), Eval(y, out)), Eval(z, out), t, out)
  {
    ExtremeMeans(op, w, x, t, out);
    ExtremeMeans(op, Extreme(op, w, x), y, t, out);
    ExtremeMeans(op, Extreme(op, Extreme(op, w, x), y), z, t, out);
  }

  // ---- minimum and maximum ----

  function ExtremeEnd(op: BinOp, x: Option<Expr>, y: Option<Expr>, keep: bool): Option<Expr> {
    if x.Some? && y.Some? then Some(Extreme(op, x.value, y.value))
    else if !keep then None
    else if x.Some? then x else y
  }

  /** An infinite end is absorbed or absorbs, depending on its side. */
  function ExtremeRule(e: Expr, a: Interval, b: Interval): Interval
    requires e.Bin?
  {
    if a == Point(e.a) && b == Point(e.b) then Point(e)
    else Interval(ExtremeEnd(e.op, a.min, b.min, e.op.Max?), ExtremeEnd(e.op, a.max, b.max, e.op.Min?))
  }

  lemma {:induction false} ExtremeSound(e: Expr, a: Interval, b: Interval, va: int, vb: int, out: Env)
    requires e.Bin? && IsOrder(e.op)
    requires Holds(a, TypeOf(e), va, out) && Holds(b, TypeOf(e), vb, out)
    requires InRange(TypeOf(e), va) && InRange(TypeOf(e), vb)
    ensures Holds(ExtremeRule(e, a, b), TypeOf(e), Wrap(TypeOf(e), DoBin(e.op, va, vb)), out)
  {
    var t := TypeOf(e);
    if a == Point(e.a) && b == Point(e.b) {
      PointsHold(e.op, t, e.a, e.b, va, vb, out);
    } else {
      ExtremeEndsHold(e.op, t, a, b, va, vb, out);
    }
  }

  lemma {:induction false} ExtremeEndsHold(op: BinOp, t: Type, a: Interval, b: Interval, va: int, vb: int, out: Env)
    requires IsOrder(op) && Holds(a, t, va, out) && Holds(b, t, vb, out)
    ensures Above(ExtremeEnd(op, a.min, b.min, op.Max?), t, DoBin(op, va, vb), out)
    ensures BelowMax(ExtremeEnd(op, a.max, b.max, op.Min?), t, DoBin(op, va, vb), out)
  {
    if a.min.Some? && b.min.Some? { ExtremeMeans(op, a.min.value, b.min.value, t, out); }
    if a.max.Some? && b.max.Some? { ExtremeMeans(op, a.max.value, b.max.value, t, out); }
  }
}
