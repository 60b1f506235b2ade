/**
 * Splitting and fusing loops: the definitions each split hands to the loop nest, the bounds
 * of the new loops, and the map from dimensions to factors known to divide their extents.
 */
module Splits {
  import opened Wrappers
  import opened Ir
  import opened Euclid

  datatype Tail = RoundUp | GuardWithIf | ShiftInwards

  datatype Split =
    | SplitVar(old_: string, outer: string, inner: string, factor: int, tail: Tail)
    | FuseVars(old_: string, outer: string, inner: string)
    | RenameVar(old_: string, outer: string)

  datatype Item = Substitution(name: string, value: Expr) | LetItem(name: string, value: Expr) | Predicate(cond: Expr)

  type Alignment = map<string, int>

  // ---- the loop bounds of a dimension ----

  datatype Dim = Dim(min: int, extent: int)

  type Dims = map<string, Dim>

  function OuterExtent(d: Dim, factor: int): int
    requires factor != 0
  {
    (d.min + d.extent - 1 - d.min + factor) / factor
  }

  predicate Applies(s: Split, dims: Dims) {
    match s
    case SplitVar(o, _, _, f, _) => o in dims && f > 0
    case FuseVars(_, a, b) => a in dims && b in dims
    case RenameVar(o, _) => o in dims
  }

  /** compute_loop_bounds_after_split, as the dimensions it defines. */
  function After(s: Split, dims: Dims): Dims
    requires Applies(s, dims)
  {
    match s
    case SplitVar(o, a, b, f, _) => dims[b := Dim(0, f)][a := Dim(0, OuterExtent(dims[o], f))]
    case FuseVars(o, a, b) => dims[o := Dim(0, dims[b].extent * dims[a].extent)]
    case RenameVar(o, a) => dims[a := dims[o]]
  }

  // ---- the divisibility map ----

  predicate KnownToDivide(al: Alignment, x: string, factor: int) { x in al && factor != 0 && al[x] % factor == 0 }

  function AlignmentAfter(s: Split, al: Alignment): Alignment {
    match s
    case SplitVar(o, a, b, f, _) =>
      var al1 := al[b := f];
      if KnownToDivide(al1, o, f) then al1[a := al1[o] / f] else al1
    case FuseVars(o, a, b) => if a in al && b in al then al[o := al[b] * al[a]] else al
    case RenameVar(_, _) => al
  }

  /** Every recorded factor divides the extent of its dimension. */
  ghost predicate Aligned(al: Alignment, dims: Dims) {
    forall x :: x in al ==> x in dims && al[x] > 0 && dims[x].extent >= 0 && dims[x].extent % al[x] == 0
  }

  /** New names do not clash with dimensions already there. */
  predicate NewNames(s: Split, dims: Dims) {
    match s
    case SplitVar(o, a, b, _, _) => a !in dims && b !in dims && a != b
    case FuseVars(o, a, b) => o !in dims && a != b
    case RenameVar(_, a) => a !in dims
  }

  lemma {:induction false} MulDivides(a: int, b: int, x: int, y: int)
    requires a > 0 && b > 0 && x % a == 0 && y % b == 0
    ensures a * b > 0 && (x * y) % (a * b) == 0
  {
    var p, q := x / a, y / b;
    assert x == a * p && y == b * q;
    assert x * y == (a * b) * (p * q) by {
      calc {
        x * y;
        (a * p) * (b * q);
        (a * b) * (p * q);
      }
    }
    MulMod(a * b, p * q);
  }

  lemma MulMod(a: int, k: int)
    requires a > 0
    ensures (a * k) % a == 0 && (a * k) / a == k
  {
    var x := a * k;
    DivBelow(x, a, k);
    DivBelow(x, a, k - 1);
    assert a * (k + 1) == x + a;
    var q := x / a;
    assert q == k;
    assert x == a * q + x % a;
  }

  /** If f divides d and d divides n, then d / f divides the number of f-blocks covering n. */
  lemma {:induction false} OuterDivides(n: int, d: int, f: int)
    requires f > 0 && d > 0 && d % f == 0 && n >= 0 && n % d == 0
    ensures d / f > 0 && (n - 1 + f) / f == n / f && (n / f) % (d / f) == 0 && n % f == 0
  {
    var k, m := d / f, n / d;
    assert d == f * k && n == d * m;
    assert k > 0 by { if k <= 0 { ScaleLe(k, 0, f); assert false; } }
    assert n == f * (k * m) by {
      calc {
        n;
        (f * k) * m;
        f * (k * m);
      }
    }
    MulMod(f, k * m);
    MulMod(k, m);
    var q := k * m;
    assert f * (q + 1) == f * q + f;
    assert f * (q - 1 + 1) == f * q;
    DivBelow(n - 1 + f, f, q);
    DivBelow(n - 1 + f, f, q - 1);
  }

  lemma SelfDivides(f: int)
    requires f > 0
    ensures f % f == 0
  {
    MulMod(f, 1);
  }

  lemma OuterNonNegative(n: int, f: int)
    requires f > 0 && n >= 0
    ensures (n - 1 + f) / f >= 0
  {
    DivSign(n - 1 + f, f);
  }

  /** One split or fuse keeps the divisibility map right. */
  lemma {:induction false} StepKeepsAligned(s: Split, al: Alignment, dims: Dims)
    requires Aligned(al, dims) && Applies(s, dims) && NewNames(s, dims)
    ensures Aligned(AlignmentAfter(s, al), After(s, dims))
  {
    match s
    case SplitVar(o, a, b, f, _) =>
      SelfDivides(f);
      if KnownToDivide(al, o, f) { OuterDivides(dims[o].extent, al[o], f); }
    case FuseVars(o, a, b) =>
      if a in al && b in al {
        MulDivides(al[b], al[a], dims[b].extent, dims[a].extent);
        ProductNonNegative(dims[b].extent, dims[a].extent);
      }
    case RenameVar(_, _) =>
  }

  lemma ProductNonNegative(a: int, b: int)
    requires a >= 0 && b >= 0
    ensures a * b >= 0
  {
    ScaleLe(0, a, b);
  }

  /** A chain of splits in which each applies and brings new names. */
  predicate Chain(ss: seq<Split>, dims: Dims) {
    ss == [] || (Applies(ss[0], dims) && NewNames(ss[0], dims) && Chain(ss[1..], After(ss[0], dims)))
  }

  function DimsAfter(ss: seq<Split>, dims: Dims): Dims
    requires Chain(ss, dims)
  {
    if ss == [] then dims else DimsAfter(ss[1..], After(ss[0], dims))
  }

  function AlignmentAfterAll(ss: seq<Split>, al: Alignment): Alignment {
    if ss == [] then al else AlignmentAfterAll(ss[1..], AlignmentAfter(ss[0], al))
  }

  /** Along any chain each entry of the divisibility map divides its dimension's extent. */
  lemma {:induction false} ChainKeepsAligned(ss: seq<Split>, al: Alignment, dims: Dims)
    requires Aligned(al, dims) && Chain(ss, dims)
    ensures Aligned(AlignmentAfterAll(ss, al), DimsAfter(ss, dims))
  {
    if ss != [] {
      StepKeepsAligned(ss[0], al, dims);
      ChainKeepsAligned(ss[1..], AlignmentAfter(ss[0], al), After(ss[0], dims));
    }
  }

  // ---- the definitions handed to the loop nest ----

  function V(x: string): Expr { Var(Int32, x) }

  function C(k: int): Expr { Const(Int32, k) }

  function MinOf(x: string): Expr { V(x + ".loop_min") }

  function MaxOf(x: string): Expr { V(x + ".loop_max") }

  function ExtentOf(x: string): Expr { V(x + ".loop_extent") }

  function BaseName(s: Split): string
    requires s.SplitVar?
  {
    s.inner + ".base"
  }

  function RebasedName(s: Split): string { s.old_ + ".rebased" }

  /** Which way a split goes. */
  datatype Way = Exact | Rejected | Guarded | Shifted | Rounded

  function WayOf(s: Split, al: Alignment): Way
    requires s.SplitVar?
  {
    if KnownToDivide(al[s.inner := s.factor], s.old_, s.factor) then Exact
    else if s.factor <= 0 then Rejected
    else if s.factor == 1 then Exact
    else match s.tail
      case GuardWithIf => Guarded
      case ShiftInwards => Shifted
      case RoundUp => Rounded
  }

  function PlainBase(s: Split): Expr
    requires s.SplitVar?
  {
    Bin(Add, Bin(Mul, V(s.outer), C(s.factor)), MinOf(s.old_))
  }

  function Base(s: Split, way: Way): Expr
    requires s.SplitVar?
  {
    if way == Shifted then Bin(Min, PlainBase(s), Bin(Add, MaxOf(s.old_), C(1 - s.factor))) else PlainBase(s)
  }

  function GuardItems(s: Split): seq<Item>
    requires s.SplitVar?
  {
    var rebased := V(RebasedName(s));
    [Substitution(s.old_, Bin(Add, rebased, MinOf(s.old_))), Predicate(Cmp(LT, rebased, ExtentOf(s.old_))),
     LetItem(RebasedName(s), Bin(Add, Bin(Mul, V(s.outer), C(s.factor)), V(s.inner)))]
  }

  function BaseItems(s: Split, way: Way): seq<Item>
    requires s.SplitVar?
  {
    var value := Bin(Add, V(BaseName(s)), V(s.inner));
    [Substitution(s.old_, value), LetItem(s.old_, value), LetItem(BaseName(s), Base(s, way))]
  }

  function FuseItems(s: Split): seq<Item>
    requires s.FuseVars?
  {
    var factor := Bin(Max, ExtentOf(s.inner), C(1));
    var inner := Bin(Add, Bin(Mod, V(s.old_), factor), MinOf(s.inner));
    var outer := Bin(Add, Bin(Div, V(s.old_), factor), MinOf(s.outer));
    [Substitution(s.inner, inner), Substitution(s.outer, outer), LetItem(s.inner, inner), LetItem(s.outer, outer)]
  }

  function Items(s: Split, al: Alignment): Result<seq<Item>> {
    match s
    case SplitVar(_, _, _, _, _) =>
      var way := WayOf(s, al);
      if way == Rejected then Err("split factors must be strictly positive")
      else Ok((if way == Guarded then GuardItems(s) else []) + BaseItems(s, way))
    case FuseVars(_, _, _) => Ok(FuseItems(s))
    case RenameVar(o, a) => Ok([Substitution(o, V(a)), LetItem(o, V(a))])
  }

  /** apply_split updates the divisibility map in place and collects the definitions. */
  class Splitter {
    var alignment: Alignment

    constructor (alignment: Alignment)
      ensures this.alignment == alignment
    {
      this.alignment := alignment;
    }

    method ApplySplit(s: Split) returns (r: Result<seq<Item>>)
      modifies this
      ensures alignment == AlignmentAfter(s, old(alignment)) && r == Items(s, old(alignment))
    {
      var items := [];
      match s {
        case SplitVar(o, a, b, f, tail) =>
          alignment := alignment[b := f];
          var base := PlainBase(s);
          if o in alignment && f != 0 && alignment[o] % f == 0 {
            alignment := alignment[a := alignment[o] / f];
          } else if f <= 0 {
            return Err("split factors must be strictly positive");
          } else if f == 1 {
          } else if tail == GuardWithIf {
            items := items + GuardItems(s);
          } else if tail == ShiftInwards {
            base := Bin(Min, base, Bin(Add, MaxOf(o), C(1 - f)));
          }
          var value := Bin(Add, V(BaseName(s)), V(b));
          items := items + [Substitution(o, value), LetItem(o, value), LetItem(BaseName(s), base)];
          ghost var way := WayOf(s, old(alignment));
          assert base == Base(s, way);
          assert items == (if way == Guarded then GuardItems(s) else []) + BaseItems(s, way);
        case FuseVars(o, a, b) =>
          items := FuseItems(s);
          if b in alignment && a in alignment { alignment := alignment[o := alignment[b] * alignment[a]]; }
        case RenameVar(o, a) =>
          items := [Substitution(o, V(a)), LetItem(o, V(a))];
      }
      r := Ok(items);
    }
  }

  /**
   * A factor that is not positive is rejected exactly when it is not known to divide the old extent:
   * the divisibility test comes first, so a negative divisor of the known alignment passes.
   */
  lemma RejectedIff(s: Split, al: Alignment)
    requires s.SplitVar?
    ensures Items(s, al).Err? <==> s.factor <= 0 && !KnownToDivide(al[s.inner := s.factor], s.old_, s.factor)
  {
  }

  lemma NegativeFactorPasses()
    ensures Items(SplitVar("x", "xo", "xi", -4, RoundUp), map["x" := 8]).Ok?
    ensures AlignmentAfter(SplitVar("x", "xo", "xi", -4, RoundUp), map["x" := 8])["xo"] == -2
  {
    assert "x" != "xi" && "xo" != "x" && "xo" != "xi";
  }

  // ---- what the definitions mean ----

  datatype Outcome = Outcome(env: Env, guard: bool)

  /** The last item is the outermost; substitutions and lets bind, a predicate guards what is inside it. */
  function Meaning(items: seq<Item>, env: Env): Outcome {
    if items == [] then Outcome(env, true)
    else
      var n := |items| - 1;
      match items[n]
      case Substitution(x, v) => Meaning(items[..n], env[x := Eval(v, env)])
      case LetItem(x, v) => Meaning(items[..n], env[x := Eval(v, env)])
      case Predicate(c) => var r := Meaning(items[..n], env); Outcome(r.env, r.guard && Eval(c, env) != 0)
  }

  /** The environment around the body of the split loops. */
  predicate Inside(env: Env, s: Split, d: Dim, o: int, i: int)
    requires s.SplitVar?
  {
    && Lookup(env, s.outer) == o && Lookup(env, s.inner) == i
    && Lookup(env, s.old_ + ".loop_min") == d.min && Lookup(env, s.old_ + ".loop_max") == d.min + d.extent - 1
    && Lookup(env, s.old_ + ".loop_extent") == d.extent
  }

  predicate Distinct(s: Split)
    requires s.SplitVar?
  {
    var made := [BaseName(s), RebasedName(s), s.old_];
    var read := [s.outer, s.inner, s.old_ + ".loop_min", s.old_ + ".loop_max", s.old_ + ".loop_extent"];
    && (forall x :: x in made ==> x !in read)
    && BaseName(s) != RebasedName(s) && BaseName(s) != s.old_ && RebasedName(s) != s.old_
  }

  function BaseValue(s: Split, way: Way, d: Dim, o: int): int
    requires s.SplitVar?
  {
    var plain := o * s.factor + d.min;
    if way == Shifted then MinInt(plain, d.min + d.extent - 1 + (1 - s.factor)) else plain
  }

  lemma {:induction false} BaseMeans(s: Split, way: Way, d: Dim, env: Env, o: int, i: int)
    requires s.SplitVar? && Inside(env, s, d, o, i)
    ensures Eval(Base(s, way), env) == BaseValue(s, way, d, o)
  {
    assert Eval(Bin(Mul, V(s.outer), C(s.factor)), env) == o * s.factor;
    assert Eval(PlainBase(s), env) == o * s.factor + d.min;
    assert Eval(Bin(Add, MaxOf(s.old_), C(1 - s.factor)), env) == d.min + d.extent - 1 + (1 - s.factor);
  }

  /** The base items bind the split variable to base + inner. */
  lemma {:induction false} BaseItemsMean(s: Split, way: Way, d: Dim, env: Env, o: int, i: int)
    requires s.SplitVar? && Inside(env, s, d, o, i) && Distinct(s)
    ensures var b := BaseValue(s, way, d, o);
      Meaning(BaseItems(s, way), env) == Outcome(env[BaseName(s) := b][s.old_ := b + i][s.old_ := b + i], true)
  {
    var b := BaseValue(s, way, d, o);
    BaseMeans(s, way, d, env, o, i);
    var items := BaseItems(s, way);
    var value := Bin(Add, V(BaseName(s)), V(s.inner));
    var env1 := env[BaseName(s) := b];
    assert s.inner in [s.outer, s.inner, s.old_ + ".loop_min", s.old_ + ".loop_max", s.old_ + ".loop_extent"];
    assert BaseName(s) in [BaseName(s), RebasedName(s), s.old_] && s.old_ in [BaseName(s), RebasedName(s), s.old_];
    assert Eval(value, env1) == b + i;
    var env2 := env1[s.old_ := b + i];
    assert Eval(value, env2) == b + i;
    assert items[..2] == [Substitution(s.old_, value), LetItem(s.old_, value)];
    assert items[..2][..1] == [Substitution(s.old_, value)];
    assert items[..2][..1][..0] == [];
    assert Meaning([], env2[s.old_ := b + i]) == Outcome(env2[s.old_ := b + i], true);
    assert Meaning(items[..2][..1], env2) == Outcome(env2[s.old_ := b + i], true);
    assert Meaning(items[..2], env1) == Outcome(env2[s.old_ := b + i], true);
  }

  /** The guard items rebind it to the same value and let only values below the extent through. */
  lemma {:induction false} GuardItemsMean(s: Split, d: Dim, env: Env, o: int, i: int)
    requires s.SplitVar? && Inside(env, s, d, o, i) && Distinct(s)
    ensures var r := Meaning(GuardItems(s), env);
      Lookup(r.env, s.old_) == o * s.factor + i + d.min && (r.guard <==> o * s.factor + i < d.extent)
  {
    var items := GuardItems(s);
    var rebased := V(RebasedName(s));
    var sum := Bin(Add, Bin(Mul, V(s.outer), C(s.factor)), V(s.inner));
    assert Eval(Bin(Mul, V(s.outer), C(s.factor)), env) == o * s.factor;
    assert Eval(sum, env) == o * s.factor + i;
    var env1 := env[RebasedName(s) := o * s.factor + i];
    var read := [s.outer, s.inner, s.old_ + ".loop_min", s.old_ + ".loop_max", s.old_ + ".loop_extent"];
    assert s.old_ + ".loop_min" in read && s.old_ + ".loop_extent" in read;
    assert RebasedName(s) in [BaseName(s), RebasedName(s), s.old_];
    var value := Bin(Add, rebased, MinOf(s.old_));
    assert Eval(value, env1) == o * s.factor + i + d.min;
    var test := Cmp(LT, rebased, ExtentOf(s.old_));
    assert Eval(test, env1) == Truth(o * s.factor + i < d.extent);
    assert items[..2] == [Substitution(s.old_, value), Predicate(test)];
    assert items[..2][..1] == [Substitution(s.old_, value)];
    assert items[..2][..1][..0] == [];
    assert Meaning(items[..2][..1], env1) == Outcome(env1[s.old_ := o * s.factor + i + d.min], true);
    assert Meaning(items[..2], env1) == Outcome(env1[s.old_ := o * s.factor + i + d.min], Eval(test, env1) != 0);
  }

  lemma {:induction false} MeaningConcat(a: seq<Item>, b: seq<Item>, env: Env)
    ensures var r := Meaning(b, env);
      var q := Meaning(a, r.env);
      Meaning(a + b, env) == Outcome(q.env, q.guard && r.guard)
    decreases |b|
  {
    if b == [] {
      assert a + b == a;
    } else {
      var n := |b| - 1;
      var ab := a + b;
      assert ab[|ab| - 1] == b[n] && ab[..|ab| - 1] == a + b[..n];
      var env1 :=
        match b[n]
        case Substitution(x, v) => env[x := Eval(v, env)]
        case LetItem(x, v) => env[x := Eval(v, env)]
        case Predicate(_) => env;
      MeaningConcat(a, b[..n], env1);
    }
  }

  /** The value of the split variable, and whether its iteration runs, at outer `o` and inner `i`. */
  function ValueAt(s: Split, way: Way, d: Dim, o: int, i: int): int
    requires s.SplitVar?
  {
    BaseValue(s, way, d, o) + i
  }

  predicate RunsAt(s: Split, way: Way, d: Dim, o: int, i: int)
    requires s.SplitVar?
  {
    way == Guarded ==> o * s.factor + i < d.extent
  }

  /** The collected definitions give the split variable that value under that guard. */
  lemma {:induction false} SplitMeans(s: Split, al: Alignment, d: Dim, env: Env, o: int, i: int)
    requires s.SplitVar? && Inside(env, s, d, o, i) && Distinct(s) && Items(s, al).Ok?
    ensures var r := Meaning(Items(s, al).value, env);
      && Lookup(r.env, s.old_) == ValueAt(s, WayOf(s, al), d, o, i)
      && (r.guard <==> RunsAt(s, WayOf(s, al), d, o, i))
  {
    var way := WayOf(s, al);
    var b := BaseValue(s, way, d, o);
    BaseItemsMean(s, way, d, env, o, i);
    var env1 := env[BaseName(s) := b][s.old_ := b + i][s.old_ := b + i];
    if way == Guarded {
      assert Inside(env1, s, d, o, i) by { DistinctInside(s, d, env, o, i, b); }
      GuardItemsMean(s, d, env1, o, i);
      MeaningConcat(GuardItems(s), BaseItems(s, way), env);
    } else {
      assert [] + BaseItems(s, way) == BaseItems(s, way);
    }
  }

  lemma {:induction false} DistinctInside(s: Split, d: Dim, env: Env, o: int, i: int, b: int)
    requires s.SplitVar? && Inside(env, s, d, o, i) && Distinct(s)
    ensures Inside(env[BaseName(s) := b][s.old_ := b + i][s.old_ := b + i], s, d, o, i)
  {
    var made := [BaseName(s), RebasedName(s), s.old_];
    var read := [s.outer, s.inner, s.old_ + ".loop_min", s.old_ + ".loop_max", s.old_ + ".loop_extent"];
    assert BaseName(s) in made && s.old_ in made;
    assert s.outer in read && s.inner in read && s.old_ + ".loop_min" in read && s.old_ + ".loop_max" in read
      && s.old_ + ".loop_extent" in read;
  }

  // ---- what the definitions of a fuse mean ----

  /** The fused variable is `t`, and the loops that were fused have these bounds. */
  predicate FusedInside(env: Env, s: Split, outer: Dim, inner: Dim, t: int)
    requires s.FuseVars?
  {
    && Lookup(env, s.old_) == t && Lookup(env, s.inner + ".loop_extent") == inner.extent
    && Lookup(env, s.inner + ".loop_min") == inner.min && Lookup(env, s.outer + ".loop_min") == outer.min
  }

  /** The two variables are none of the names that their definitions read. */
  predicate DistinctFuse(s: Split)
    requires s.FuseVars?
  {
    var read := [s.old_, s.inner + ".loop_extent", s.inner + ".loop_min", s.outer + ".loop_min"];
    s.inner !in read && s.outer !in read && s.inner != s.outer
  }

  lemma {:induction false} FusedBinds(env: Env, s: Split, outer: Dim, inner: Dim, t: int, x: string, v: int)
    requires s.FuseVars? && DistinctFuse(s) && FusedInside(env, s, outer, inner, t) && (x == s.inner || x == s.outer)
    ensures FusedInside(env[x := v], s, outer, inner, t)
  {
    var read := [s.old_, s.inner + ".loop_extent", s.inner + ".loop_min", s.outer + ".loop_min"];
    assert read[0] in read && read[1] in read && read[2] in read && read[3] in read;
  }

  /** The values of the two definitions. */
  lemma {:induction false} FuseValues(env: Env, s: Split, outer: Dim, inner: Dim, t: int)
    requires s.FuseVars? && FusedInside(env, s, outer, inner, t)
    ensures var n := MaxInt(inner.extent, 1);
      Eval(FuseItems(s)[0].value, env) == t % n + inner.min && Eval(FuseItems(s)[1].value, env) == t / n + outer.min
  {
    var factor := Bin(Max, ExtentOf(s.inner), C(1));
    assert Eval(factor, env) == MaxInt(inner.extent, 1);
    assert Eval(Bin(Mod, V(s.old_), factor), env) == t % MaxInt(inner.extent, 1);
    assert Eval(Bin(Div, V(s.old_), factor), env) == t / MaxInt(inner.extent, 1);
  }

  /** The collected definitions take the fused variable apart into row and column. */
  lemma {:induction false} FuseMeans(s: Split, al: Alignment, outer: Dim, inner: Dim, env: Env, t: int)
    requires s.FuseVars? && DistinctFuse(s) && FusedInside(env, s, outer, inner, t)
    ensures Items(s, al).Ok?
    ensures var r, n := Meaning(Items(s, al).value, env), MaxInt(inner.extent, 1);
      r.guard && Lookup(r.env, s.outer) == t / n + outer.min && Lookup(r.env, s.inner) == t % n + inner.min
  {
    var items := FuseItems(s);
    var subs, lets := items[..2], items[2..];
    FusePair(s, items[2], items[3], outer, inner, env, t);
    assert lets == [items[2], items[3]] && subs == [items[0], items[1]] && items == subs + lets;
    FusePair(s, items[0], items[1], outer, inner, Meaning(lets, env).env, t);
    MeaningConcat(subs, lets, env);
  }

  predicate Binds(i: Item) { i.Substitution? || i.LetItem? }

  /** One pair of definitions, of the inner and then the outer variable. */
  lemma {:induction false} FusePair(s: Split, i: Item, o: Item, outer: Dim, inner: Dim, env: Env, t: int)
    requires s.FuseVars? && DistinctFuse(s) && FusedInside(env, s, outer, inner, t) && Binds(i) && Binds(o)
    requires i.name == s.inner && o.name == s.outer
    requires i.value == FuseItems(s)[0].value && o.value == FuseItems(s)[1].value
    ensures var r, n := Meaning([i, o], env), MaxInt(inner.extent, 1);
      && r.guard && FusedInside(r.env, s, outer, inner, t)
      && Lookup(r.env, s.outer) == t / n + outer.min && Lookup(r.env, s.inner) == t % n + inner.min
  {
    var n := MaxInt(inner.extent, 1);
    var e1 := env[s.outer := t / n + outer.min];
    var e2 := e1[s.inner := t % n + inner.min];
    FuseValues(env, s, outer, inner, t);
    FusedBinds(env, s, outer, inner, t, s.outer, t / n + outer.min);
    FuseValues(e1, s, outer, inner, t);
    FusedBinds(e1, s, outer, inner, t, s.inner, t % n + inner.min);
    assert [i, o][..1] == [i] && [i][..0] == [];
    assert Meaning([i], e1) == Outcome(e2, true);
    assert Meaning([i, o], env) == Outcome(e2, true);
  }
}
