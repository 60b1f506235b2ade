/**
 * The table of associative operators: its rows as expressions over x0, x1, y0, y1, and what
 * makes a chunked reduction with one of them legal.
 */
module AssociativeOps {
  import opened Ir
  import opened Euclid

  // ---- reductions ----

  function Fold<T>(op: (T, T) -> T, acc: T, xs: seq<T>): T {
    if xs == [] then acc else Fold(op, op(acc, xs[0]), xs[1..])
  }

  function Flat<T>(chunks: seq<seq<T>>): seq<T> {
    if chunks == [] then [] else chunks[0] + Flat(chunks[1..])
  }

  /** Each chunk reduced on its own, from the identity. */
  function Partials<T>(op: (T, T) -> T, id: T, chunks: seq<seq<T>>): seq<T> {
    if chunks == [] then [] else [Fold(op, id, chunks[0])] + Partials(op, id, chunks[1..])
  }

  ghost predicate AssociativeAt<T(!new)>(op: (T, T) -> T, dom: T -> bool, a: T, b: T, c: T) {
    dom(a) && dom(b) && dom(c) ==> op(op(a, b), c) == op(a, op(b, c))
  }

  ghost predicate ClosedAt<T(!new)>(op: (T, T) -> T, dom: T -> bool, a: T, b: T) { dom(a) && dom(b) ==> dom(op(a, b)) }

  ghost predicate LeftIdentityAt<T(!new)>(op: (T, T) -> T, id: T, dom: T -> bool, a: T) { dom(a) ==> op(id, a) == a }

  /** Associative on its domain, with a left identity in it. */
  ghost predicate Reducible<T(!new)>(op: (T, T) -> T, id: T, dom: T -> bool) {
    && dom(id)
    && (forall a, b {:trigger ClosedAt(op, dom, a, b)} :: ClosedAt(op, dom, a, b))
    && (forall a, b, c {:trigger AssociativeAt(op, dom, a, b, c)} :: AssociativeAt(op, dom, a, b, c))
    && (forall a {:trigger LeftIdentityAt(op, id, dom, a)} :: LeftIdentityAt(op, id, dom, a))
  }

  ghost predicate AllIn<T(!new)>(dom: T -> bool, xs: seq<T>) { forall i :: 0 <= i < |xs| ==> dom(xs[i]) }

  lemma {:induction false} FoldIn<T(!new)>(op: (T, T) -> T, id: T, dom: T -> bool, acc: T, xs: seq<T>)
    requires Reducible(op, id, dom) && dom(acc) && AllIn(dom, xs)
    ensures dom(Fold(op, acc, xs))
  {
    if xs != [] {
      assert ClosedAt(op, dom, acc, xs[0]);
      FoldIn(op, id, dom, op(acc, xs[0]), xs[1..]);
    }
  }

  lemma {:induction false} FoldConcat<T>(op: (T, T) -> T, acc: T, xs: seq<T>, ys: seq<T>)
    ensures Fold(op, acc, xs + ys) == Fold(op, Fold(op, acc, xs), ys)
  {
    if xs == [] {
      assert xs + ys == ys;
    } else {
      assert (xs + ys)[1..] == xs[1..] + ys;
      FoldConcat(op, op(acc, xs[0]), xs[1..], ys);
    }
  }

  /** An accumulated prefix can be pulled out of a fold. */
  lemma {:induction false} FoldPull<T(!new)>(op: (T, T) -> T, id: T, dom: T -> bool, a: T, b: T, xs: seq<T>)
    requires Reducible(op, id, dom) && dom(a) && dom(b) && AllIn(dom, xs)
    ensures Fold(op, op(a, b), xs) == op(a, Fold(op, b, xs))
  {
    if xs != [] {
      assert AssociativeAt(op, dom, a, b, xs[0]) && ClosedAt(op, dom, b, xs[0]);
      FoldPull(op, id, dom, a, op(b, xs[0]), xs[1..]);
    }
  }

  /** A non-empty chunk reduced from the identity and then combined is the chunk reduced in place. */
  lemma {:induction false} ChunkFold<T(!new)>(op: (T, T) -> T, id: T, dom: T -> bool, acc: T, xs: seq<T>)
    requires Reducible(op, id, dom) && dom(acc) && AllIn(dom, xs) && xs != []
    ensures op(acc, Fold(op, id, xs)) == Fold(op, acc, xs)
  {
    assert LeftIdentityAt(op, id, dom, xs[0]);
    FoldPull(op, id, dom, acc, xs[0], xs[1..]);
  }

  /** Reducing any split into non-empty chunks, combined in order, is the sequential reduction. */
  lemma {:induction false} ChunkedReduction<T(!new)>(op: (T, T) -> T, id: T, dom: T -> bool, acc: T,
                                                     chunks: seq<seq<T>>)
    requires Reducible(op, id, dom) && dom(acc)
    requires forall i :: 0 <= i < |chunks| ==> chunks[i] != [] && AllIn(dom, chunks[i])
    ensures Fold(op, acc, Partials(op, id, chunks)) == Fold(op, acc, Flat(chunks))
  {
    if chunks != [] {
      var c := chunks[0];
      assert c != [] && AllIn(dom, c);
      ChunkFold(op, id, dom, acc, c);
      FoldIn(op, id, dom, acc, c);
      FoldConcat(op, acc, c, Flat(chunks[1..]));
      ChunkedReduction(op, id, dom, Fold(op, acc, c), chunks[1..]);
      var ps := Partials(op, id, chunks);
      assert ps[0] == Fold(op, id, c) && ps[1..] == Partials(op, id, chunks[1..]);
    }
  }

  // ---- wrapping arithmetic ----

  /** Values congruent modulo the range wrap alike. */
  lemma {:induction false} WrapCongruent(t: Type, u: int, v: int, k: int)
    requires IsNarrow(t) && u == v + k * (Hi(t) - Lo(t) + 1)
    ensures Wrap(t, u) == Wrap(t, v)
  {
    var m := Hi(t) - Lo(t) + 1;
    AddMultiple(v - Lo(t), k, m);
    assert u - Lo(t) == (v - Lo(t)) + k * m;
  }

  /** The wrapped value differs from the value by a multiple of the range. */
  lemma {:induction false} WrapQuotient(t: Type, v: int) returns (k: int)
    requires IsNarrow(t)
    ensures v == Wrap(t, v) + k * (Hi(t) - Lo(t) + 1)
  {
    var m := Hi(t) - Lo(t) + 1;
    k := (v - Wrap(t, v)) / m;
    assert v - Wrap(t, v) == m * k + (v - Wrap(t, v)) % m;
  }

  lemma {:induction false} WrapAdds(t: Type, a: int, b: int)
    ensures Wrap(t, Wrap(t, a) + b) == Wrap(t, a + b)
  {
    if IsNarrow(t) {
      var k := WrapQuotient(t, a);
      WrapCongruent(t, a + b, Wrap(t, a) + b, k);
    }
  }

  lemma {:induction false} WrapSubtracts(t: Type, a: int, b: int)
    ensures Wrap(t, a - Wrap(t, b)) == Wrap(t, a - b)
  {
    if IsNarrow(t) {
      var m := Hi(t) - Lo(t) + 1;
      var k := WrapQuotient(t, b);
      assert (-k) * m == -(k * m);
      WrapCongruent(t, a - b, a - Wrap(t, b), -k);
    }
  }

  lemma ShiftProduct(x: int, j: int, m: int, b: int)
    ensures (x + j * m) * b == x * b + (j * b) * m
  {
    var k := j * m;
    assert (x + k) * b == x * b + k * b;
    assert (j * m) * b == (j * b) * m;
  }

  lemma {:induction false} WrapMultiplies(t: Type, a: int, b: int)
    ensures Wrap(t, Wrap(t, a) * b) == Wrap(t, a * b)
  {
    if IsNarrow(t) {
      var m := Hi(t) - Lo(t) + 1;
      var j := WrapQuotient(t, a);
      ShiftProduct(Wrap(t, a), j, m, b);
      WrapCongruent(t, a * b, Wrap(t, a) * b, j * b);
    }
  }

  // Wrapping seen as a function of which only the congruences are used.

  predicate SumAt(w: int -> int, a: int, b: int) { w(w(a) + b) == w(a + b) }

  predicate DifferenceAt(w: int -> int, a: int, b: int) { w(a - w(b)) == w(a - b) }

  predicate ProductAt(w: int -> int, a: int, b: int) { w(w(a) * b) == w(a * b) }

  /** Wrapping may be done at any point of a sum, difference or product. */
  ghost predicate Residue(w: int -> int) {
    && (forall a, b {:trigger SumAt(w, a, b)} :: SumAt(w, a, b))
    && (forall a, b {:trigger DifferenceAt(w, a, b)} :: DifferenceAt(w, a, b))
    && (forall a, b {:trigger ProductAt(w, a, b)} :: ProductAt(w, a, b))
  }

  function Wrapping(t: Type): int -> int { (v: int) => Wrap(t, v) }

  predicate RangedAt(w: int -> int, t: Type, v: int) { InRange(t, w(v)) && (InRange(t, v) ==> w(v) == v) }

  ghost predicate Ranged(w: int -> int, t: Type) { forall v {:trigger RangedAt(w, t, v)} :: RangedAt(w, t, v) }

  lemma {:induction false} WrapSumAt(t: Type, a: int, b: int)
    ensures SumAt(Wrapping(t), a, b)
  {
    WrapAdds(t, a, b);
  }

  lemma {:induction false} WrapDifferenceAt(t: Type, a: int, b: int)
    ensures DifferenceAt(Wrapping(t), a, b)
  {
    WrapSubtracts(t, a, b);
  }

  lemma {:induction false} WrapProductAt(t: Type, a: int, b: int)
    ensures ProductAt(Wrapping(t), a, b)
  {
    WrapMultiplies(t, a, b);
  }

  lemma {:induction false} WrapIsResidue(t: Type)
    ensures Residue(Wrapping(t)) && Ranged(Wrapping(t), t)
  {
    var w := Wrapping(t);
    forall a, b ensures SumAt(w, a, b) { WrapSumAt(t, a, b); }
    forall a, b ensures DifferenceAt(w, a, b) { WrapDifferenceAt(t, a, b); }
    forall a, b ensures ProductAt(w, a, b) { WrapProductAt(t, a, b); }
    forall v ensures RangedAt(w, t, v) {}
  }

  // ---- the rows ----

  datatype Pattern = Pattern(ops: seq<Expr>, ids: seq<Expr>)

  datatype Root = RootAdd | RootMul | RootMax | RootMin | RootSub | RootSelect | RootAnd | RootOr | RootCast

  /** The least and greatest value of a type. */
  function TMin(t: Type): int {
    match t
    case Int32 => -0x8000_0000
    case Int64 => -0x8000_0000_0000_0000
    case _ => Lo(t)
  }

  function TMax(t: Type): int {
    match t
    case Int32 => 0x7fff_ffff
    case Int64 => 0x7fff_ffff_ffff_ffff
    case _ => Hi(t)
  }

  function X0(t: Type): Expr { Var(t, "x0") }

  function X1(t: Type): Expr { Var(t, "x1") }

  function Y0(t: Type): Expr { Var(t, "y0") }

  function Y1(t: Type): Expr { Var(t, "y1") }

  function Single(t: Type, root: Root): seq<Pattern> {
    match root
    case RootAdd => [Pattern([Bin(Add, X0(t), Y0(t))], [Const(t, 0)])]
    case RootMul => [Pattern([Bin(Mul, X0(t), Y0(t))], [Const(t, 1)])]
    case RootMax => [Pattern([Bin(Max, X0(t), Y0(t))], [Const(t, TMin(t))])]
    case RootMin => [Pattern([Bin(Min, X0(t), Y0(t))], [Const(t, TMax(t))])]
    case RootAnd => if t == UInt1 then [Pattern([And(X0(t), Y0(t))], [Const(t, 1)])] else []
    case RootOr => if t == UInt1 then [Pattern([Or(X0(t), Y0(t))], [Const(t, 0)])] else []
    case _ => []
  }

  function Real(t: Type): Expr { Bin(Sub, Bin(Mul, X0(t), Y0(t)), Bin(Mul, X1(t), Y1(t))) }

  function Imag(t: Type): Expr { Bin(Add, Bin(Mul, X1(t), Y0(t)), Bin(Mul, X0(t), Y1(t))) }

  function Real2(t: Type): Expr { Bin(Sub, Bin(Mul, X0(t), Y0(t)), Bin(Mul, Y1(t), X1(t))) }

  function Imag2(t: Type): Expr { Bin(Add, Bin(Mul, X1(t), Y0(t)), Bin(Mul, Y1(t), X0(t))) }

  function Double(t: Type, u: Type, root: Root): seq<Pattern> {
    match root
    case RootAdd => if t == u then [Pattern([Bin(Add, X0(t), Y0(t)), Bin(Add, X0(t), Y1(u))],
                                            [Const(t, 0), Const(u, 0)])] else []
    case RootMax => [Pattern([Bin(Max, X0(t), Y0(t)), Select(Cmp(LT, Y0(t), X0(t)), X1(u), Y1(u))],
                             [Const(t, TMin(t)), Const(u, 0)])]
    case RootMin => [Pattern([Bin(Min, X0(t), Y0(t)), Select(Cmp(LT, X0(t), Y0(t)), X1(u), Y1(u))],
                             [Const(t, TMax(t)), Const(u, 0)])]
    case RootSub =>
      if t == u then [Pattern([Real(t), Imag(t)], [Const(t, 1), Const(u, 0)]),
                      Pattern([Real2(t), Imag2(t)], [Const(t, 1), Const(u, 0)])] else []
    case _ => []
  }

  function Table(types: seq<Type>, root: Root): seq<Pattern> {
    if |types| == 1 then Single(types[0], root) else if |types| == 2 then Double(types[0], types[1], root) else []
  }

  /** The lazily filled tables: a row set is built once per key and returned from then on. */
  class Tables {
    var tables: map<(seq<Type>, Root), seq<Pattern>>

    ghost predicate Valid() reads this { forall k :: k in tables ==> tables[k] == Table(k.0, k.1) }

    constructor ()
      ensures Valid()
    {
      tables := map[];
    }

    method GetOpsTable(types: seq<Type>, root: Root) returns (r: seq<Pattern>)
      requires Valid()
      modifies this
      ensures Valid() && r == Table(types, root)
    {
      if (types, root) !in tables { tables := tables[(types, root) := Table(types, root)]; }
      r := tables[(types, root)];
    }
  }

  // ---- what the rows compute ----

  type Pair = (int, int)

  function Bind(x: Pair, y: Pair): Env { map["x0" := x.0, "x1" := x.1, "y0" := y.0, "y1" := y.1] }

  /** The operator of a row on one or two components; a missing component is zero. */
  function Apply(p: Pattern, x: Pair, y: Pair): Pair {
    (if |p.ops| > 0 then Eval(p.ops[0], Bind(x, y)) else 0, if |p.ops| > 1 then Eval(p.ops[1], Bind(x, y)) else 0)
  }

  function Op(p: Pattern): (Pair, Pair) -> Pair { (x: Pair, y: Pair) => Apply(p, x, y) }

  function Identity(p: Pattern): Pair {
    (if |p.ids| > 0 then Eval(p.ids[0], map[]) else 0, if |p.ids| > 1 then Eval(p.ids[1], map[]) else 0)
  }

  /** Values of the types; 32- and 64-bit arithmetic does not overflow, but their minima and maxima are bounded. */
  predicate InType(t: Type, root: Root, v: int) {
    InRange(t, v) && (root.RootMax? || root.RootMin? ==> TMin(t) <= v <= TMax(t))
  }

  function Domain(types: seq<Type>, root: Root): Pair -> bool {
    (x: Pair) =>
      && (|types| > 0 ==> InType(types[0], root, x.0))
      && (if |types| > 1 then InRange(types[1], x.1) else x.1 == 0)
  }

  lemma Lookups(x: Pair, y: Pair)
    ensures Lookup(Bind(x, y), "x0") == x.0 && Lookup(Bind(x, y), "x1") == x.1
    ensures Lookup(Bind(x, y), "y0") == y.0 && Lookup(Bind(x, y), "y1") == y.1
  {
    assert "x0" != "x1" && "x0" != "y0" && "x0" != "y1" && "x1" != "y0" && "x1" != "y1" && "y0" != "y1" by {
      assert "x0"[1] != "x1"[1] && "x0"[0] != "y0"[0] && "y0"[1] != "y1"[1];
    }
  }

  /** The result of a single row, as arithmetic under a wrapping function. */
  function SingleOp(w: int -> int, root: Root, x: int, y: int): int {
    match root
    case RootAdd => w(x + y)
    case RootMul => w(x * y)
    case RootMax => w(MaxInt(x, y))
    case RootMin => w(MinInt(x, y))
    case RootAnd => Truth(x != 0 && y != 0)
    case RootOr => Truth(x != 0 || y != 0)
    case _ => 0
  }

  lemma {:induction false} SingleMeans(t: Type, root: Root, x: Pair, y: Pair)
    requires SingleRow(t, root)
    ensures |Single(t, root)| == 1 && Apply(Single(t, root)[0], x, y) == (SingleOp(Wrapping(t), root, x.0, y.0), 0)
  {
    Lookups(x, y);
    var env := Bind(x, y);
    assert Eval(X0(t), env) == x.0 && Eval(Y0(t), env) == y.0;
  }

  /** Wrapping addition and multiplication, minimum, maximum, and, or are associative. */
  lemma {:induction false} SingleAssociative(w: int -> int, root: Root, x: int, y: int, z: int)
    requires Residue(w)
    requires root.RootMax? || root.RootMin? ==> w(x) == x && w(y) == y && w(z) == z
    ensures SingleOp(w, root, SingleOp(w, root, x, y), z) == SingleOp(w, root, x, SingleOp(w, root, y, z))
  {
    match root
    case RootAdd => SumAssociates(w, x, y, z);
    case RootMul => ProductAssociates(w, x, y, z);
    case _ =>
  }

  lemma {:induction false} SumAssociates(w: int -> int, x: int, y: int, z: int)
    requires Residue(w)
    ensures w(w(x + y) + z) == w(x + w(y + z))
  {
    assert SumAt(w, x + y, z) && SumAt(w, y + z, x);
    assert x + w(y + z) == w(y + z) + x;
  }

  lemma {:induction false} ProductAssociates(w: int -> int, x: int, y: int, z: int)
    requires Residue(w)
    ensures w(w(x * y) * z) == w(x * w(y * z))
  {
    assert ProductAt(w, x * y, z) && ProductAt(w, y * z, x);
    assert (x * y) * z == (y * z) * x;
    assert x * w(y * z) == w(y * z) * x;
  }

  /** `op` is the single row under the wrapping function. */
  ghost predicate SingleIs(op: (Pair, Pair) -> Pair, w: int -> int, root: Root) {
    forall x: Pair, y: Pair {:trigger op(x, y)} :: op(x, y) == (SingleOp(w, root, x.0, y.0), 0)
  }

  function SingleIdentity(t: Type, root: Root): int {
    match root
    case RootMul => 1
    case RootAnd => 1
    case RootMax => TMin(t)
    case RootMin => TMax(t)
    case _ => 0
  }

  predicate SingleRow(t: Type, root: Root) {
    root.RootAdd? || root.RootMul? || root.RootMax? || root.RootMin? || (t == UInt1 && (root.RootAnd? || root.RootOr?))
  }

  lemma {:induction false} SingleClosed(op: (Pair, Pair) -> Pair, w: int -> int, t: Type, root: Root, a: Pair, b: Pair)
    requires SingleIs(op, w, root) && Ranged(w, t) && SingleRow(t, root)
    ensures ClosedAt(op, Domain([t], root), a, b)
  {
    var x, y := a.0, b.0;
    assert op(a, b) == (SingleOp(w, root, x, y), 0);
    assert RangedAt(w, t, x + y) && RangedAt(w, t, x * y) && RangedAt(w, t, MaxInt(x, y))
      && RangedAt(w, t, MinInt(x, y));
  }

  lemma {:induction false} SingleAssociativeAt(op: (Pair, Pair) -> Pair, w: int -> int, t: Type, root: Root, a: Pair,
                                               b: Pair, c: Pair)
    requires SingleIs(op, w, root) && Residue(w) && Ranged(w, t)
    ensures AssociativeAt(op, Domain([t], root), a, b, c)
  {
    if Domain([t], root)(a) && Domain([t], root)(b) && Domain([t], root)(c) {
      assert RangedAt(w, t, a.0) && RangedAt(w, t, b.0) && RangedAt(w, t, c.0);
      SingleAssociative(w, root, a.0, b.0, c.0);
      var ab, bc := op(a, b), op(b, c);
      assert op(ab, c) == op(a, bc);
    }
  }

  lemma {:induction false} SingleLeftIdentity(op: (Pair, Pair) -> Pair, w: int -> int, t: Type, root: Root, a: Pair)
    requires SingleIs(op, w, root) && Ranged(w, t) && SingleRow(t, root)
    ensures LeftIdentityAt(op, (SingleIdentity(t, root), 0), Domain([t], root), a)
  {
    assert RangedAt(w, t, a.0);
    assert op((SingleIdentity(t, root), 0), a) == (SingleOp(w, root, SingleIdentity(t, root), a.0), 0);
  }

  lemma {:induction false} SingleRowIs(t: Type, root: Root)
    requires SingleRow(t, root)
    ensures |Single(t, root)| == 1
    ensures SingleIs(Op(Single(t, root)[0]), Wrapping(t), root)
    ensures Identity(Single(t, root)[0]) == (SingleIdentity(t, root), 0)
  {
    var p := Single(t, root)[0];
    forall x: Pair, y: Pair ensures Op(p)(x, y) == (SingleOp(Wrapping(t), root, x.0, y.0), 0) {
      SingleMeans(t, root, x, y);
    }
  }

  lemma {:induction false} ReducibleSingle(op: (Pair, Pair) -> Pair, w: int -> int, t: Type, root: Root)
    requires SingleIs(op, w, root) && Residue(w) && Ranged(w, t) && SingleRow(t, root)
    ensures Reducible(op, (SingleIdentity(t, root), 0), Domain([t], root))
  {
    var dom, id := Domain([t], root), (SingleIdentity(t, root), 0);
    forall a: Pair, b: Pair ensures ClosedAt(op, dom, a, b) { SingleClosed(op, w, t, root, a, b); }
    forall a: Pair, b: Pair, c: Pair ensures AssociativeAt(op, dom, a, b, c) {
      SingleAssociativeAt(op, w, t, root, a, b, c);
    }
    forall a: Pair ensures LeftIdentityAt(op, id, dom, a) { SingleLeftIdentity(op, w, t, root, a); }
  }

  /** Each of these operators has its row, which computes it and can be reduced in chunks. */
  lemma {:induction false} SingleReducible(t: Type, root: Root)
    requires SingleRow(t, root)
    ensures |Single(t, root)| == 1 && SingleIs(Op(Single(t, root)[0]), Wrapping(t), root)
    ensures var p := Single(t, root)[0]; Reducible(Op(p), Identity(p), Domain([t], root))
  {
    SingleRowIs(t, root);
    WrapIsResidue(t);
    ReducibleSingle(Op(Single(t, root)[0]), Wrapping(t), t, root);
  }

  // ---- double rows ----

  /** The three kinds of double row: a running sum, an arg-extreme, a complex product. */
  datatype Kind = Running | ArgMax | ArgMin | Complex

  function DoubleOp(w: int -> int, kind: Kind, x: Pair, y: Pair): Pair {
    match kind
    case Running => (w(x.0 + y.0), w(x.0 + y.1))
    case ArgMax => (w(MaxInt(x.0, y.0)), if y.0 < x.0 then x.1 else y.1)
    case ArgMin => (w(MinInt(x.0, y.0)), if x.0 < y.0 then x.1 else y.1)
    case Complex => (w(w(x.0 * y.0) - w(x.1 * y.1)), w(w(x.1 * y.0) + w(x.0 * y.1)))
  }

  function KindOf(root: Root): Kind {
    match root
    case RootMax => ArgMax
    case RootMin => ArgMin
    case RootSub => Complex
    case _ => Running
  }

  // Each operation evaluates to the operation on the values, wrapped.

  lemma {:induction false} BinMeans(op: BinOp, a: Expr, b: Expr, t: Type, env: Env)
    requires TypeOf(a) == t
    ensures TypeOf(Bin(op, a, b)) == t && Eval(Bin(op, a, b), env) == Wrapping(t)(DoBin(op, Eval(a, env), Eval(b, env)))
  {
  }

  lemma {:induction false} VarsMean(t: Type, u: Type, x: Pair, y: Pair)
    ensures var env := Bind(x, y);
      Eval(X0(t), env) == x.0 && Eval(X1(u), env) == x.1 && Eval(Y0(t), env) == y.0 && Eval(Y1(u), env) == y.1
  {
    Lookups(x, y);
  }

  lemma {:induction false} RunningMeans(t: Type, x: Pair, y: Pair)
    ensures Apply(Double(t, t, RootAdd)[0], x, y) == DoubleOp(Wrapping(t), Running, x, y)
  {
    VarsMean(t, t, x, y);
    BinMeans(Add, X0(t), Y0(t), t, Bind(x, y));
    BinMeans(Add, X0(t), Y1(t), t, Bind(x, y));
  }

  lemma {:induction false} ArgMaxMeans(t: Type, u: Type, x: Pair, y: Pair)
    ensures Apply(Double(t, u, RootMax)[0], x, y) == DoubleOp(Wrapping(t), ArgMax, x, y)
  {
    VarsMean(t, u, x, y);
    BinMeans(Max, X0(t), Y0(t), t, Bind(x, y));
    assert Eval(Cmp(LT, Y0(t), X0(t)), Bind(x, y)) == Truth(y.0 < x.0);
  }

  lemma {:induction false} ArgMinMeans(t: Type, u: Type, x: Pair, y: Pair)
    ensures Apply(Double(t, u, RootMin)[0], x, y) == DoubleOp(Wrapping(t), ArgMin, x, y)
  {
    VarsMean(t, u, x, y);
    BinMeans(Min, X0(t), Y0(t), t, Bind(x, y));
    assert Eval(Cmp(LT, X0(t), Y0(t)), Bind(x, y)) == Truth(x.0 < y.0);
  }

  lemma {:induction false} RealMeans(t: Type, x: Pair, y: Pair)
    ensures Eval(Real(t), Bind(x, y)) == DoubleOp(Wrapping(t), Complex, x, y).0
    ensures Eval(Real2(t), Bind(x, y)) == DoubleOp(Wrapping(t), Complex, x, y).0
  {
    var env := Bind(x, y);
    VarsMean(t, t, x, y);
    BinMeans(Mul, X0(t), Y0(t), t, env);
    BinMeans(Mul, X1(t), Y1(t), t, env);
    BinMeans(Mul, Y1(t), X1(t), t, env);
    BinMeans(Sub, Bin(Mul, X0(t), Y0(t)), Bin(Mul, X1(t), Y1(t)), t, env);
    BinMeans(Sub, Bin(Mul, X0(t), Y0(t)), Bin(Mul, Y1(t), X1(t)), t, env);
    assert y.1 * x.1 == x.1 * y.1;
  }

  lemma {:induction false} ImagMeans(t: Type, x: Pair, y: Pair)
    ensures Eval(Imag(t), Bind(x, y)) == DoubleOp(Wrapping(t), Complex, x, y).1
    ensures Eval(Imag2(t), Bind(x, y)) == DoubleOp(Wrapping(t), Complex, x, y).1
  {
    var env := Bind(x, y);
    VarsMean(t, t, x, y);
    BinMeans(Mul, X1(t), Y0(t), t, env);
    BinMeans(Mul, X0(t), Y1(t), t, env);
    BinMeans(Mul, Y1(t), X0(t), t, env);
    BinMeans(Add, Bin(Mul, X1(t), Y0(t)), Bin(Mul, X0(t), Y1(t)), t, env);
    BinMeans(Add, Bin(Mul, X1(t), Y0(t)), Bin(Mul, Y1(t), X0(t)), t, env);
    assert y.1 * x.0 == x.0 * y.1;
  }

  lemma {:induction false} DoubleMeans(t: Type, u: Type, root: Root, k: nat, x: Pair, y: Pair)
    requires k < |Double(t, u, root)|
    ensures Apply(Double(t, u, root)[k], x, y) == DoubleOp(Wrapping(t), KindOf(root), x, y)
  {
    match root
    case RootAdd => RunningMeans(t, x, y);
    case RootMax => ArgMaxMeans(t, u, x, y);
    case RootMin => ArgMinMeans(t, u, x, y);
    case RootSub =>
      RealMeans(t, x, y);
      ImagMeans(t, x, y);
      var p := Double(t, u, root)[k];
      assert p.ops == [Real(t), Imag(t)] || p.ops == [Real2(t), Imag2(t)];
    case _ =>
  }

  // ---- complex multiplication under wrapping ----

  /** Inner wrapping can be dropped from a difference or sum of products. */
  lemma {:induction false} DropInner(w: int -> int, a: int, b: int)
    requires Residue(w)
    ensures w(w(a) - w(b)) == w(a - b) && w(w(a) + w(b)) == w(a + b)
  {
    assert DifferenceAt(w, w(a), b) && SumAt(w, a, -b) && SumAt(w, a, w(b)) && SumAt(w, b, a);
    assert w(a) - b == w(a) + -b && a - b == a + -b;
    assert a + w(b) == w(b) + a && b + a == a + b;
  }

  lemma {:induction false} ComplexIs(w: int -> int, x: Pair, y: Pair)
    requires Residue(w)
    ensures DoubleOp(w, Complex, x, y) == (w(x.0 * y.0 - x.1 * y.1), w(x.1 * y.0 + x.0 * y.1))
  {
    DropInner(w, x.0 * y.0, x.1 * y.1);
    DropInner(w, x.1 * y.0, x.0 * y.1);
  }

  /** A factor may be wrapped or not. */
  lemma {:induction false} DropFactors(w: int -> int, a: int, b: int, c: int, d: int)
    requires Residue(w)
    ensures w(w(a) * b - w(c) * d) == w(a * b - c * d) && w(w(a) * b + w(c) * d) == w(a * b + c * d)
  {
    assert ProductAt(w, a, b) && ProductAt(w, c, d);
    DropInner(w, w(a) * b, w(c) * d);
    DropInner(w, a * b, c * d);
  }

  /** Complex multiplication on the integers is associative. */
  lemma ComplexIntegers(a: Pair, b: Pair, c: Pair)
    ensures (a.0 * b.0 - a.1 * b.1) * c.0 - (a.1 * b.0 + a.0 * b.1) * c.1
      == (b.0 * c.0 - b.1 * c.1) * a.0 - (b.1 * c.0 + b.0 * c.1) * a.1
    ensures (a.1 * b.0 + a.0 * b.1) * c.0 + (a.0 * b.0 - a.1 * b.1) * c.1 == (b.0 * c.0 - b.1 * c.1) * a.1
      + (b.1 * c.0 + b.0 * c.1) * a.0
  {
    Distribute(a.0 * b.0, a.1 * b.1, c.0);
    Distribute(a.1 * b.0, a.0 * b.1, c.1);
    Distribute(b.0 * c.0, b.1 * c.1, a.0);
    Distribute(b.1 * c.0, b.0 * c.1, a.1);
    Distribute(a.1 * b.0, a.0 * b.1, c.0);
    Distribute(a.0 * b.0, a.1 * b.1, c.1);
    Distribute(b.0 * c.0, b.1 * c.1, a.1);
    Distribute(b.1 * c.0, b.0 * c.1, a.0);
    Rotate(a.0, b.0, c.0);
    Rotate(a.1, b.1, c.0);
    Rotate(a.1, b.0, c.1);
    Rotate(a.0, b.1, c.1);
    Rotate(a.1, b.0, c.0);
    Rotate(a.0, b.1, c.0);
    Rotate(a.0, b.0, c.1);
    Rotate(a.1, b.1, c.1);
  }

  lemma Distribute(p: int, q: int, c: int)
    ensures (p - q) * c == p * c - q * c && (p + q) * c == p * c + q * c
  {
  }

  lemma Rotate(a: int, b: int, c: int)
    ensures (a * b) * c == (b * c) * a
  {
  }

  lemma {:induction false} ComplexSwapped(w: int -> int, x: Pair, y: Pair)
    requires Residue(w)
    ensures DoubleOp(w, Complex, x, y) == (w(y.0 * x.0 - y.1 * x.1), w(y.0 * x.1 + y.1 * x.0))
  {
    ComplexIs(w, x, y);
    Commute(x.0, y.0);
    Commute(x.1, y.1);
    Commute(x.1, y.0);
    Commute(x.0, y.1);
  }

  /** The product on the left, with the inner wrapping dropped. */
  lemma {:induction false} ComplexLeft(w: int -> int, a: Pair, b: Pair, c: Pair)
    requires Residue(w)
    ensures var p, q := a.0 * b.0 - a.1 * b.1, a.1 * b.0 + a.0 * b.1;
      DoubleOp(w, Complex, DoubleOp(w, Complex, a, b), c) == (w(p * c.0 - q * c.1), w(q * c.0 + p * c.1))
  {
    ComplexIs(w, a, b);
    var p, q := a.0 * b.0 - a.1 * b.1, a.1 * b.0 + a.0 * b.1;
    ComplexIs(w, (w(p), w(q)), c);
    DropFactors(w, p, c.0, q, c.1);
    DropFactors(w, q, c.0, p, c.1);
  }

  lemma {:induction false} ComplexRight(w: int -> int, a: Pair, b: Pair, c: Pair)
    requires Residue(w)
    ensures var r, s := b.0 * c.0 - b.1 * c.1, b.1 * c.0 + b.0 * c.1;
      DoubleOp(w, Complex, a, DoubleOp(w, Complex, b, c)) == (w(r * a.0 - s * a.1), w(r * a.1 + s * a.0))
  {
    ComplexIs(w, b, c);
    var r, s := b.0 * c.0 - b.1 * c.1, b.1 * c.0 + b.0 * c.1;
    ComplexSwapped(w, a, (w(r), w(s)));
    DropFactors(w, r, a.0, s, a.1);
    DropFactors(w, r, a.1, s, a.0);
  }

  lemma {:induction false} ComplexAssociates(w: int -> int, a: Pair, b: Pair, c: Pair)
    requires Residue(w)
    ensures DoubleOp(w, Complex, DoubleOp(w, Complex, a, b), c) == DoubleOp(w, Complex, a, DoubleOp(w, Complex, b, c))
  {
    ComplexLeft(w, a, b, c);
    ComplexRight(w, a, b, c);
    ComplexIntegers(a, b, c);
  }

  lemma Commute(a: int, b: int)
    ensures a * b == b * a
  {
  }

  // ---- double rows reduce in chunks ----

  lemma {:induction false} RunningAssociates(w: int -> int, a: Pair, b: Pair, c: Pair)
    requires Residue(w)
    ensures DoubleOp(w, Running, DoubleOp(w, Running, a, b), c) == DoubleOp(w, Running, a, DoubleOp(w, Running, b, c))
  {
    SumAssociates(w, a.0, b.0, c.0);
    SumAssociates(w, a.0, b.0, c.1);
  }

  lemma {:induction false} DoubleAssociates(w: int -> int, kind: Kind, a: Pair, b: Pair, c: Pair)
    requires Residue(w) && w(a.0) == a.0 && w(b.0) == b.0 && w(c.0) == c.0
    ensures DoubleOp(w, kind, DoubleOp(w, kind, a, b), c) == DoubleOp(w, kind, a, DoubleOp(w, kind, b, c))
  {
    match kind
    case Running => RunningAssociates(w, a, b, c);
    case Complex => ComplexAssociates(w, a, b, c);
    case _ =>
  }

  ghost predicate DoubleIs(op: (Pair, Pair) -> Pair, w: int -> int, kind: Kind) {
    forall x: Pair, y: Pair {:trigger op(x, y)} :: op(x, y) == DoubleOp(w, kind, x, y)
  }

  function DoubleIdentity(t: Type, root: Root): Pair {
    match root
    case RootMax => (TMin(t), 0)
    case RootMin => (TMax(t), 0)
    case RootSub => (1, 0)
    case _ => (0, 0)
  }

  predicate DoubleRow(t: Type, u: Type, root: Root) {
    root.RootMax? || root.RootMin? || (t == u && (root.RootAdd? || root.RootSub?))
  }

  lemma {:induction false} DoubleClosed(op: (Pair, Pair) -> Pair, w: int -> int, t: Type, u: Type, root: Root,
                                        a: Pair, b: Pair)
    requires DoubleIs(op, w, KindOf(root)) && Ranged(w, t) && DoubleRow(t, u, root)
    ensures ClosedAt(op, Domain([t, u], root), a, b)
  {
    var r := op(a, b);
    assert RangedAt(w, t, a.0 + b.0) && RangedAt(w, t, a.0 + b.1) && RangedAt(w, t, MaxInt(a.0, b.0))
      && RangedAt(w, t, MinInt(a.0, b.0));
    assert RangedAt(w, t, w(a.0 * b.0) - w(a.1 * b.1)) && RangedAt(w, t, w(a.1 * b.0) + w(a.0 * b.1));
  }

  lemma {:induction false} DoubleAssociativeAt(op: (Pair, Pair) -> Pair, w: int -> int, t: Type, u: Type, root: Root,
                                               a: Pair, b: Pair, c: Pair)
    requires DoubleIs(op, w, KindOf(root)) && Residue(w) && Ranged(w, t)
    ensures AssociativeAt(op, Domain([t, u], root), a, b, c)
  {
    var dom := Domain([t, u], root);
    if dom(a) && dom(b) && dom(c) {
      assert RangedAt(w, t, a.0) && RangedAt(w, t, b.0) && RangedAt(w, t, c.0);
      DoubleAssociates(w, KindOf(root), a, b, c);
      var ab, bc := op(a, b), op(b, c);
      assert op(ab, c) == op(a, bc);
    }
  }

  lemma {:induction false} DoubleLeftIdentity(op: (Pair, Pair) -> Pair, w: int -> int, t: Type, u: Type, root: Root,
                                              a: Pair)
    requires DoubleIs(op, w, KindOf(root)) && Ranged(w, t) && DoubleRow(t, u, root)
    ensures LeftIdentityAt(op, DoubleIdentity(t, root), Domain([t, u], root), a)
  {
    var id := DoubleIdentity(t, root);
    assert op(id, a) == DoubleOp(w, KindOf(root), id, a);
    assert RangedAt(w, t, a.0) && RangedAt(w, t, a.1) && RangedAt(w, t, 0);
  }

  lemma {:induction false} ReducibleDouble(op: (Pair, Pair) -> Pair, w: int -> int, t: Type, u: Type, root: Root)
    requires DoubleIs(op, w, KindOf(root)) && Residue(w) && Ranged(w, t) && DoubleRow(t, u, root)
    ensures Reducible(op, DoubleIdentity(t, root), Domain([t, u], root))
  {
    var dom, id := Domain([t, u], root), DoubleIdentity(t, root);
    forall a: Pair, b: Pair ensures ClosedAt(op, dom, a, b) { DoubleClosed(op, w, t, u, root, a, b); }
    forall a: Pair, b: Pair, c: Pair ensures AssociativeAt(op, dom, a, b, c) {
      DoubleAssociativeAt(op, w, t, u, root, a, b, c);
    }
    forall a: Pair ensures LeftIdentityAt(op, id, dom, a) { DoubleLeftIdentity(op, w, t, u, root, a); }
  }

  /** Complex multiplication is written in two ways, every other double operator in one. */
  function RowCount(t: Type, u: Type, root: Root): nat {
    if !DoubleRow(t, u, root) then 0 else if root.RootSub? then 2 else 1
  }

  /** Each of these operators has its rows, which compute it and can be reduced in chunks. */
  lemma {:induction false} DoubleReducible(t: Type, u: Type, root: Root, k: nat)
    requires k < RowCount(t, u, root)
    ensures |Double(t, u, root)| == RowCount(t, u, root)
    ensures DoubleIs(Op(Double(t, u, root)[k]), Wrapping(t), KindOf(root))
    ensures var p := Double(t, u, root)[k]; Reducible(Op(p), Identity(p), Domain([t, u], root))
  {
    var p := Double(t, u, root)[k];
    WrapIsResidue(t);
    assert DoubleIs(Op(p), Wrapping(t), KindOf(root)) by {
      forall x: Pair, y: Pair ensures Op(p)(x, y) == DoubleOp(Wrapping(t), KindOf(root), x, y) {
        DoubleMeans(t, u, root, k, x, y);
      }
    }
    DoubleIds(t, u, root, k);
    ReducibleDouble(Op(p), Wrapping(t), t, u, root);
  }

  lemma {:induction false} DoubleIds(t: Type, u: Type, root: Root, k: nat)
    requires k < |Double(t, u, root)|
    ensures Identity(Double(t, u, root)[k]) == DoubleIdentity(t, root) && DoubleRow(t, u, root)
  {
  }

  /** Reducing any split into non-empty chunks with any row of any table equals the sequential reduction. */
  lemma {:induction false} TableRowsReduceInChunks(types: seq<Type>, root: Root, k: nat, acc: Pair,
                                                   chunks: seq<seq<Pair>>)
    requires k < |Table(types, root)|
    requires var dom := Domain(types, root);
      dom(acc) && forall i :: 0 <= i < |chunks| ==> chunks[i] != [] && AllIn(dom, chunks[i])
    ensures var p := Table(types, root)[k];
      Fold(Op(p), acc, Partials(Op(p), Identity(p), chunks)) == Fold(Op(p), acc, Flat(chunks))
  {
    var p := Table(types, root)[k];
    if |types| == 1 {
      SingleReducible(types[0], root);
      assert types == [types[0]];
    } else {
      DoubleReducible(types[0], types[1], root, k);
      assert types == [types[0], types[1]];
    }
    ChunkedReduction(Op(p), Identity(p), Domain(types, root), acc, chunks);
  }
}
