/**
 * Statements as the region analysis sees them: loops, lets, ifs and touches of one function
 * (a provide of it, or a call to it), with the points a run touches.
 */
module RegionIr {
  import opened Wrappers
  import opened Ir
  import opened Intervals
  import opened BoundsArith
  import opened BoundsCast
  import opened Bounds

  datatype Stmt =
    | Skip
    | Touch(args: seq<Expr>)
    | Block(first: Stmt, rest: Stmt)
    | For(x: string, min: Expr, extent: Expr, body: Stmt)
    | LetStmt(x: string, value: Expr, body: Stmt)
    | If(cond: Expr, onTrue: Stmt, onFalse: Stmt)

  /** The statement run in `env` touches the point `p`. */
  ghost predicate Touched(s: Stmt, env: Env, p: seq<int>) {
    match s
    case Skip => false
    case Touch(args) => |p| == |args| && forall k :: 0 <= k < |args| ==> p[k] == Eval(args[k], env)
    case Block(a, b) => Touched(a, env, p) || Touched(b, env, p)
    case For(x, mn, ext, b) => exists i {:trigger env[x := i]} ::
      Eval(mn, env) <= i < Eval(mn, env) + Eval(ext, env) && Touched(b, env[x := i], p)
    case LetStmt(x, v, b) => Touched(b, env[x := Eval(v, env)], p)
    case If(c, t, f) => if Eval(c, env) != 0 then Touched(t, env, p) else Touched(f, env, p)
  }

  /** Every expression the run evaluates is meaningful; loop bounds and coordinates are int32. */
  ghost predicate StmtFine(s: Stmt, env: Env) {
    match s
    case Skip => true
    case Touch(args) => forall k :: 0 <= k < |args| ==> Fine(args[k], env) && TypeOf(args[k]) == Int32
    case Block(a, b) => StmtFine(a, env) && StmtFine(b, env)
    case For(x, mn, ext, b) =>
      && Fine(mn, env) && Fine(ext, env) && TypeOf(mn) == Int32 && TypeOf(ext) == Int32
      && forall i {:trigger env[x := i]} :: Eval(mn, env) <= i < Eval(mn, env) + Eval(ext, env) ==>
        StmtFine(b, env[x := i])
    case LetStmt(x, v, b) => Fine(v, env) && StmtFine(b, env[x := Eval(v, env)])
    case If(c, t, f) =>
      Fine(c, env) && TypeOf(c) == UInt1 && if Eval(c, env) != 0 then StmtFine(t, env) else StmtFine(f, env)
  }

  // ---- names ----

  function Names(e: Expr): set<string> {
    match e
    case Const(_, _) => {}
    case Var(_, x) => {x}
    case Cast(_, a) => Names(a)
    case Bin(_, a, b) => Names(a) + Names(b)
    case Cmp(_, a, b) => Names(a) + Names(b)
    case And(a, b) => Names(a) + Names(b)
    case Or(a, b) => Names(a) + Names(b)
    case Not(a) => Names(a)
    case Select(c, t, f) => Names(c) + Names(t) + Names(f)
    case Let(x, v, b) => {x} + Names(v) + Names(b)
  }

  lemma {:induction false} UsesNames(e: Expr, x: string)
    ensures Uses(e, x) <==> x in Names(e)
  {
    match e
    case Const(_, _) =>
    case Var(_, _) =>
    case Cast(_, a) => UsesNames(a, x);
    case Bin(_, a, b) => UsesNames(a, x); UsesNames(b, x);
    case Cmp(_, a, b) => UsesNames(a, x); UsesNames(b, x);
    case And(a, b) => UsesNames(a, x); UsesNames(b, x);
    case Or(a, b) => UsesNames(a, x); UsesNames(b, x);
    case Not(a) => UsesNames(a, x);
    case Select(c, t, f) => UsesNames(c, x); UsesNames(t, x); UsesNames(f, x);
    case Let(_, v, b) => UsesNames(v, x); UsesNames(b, x);
  }

  lemma {:induction false} SimplifyNames(o: Oracle, e: Expr)
    requires OracleOk(o)
    ensures Names(o.simplify(e)) <= Names(e)
  {
    forall x | x in Names(o.simplify(e)) ensures x in Names(e) {
      UsesNames(o.simplify(e), x);
      UsesNames(e, x);
    }
  }

  function NamesAll(es: seq<Expr>): set<string> {
    if es == [] then {} else Names(es[0]) + NamesAll(es[1..])
  }

  lemma {:induction false} NamesAllAt(es: seq<Expr>, k: nat)
    requires k < |es|
    ensures Names(es[k]) <= NamesAll(es)
  {
    if k > 0 { NamesAllAt(es[1..], k - 1); }
  }

  function StmtNames(s: Stmt): set<string> {
    match s
    case Skip => {}
    case Touch(args) => NamesAll(args)
    case Block(a, b) => StmtNames(a) + StmtNames(b)
    case For(x, mn, ext, b) => {x} + Names(mn) + Names(ext) + StmtNames(b)
    case LetStmt(x, v, b) => {x} + Names(v) + StmtNames(b)
    case If(c, t, f) => Names(c) + StmtNames(t) + StmtNames(f)
  }

  function EndNames(x: Option<Expr>): set<string> { if x.Some? then Names(x.value) else {} }

  function IntervalNames(i: Interval): set<string> { EndNames(i.min) + EndNames(i.max) }

  function ScopeNames(scope: Scope): set<string> {
    set y, n | y in scope.Keys && n in IntervalNames(scope[y]) :: n
  }

  // ---- environments inside a scope ----

  datatype World = World(scope: Scope, env: Env, out: Env)

  /** A free occurrence of `y` at type `t` agrees with the scope. */
  predicate VarOk(w: World, y: string, t: Type) {
    if y in w.scope then Holds(w.scope[y], t, Lookup(w.env, y), w.out)
    else Lookup(w.env, y) == Lookup(w.out, y)
  }

  predicate ExprIn(e: Expr, bound: map<string, Type>, w: World) { InScope(e, bound, w.scope, w.env, w.out) }

  predicate StmtIn(s: Stmt, bound: map<string, Type>, w: World) {
    match s
    case Skip => true
    case Touch(args) => forall k :: 0 <= k < |args| ==> ExprIn(args[k], bound, w)
    case Block(a, b) => StmtIn(a, bound, w) && StmtIn(b, bound, w)
    case For(x, mn, ext, b) => ExprIn(mn, bound, w) && ExprIn(ext, bound, w) && StmtIn(b, bound[x := Int32], w)
    case LetStmt(x, v, b) => ExprIn(v, bound, w) && StmtIn(b, bound[x := TypeOf(v)], w)
    case If(c, t, f) => ExprIn(c, bound, w) && StmtIn(t, bound, w) && StmtIn(f, bound, w)
  }

  predicate Known(outer: map<string, Type>, w: World, y: string, t: Type) {
    if y in outer then outer[y] == t else VarOk(w, y, t)
  }

  /** Going from `w` to `v`, and from the bound variables `outer` to `inner`, keeps every name in `ns` in order. */
  ghost predicate Carries(ns: set<string>, outer: map<string, Type>, inner: map<string, Type>, w: World, v: World) {
    && (forall y :: y in inner ==> y in outer && inner[y] == outer[y])
    && (forall y, t {:trigger VarOk(v, y, t)} :: y in ns && y !in inner && Known(outer, w, y, t) ==> VarOk(v, y, t))
  }

  lemma {:induction false} ExprCarries(e: Expr, ns: set<string>, outer: map<string, Type>, inner: map<string, Type>,
                                       w: World, v: World)
    requires ExprIn(e, outer, w) && Names(e) <= ns && Carries(ns, outer, inner, w, v)
    ensures ExprIn(e, inner, v)
    decreases e, 1
  {
    match e
    case Const(_, _) =>
    case Var(t, y) => if y !in inner { assert Known(outer, w, y, t); assert VarOk(v, y, t); }
    case Cast(_, a) => ExprCarries(a, ns, outer, inner, w, v);
    case Bin(_, a, b) => ExprCarries(a, ns, outer, inner, w, v); ExprCarries(b, ns, outer, inner, w, v);
    case Cmp(_, a, b) => ExprCarries(a, ns, outer, inner, w, v); ExprCarries(b, ns, outer, inner, w, v);
    case And(a, b) => ExprCarries(a, ns, outer, inner, w, v); ExprCarries(b, ns, outer, inner, w, v);
    case Or(a, b) => ExprCarries(a, ns, outer, inner, w, v); ExprCarries(b, ns, outer, inner, w, v);
    case Not(a) => ExprCarries(a, ns, outer, inner, w, v);
    case Select(_, _, _) => SelectCarries(e, ns, outer, inner, w, v);
    case Let(_, _, _) => LetCarries(e, ns, outer, inner, w, v);
  }

  lemma {:induction false} SelectCarries(e: Expr, ns: set<string>, outer: map<string, Type>,
                                         inner: map<string, Type>, w: World, v: World)
    requires e.Select? && ExprIn(e, outer, w) && Names(e) <= ns && Carries(ns, outer, inner, w, v)
    ensures ExprIn(e, inner, v)
    decreases e, 0
  {
    ExprCarries(e.cond, ns, outer, inner, w, v);
    ExprCarries(e.onTrue, ns, outer, inner, w, v);
    ExprCarries(e.onFalse, ns, outer, inner, w, v);
  }

  lemma {:induction false} LetCarries(e: Expr, ns: set<string>, outer: map<string, Type>, inner: map<string, Type>,
                                      w: World, v: World)
    requires e.Let? && ExprIn(e, outer, w) && Names(e) <= ns && Carries(ns, outer, inner, w, v)
    ensures ExprIn(e, inner, v)
    decreases e, 0
  {
    var t := TypeOf(e.lvalue);
    ExprCarries(e.lvalue, ns, outer, inner, w, v);
    CarriesUnder(ns, outer, inner, w, v, e.lname, t);
    ExprCarries(e.body, ns, outer[e.lname := t], inner[e.lname := t], w, v);
  }

  lemma {:induction false} CarriesUnder(ns: set<string>, outer: map<string, Type>, inner: map<string, Type>, w: World,
                                        v: World, x: string, t: Type)
    requires Carries(ns, outer, inner, w, v)
    ensures Carries(ns, outer[x := t], inner[x := t], w, v)
  {
    var outer', inner' := outer[x := t], inner[x := t];
    forall y, t' | y in ns && y !in inner' && Known(outer', w, y, t') ensures VarOk(v, y, t') {
      assert Known(outer, w, y, t');
    }
  }

  lemma {:induction false} StmtCarries(s: Stmt, ns: set<string>, outer: map<string, Type>, inner: map<string, Type>,
                                       w: World, v: World)
    requires StmtIn(s, outer, w) && StmtNames(s) <= ns && Carries(ns, outer, inner, w, v)
    ensures StmtIn(s, inner, v)
  {
    match s
    case Skip =>
    case Touch(args) =>
      forall k | 0 <= k < |args| ensures ExprIn(args[k], inner, v) {
        NamesAllAt(args, k);
        ExprCarries(args[k], ns, outer, inner, w, v);
      }
    case Block(a, b) => StmtCarries(a, ns, outer, inner, w, v); StmtCarries(b, ns, outer, inner, w, v);
    case For(x, mn, ext, b) =>
      ExprCarries(mn, ns, outer, inner, w, v);
      ExprCarries(ext, ns, outer, inner, w, v);
      CarriesUnder(ns, outer, inner, w, v, x, Int32);
      StmtCarries(b, ns, outer[x := Int32], inner[x := Int32], w, v);
    case LetStmt(x, val, b) =>
      ExprCarries(val, ns, outer, inner, w, v);
      CarriesUnder(ns, outer, inner, w, v, x, TypeOf(val));
      StmtCarries(b, ns, outer[x := TypeOf(val)], inner[x := TypeOf(val)], w, v);
    case If(c, t, f) =>
      ExprCarries(c, ns, outer, inner, w, v);
      StmtCarries(t, ns, outer, inner, w, v);
      StmtCarries(f, ns, outer, inner, w, v);
  }

  // ---- the three ways a world changes ----

  /** Entering a loop iteration or a let. */
  function Bind(w: World, x: string, i: Interval, v: int): World { World(w.scope[x := i], w.env[x := v], w.out) }

  lemma {:induction false} BindCarries(ns: set<string>, w: World, x: string, t: Type, i: Interval, v: int)
    requires Holds(i, t, v, w.out)
    ensures Carries(ns, map[x := t], map[], w, Bind(w, x, i, v))
  {
  }

  /** As `BindCarries`, for expressions that do not mention the variable. */
  lemma {:induction false} BindIgnored(ns: set<string>, w: World, x: string, i: Interval, v: int)
    requires x !in ns
    ensures Carries(ns, map[], map[], w, Bind(w, x, i, v))
  {
  }

  function Narrowed(w: World, x: string, i: Interval): World { World(w.scope[x := i], w.env, w.out) }

  /** The new interval for `x` holds at every type the old one may be read at. */
  ghost predicate Fits(w: World, x: string, t: Type, i: Interval) {
    && x in w.scope && Holds(i, t, Lookup(w.env, x), w.out)
    && Holds(w.scope[x], t, Lookup(w.env, x), w.out) && (i == EVERYTHING <==> w.scope[x] == EVERYTHING)
  }

  lemma {:induction false} NarrowedCarries(ns: set<string>, w: World, x: string, t: Type, i: Interval)
    requires Fits(w, x, t, i)
    ensures Carries(ns, map[], map[], w, Narrowed(w, x, i))
  {
    var v := Narrowed(w, x, i);
    forall y, t' | y in ns && Known(map[], w, y, t') ensures VarOk(v, y, t') {
      if y == x && i != EVERYTHING { assert t' == t; }
    }
  }

  function Naming(w: World, n: string, v: int): World { World(w.scope, w.env, w.out[n := v]) }

  lemma {:induction false} FrameInterval(i: Interval, t: Type, v: int, out: Env, n: string, k: int)
    requires Holds(i, t, v, out) && n !in IntervalNames(i)
    ensures Holds(i, t, v, out[n := k])
  {
    if i.min.Some? {
      UsesNames(i.min.value, n);
      EvalFrame(i.min.value, out, n, k);
      FineAgree(i.min.value, out, out[n := k]);
    }
    if i.max.Some? {
      UsesNames(i.max.value, n);
      EvalFrame(i.max.value, out, n, k);
      FineAgree(i.max.value, out, out[n := k]);
    }
  }

  /** A fresh outer name disturbs nothing. */
  lemma {:induction false} NamingCarries(ns: set<string>, w: World, n: string, v: int)
    requires n !in ns && n !in ScopeNames(w.scope)
    ensures Carries(ns, map[], map[], w, Naming(w, n, v))
  {
    var w' := Naming(w, n, v);
    forall y, t | y in ns && Known(map[], w, y, t) ensures VarOk(w', y, t) {
      if y in w.scope {
        assert forall m :: m in IntervalNames(w.scope[y]) ==> m in ScopeNames(w.scope);
        FrameInterval(w.scope[y], t, Lookup(w.env, y), w.out, n, v);
      }
    }
  }

  // ---- binders in force ----

  /** The let statements and loops around the current point, outermost first; a name may occur more than once. */
  datatype Binder = LetB(x: string, value: Expr) | LoopB(x: string)

  type Book = seq<Binder>

  /** The innermost binder of a name (its current instance), or -1. */
  function Latest(book: Book, y: string): (k: int)
    ensures -1 <= k < |book| && (k >= 0 ==> book[k].x == y)
  {
    if book == [] then -1
    else if book[|book| - 1].x == y then |book| - 1
    else Latest(book[..|book| - 1], y)
  }

  /** `y` is a let, and no name its value reads has been bound again since. */
  predicate CurrentLet(book: Book, y: string) {
    var k := Latest(book, y);
    k >= 0 && book[k].LetB? && forall z :: z in Names(book[k].value) ==> Latest(book, z) < k
  }

  datatype LetDef = LetDef(x: string, value: Expr)

  function DefOf(book: Book, y: string): LetDef
    requires CurrentLet(book, y)
  {
    LetDef(y, book[Latest(book, y)].value)
  }

  /** Entering a binder keeps the definitions that do not involve its name. */
  lemma {:induction false} CurrentBefore(book: Book, b: Binder, y: string)
    requires CurrentLet(book + [b], y) && y != b.x
    ensures CurrentLet(book, y) && DefOf(book, y) == DefOf(book + [b], y) && b.x !in Names(DefOf(book, y).value)
  {
    LatestSnoc(book, b, y);
    var k := Latest(book, y);
    forall z | z in Names(book[k].value) ensures Latest(book, z) < k && z != b.x {
      LatestSnoc(book, b, z);
      assert Latest(book + [b], z) < k;
    }
  }

  lemma {:induction false} LatestSnoc(book: Book, b: Binder, y: string)
    ensures Latest(book + [b], y) == if y == b.x then |book| else Latest(book, y)
  {
    assert (book + [b])[..|book|] == book;
  }

  ghost predicate LetHolds(l: LetDef, w: World) {
    && Fine(l.value, w.env) && Lookup(w.env, l.x) == Eval(l.value, w.env) && ExprIn(l.value, map[], w)
    && l.x in w.scope && Holds(w.scope[l.x], TypeOf(l.value), Lookup(w.env, l.x), w.out)
  }

  /** Every current definition holds. */
  ghost predicate LetsHold(book: Book, w: World) {
    forall y {:trigger CurrentLet(book, y)} :: CurrentLet(book, y) ==> LetHolds(DefOf(book, y), w)
  }

  function BinderNames(b: Binder): set<string> { {b.x} + if b.LetB? then Names(b.value) else {} }

  function BookNames(book: Book): set<string> {
    if book == [] then {} else BinderNames(book[0]) + BookNames(book[1..])
  }

  lemma {:induction false} BookNamesAt(book: Book, k: nat)
    requires k < |book|
    ensures BinderNames(book[k]) <= BookNames(book)
  {
    if k > 0 { BookNamesAt(book[1..], k - 1); }
  }

  lemma {:induction false} BookNamesSnoc(book: Book, b: Binder)
    ensures BookNames(book + [b]) == BookNames(book) + BinderNames(b)
  {
    if book != [] {
      assert (book + [b])[1..] == book[1..] + [b];
      BookNamesSnoc(book[1..], b);
    }
  }

  /** What running `s` in the scope needs. */
  ghost predicate Ready(s: Stmt, book: Book, w: World) {
    StmtFine(s, w.env) && StmtIn(s, map[], w) && LetsHold(book, w)
  }

  lemma {:induction false} LetBinds(l: LetDef, w: World, x: string, i: Interval, v: int)
    requires LetHolds(l, w) && x != l.x && x !in Names(l.value)
    ensures LetHolds(l, Bind(w, x, i, v))
  {
    UsesNames(l.value, x);
    EvalFrame(l.value, w.env, x, v);
    FineAgree(l.value, w.env, w.env[x := v]);
    BindIgnored(Names(l.value), w, x, i, v);
    ExprCarries(l.value, Names(l.value), map[], map[], w, Bind(w, x, i, v));
  }

  /** The other definitions survive a binder, shadowing or not. */
  lemma {:induction false} LetsBind(book: Book, w: World, b: Binder, i: Interval, v: int, y: string)
    requires LetsHold(book, w) && CurrentLet(book + [b], y) && y != b.x
    ensures LetHolds(DefOf(book + [b], y), Bind(w, b.x, i, v))
  {
    CurrentBefore(book, b, y);
    LetBinds(DefOf(book, y), w, b.x, i, v);
  }

  /** One loop iteration. */
  lemma {:induction false} ForReady(s: Stmt, book: Book, w: World, i: Interval, v: int)
    requires s.For? && Ready(s, book, w) && Holds(i, Int32, v, w.out)
    requires Eval(s.min, w.env) <= v < Eval(s.min, w.env) + Eval(s.extent, w.env)
    ensures Ready(s.body, book + [LoopB(s.x)], Bind(w, s.x, i, v))
  {
    var b, w' := LoopB(s.x), Bind(w, s.x, i, v);
    assert StmtFine(s.body, w.env[s.x := v]);
    BindCarries(StmtNames(s.body), w, s.x, Int32, i, v);
    StmtCarries(s.body, StmtNames(s.body), map[s.x := Int32], map[], w, w');
    forall y | CurrentLet(book + [b], y) ensures LetHolds(DefOf(book + [b], y), w') {
      LatestSnoc(book, b, y);
      LetsBind(book, w, b, i, v, y);
    }
  }

  /** The body of a let. */
  lemma {:induction false} LetReady(s: Stmt, book: Book, w: World, i: Interval)
    requires s.LetStmt? && Ready(s, book, w) && Holds(i, TypeOf(s.value), Eval(s.value, w.env), w.out)
    ensures Ready(s.body, book + [LetB(s.x, s.value)], Bind(w, s.x, i, Eval(s.value, w.env)))
  {
    var v, t, b := Eval(s.value, w.env), TypeOf(s.value), LetB(s.x, s.value);
    var w' := Bind(w, s.x, i, v);
    BindCarries(StmtNames(s.body), w, s.x, t, i, v);
    StmtCarries(s.body, StmtNames(s.body), map[s.x := t], map[], w, w');
    forall y | CurrentLet(book + [b], y) ensures LetHolds(DefOf(book + [b], y), w') {
      LatestSnoc(book, b, y);
      if y == s.x { NewLetHolds(s, book, w, i); } else { LetsBind(book, w, b, i, v, y); }
    }
  }

  /** A let whose value does not read the name it defines holds in its body. */
  lemma {:induction false} NewLetHolds(s: Stmt, book: Book, w: World, i: Interval)
    requires s.LetStmt? && Ready(s, book, w) && Holds(i, TypeOf(s.value), Eval(s.value, w.env), w.out)
    requires CurrentLet(book + [LetB(s.x, s.value)], s.x)
    ensures DefOf(book + [LetB(s.x, s.value)], s.x) == LetDef(s.x, s.value)
    ensures LetHolds(LetDef(s.x, s.value), Bind(w, s.x, i, Eval(s.value, w.env)))
  {
    var b, v := LetB(s.x, s.value), Eval(s.value, w.env);
    var w' := Bind(w, s.x, i, v);
    LatestSnoc(book, b, s.x);
    assert s.x !in Names(s.value);
    UsesNames(s.value, s.x);
    EvalFrame(s.value, w.env, s.x, v);
    FineAgree(s.value, w.env, w'.env);
    BindIgnored(Names(s.value), w, s.x, i, v);
    ExprCarries(s.value, Names(s.value), map[], map[], w, w');
  }

  lemma {:induction false} LetNarrows(l: LetDef, w: World, x: string, t: Type, i: Interval)
    requires LetHolds(l, w) && Fits(w, x, t, i)
    ensures LetHolds(l, Narrowed(w, x, i))
  {
    NarrowedCarries(Names(l.value), w, x, t, i);
    ExprCarries(l.value, Names(l.value), map[], map[], w, Narrowed(w, x, i));
    if l.x == x && i != EVERYTHING { assert t == TypeOf(l.value); }
  }

  /** A narrower interval for one variable. */
  lemma {:induction false} NarrowedReady(s: Stmt, book: Book, w: World, x: string, t: Type, i: Interval)
    requires Ready(s, book, w) && Fits(w, x, t, i)
    ensures Ready(s, book, Narrowed(w, x, i))
  {
    NarrowedCarries(StmtNames(s), w, x, t, i);
    StmtCarries(s, StmtNames(s), map[], map[], w, Narrowed(w, x, i));
    forall y | CurrentLet(book, y) ensures LetHolds(DefOf(book, y), Narrowed(w, x, i)) {
      LetNarrows(DefOf(book, y), w, x, t, i);
    }
  }

  lemma {:induction false} LetNaming(l: LetDef, w: World, n: string, v: int)
    requires LetHolds(l, w) && n !in Names(l.value) && n !in ScopeNames(w.scope)
    ensures LetHolds(l, Naming(w, n, v))
  {
    NamingCarries(Names(l.value), w, n, v);
    ExprCarries(l.value, Names(l.value), map[], map[], w, Naming(w, n, v));
    assert forall m :: m in IntervalNames(w.scope[l.x]) ==> m in ScopeNames(w.scope);
    FrameInterval(w.scope[l.x], TypeOf(l.value), Lookup(w.env, l.x), w.out, n, v);
  }

  /** A fresh name outside. */
  lemma {:induction false} NamingReady(s: Stmt, book: Book, w: World, n: string, v: int)
    requires Ready(s, book, w) && n !in StmtNames(s) && n !in BookNames(book) && n !in ScopeNames(w.scope)
    ensures Ready(s, book, Naming(w, n, v))
  {
    NamingCarries(StmtNames(s), w, n, v);
    StmtCarries(s, StmtNames(s), map[], map[], w, Naming(w, n, v));
    forall y | CurrentLet(book, y) ensures LetHolds(DefOf(book, y), Naming(w, n, v)) {
      BookNamesAt(book, Latest(book, y));
      LetNaming(DefOf(book, y), w, n, v);
    }
  }

  /** `y` is bound and equal in the two environments, or read from the world. */
  predicate Twin(bound: map<string, Type>, w: World, env: Env, out: Env, y: string) {
    if y in bound then Lookup(env, y) == Lookup(out, y)
    else Lookup(env, y) == Lookup(w.env, y) && Lookup(out, y) == Lookup(w.out, y)
  }

  ghost predicate Twins(bound: map<string, Type>, w: World, env: Env, out: Env) {
    forall y {:trigger Twin(bound, w, env, out, y)} :: Twin(bound, w, env, out, y)
  }

  lemma {:induction false} TwinsUnder(bound: map<string, Type>, w: World, env: Env, out: Env, x: string, t: Type,
                                      k: int)
    requires Twins(bound, w, env, out)
    ensures Twins(bound[x := t], w, env[x := k], out[x := k])
  {
    var bound', env', out' := bound[x := t], env[x := k], out[x := k];
    forall y ensures Twin(bound', w, env', out', y) { assert Twin(bound, w, env, out, y); }
  }

  /** A condition over unscoped names has the same value inside and outside. */
  lemma {:induction false} UnscopedEval(e: Expr, bound: map<string, Type>, w: World, env: Env, out: Env)
    requires ExprIn(e, bound, w) && Names(e) !! w.scope.Keys
    requires Twins(bound, w, env, out)
    ensures Eval(e, env) == Eval(e, out)
    decreases e, 1
  {
    match e
    case Const(_, _) =>
    case Var(_, x) => assert Twin(bound, w, env, out, x);
    case Cast(_, a) => UnscopedEval(a, bound, w, env, out);
    case Bin(_, a, b) => UnscopedEval(a, bound, w, env, out); UnscopedEval(b, bound, w, env, out);
    case Cmp(_, a, b) => UnscopedEval(a, bound, w, env, out); UnscopedEval(b, bound, w, env, out);
    case And(a, b) => UnscopedEval(a, bound, w, env, out); UnscopedEval(b, bound, w, env, out);
    case Or(a, b) => UnscopedEval(a, bound, w, env, out); UnscopedEval(b, bound, w, env, out);
    case Not(a) => UnscopedEval(a, bound, w, env, out);
    case Select(c, t, f) =>
      UnscopedEval(c, bound, w, env, out);
      UnscopedEval(t, bound, w, env, out);
      UnscopedEval(f, bound, w, env, out);
    case Let(_, _, _) => UnscopedLet(e, bound, w, env, out);
  }

  lemma {:induction false} UnscopedLet(e: Expr, bound: map<string, Type>, w: World, env: Env, out: Env)
    requires e.Let? && ExprIn(e, bound, w) && Names(e) !! w.scope.Keys && Twins(bound, w, env, out)
    ensures Eval(e, env) == Eval(e, out)
    decreases e, 0
  {
    var x, t, k := e.lname, TypeOf(e.lvalue), Eval(e.lvalue, env);
    UnscopedEval(e.lvalue, bound, w, env, out);
    TwinsUnder(bound, w, env, out, x, t, k);
    UnscopedEval(e.body, bound[x := t], w, env[x := k], out[x := k]);
  }
}
