/**
 * Interval analysis of expressions: the visitor, the function it computes, and its soundness.
 *
 * Bounds are themselves expressions.  A scope gives the inner variables intervals over the
 * outer ones, so a value computed in the inner environment `env` is compared with bounds
 * read in the outer environment `out`.
 */
module Bounds {
  import opened Wrappers
  import opened Ir
  import opened Intervals
  import opened BoundsArith
  import opened BoundsMulDiv
  import opened BoundsDivMod
  import opened BoundsLogic
  import opened BoundsCast

  function BinRule(o: Oracle, e: Expr, a: Interval, b: Interval): Interval
    requires e.Bin?
  {
    match e.op
    case Add => AddRule(o, e, a, b)
    case Sub => SubRule(o, e, a, b)
    case Mul => MulRule(o, e, a, b)
    case Div => DivRule(o, e, a, b)
    case Mod => ModRule(e, a, b)
    case _ => ExtremeRule(e, a, b)
  }

  function CmpRule(e: Expr, a: Interval, b: Interval): Interval
    requires e.Cmp?
  {
    match e.cop
    case LT => CompareRule(LT, a, b)
    case LE => CompareRule(LE, a, b)
    case GT => CompareRule(LT, b, a)
    case GE => CompareRule(LE, b, a)
    case _ => EqualRule(e, a, b)
  }

  /**
   * The interval of an expression.  `depth` bounds how often a narrowing cast may analyse its
   * operand's bounds again; the results below hold for every depth.
   */
  function BoundsOf(o: Oracle, depth: nat, e: Expr, scope: Scope, constBound: bool): Interval
    decreases depth, e, 1
  {
    match e
    case Const(_, _) => Point(e)
    case Var(_, _) => VarRule(e, scope, constBound)
    case Cast(_, v) =>
      var a := BoundsOf(o, depth, v, scope, constBound);
      var again := Again(o, depth, e, a, scope);
      CastRule(o, e, a, again.min, again.max)
    case Bin(_, x, y) => BinRule(o, e, BoundsOf(o, depth, x, scope, constBound),
                                 BoundsOf(o, depth, y, scope, constBound))
    case Cmp(_, x, y) => CmpRule(e, BoundsOf(o, depth, x, scope, constBound), BoundsOf(o, depth, y, scope, constBound))
    case And(x, y) => ConjRule(e, true, x, y, BoundsOf(o, depth, x, scope, constBound),
                               BoundsOf(o, depth, y, scope, constBound))
    case Or(x, y) => ConjRule(e, false, x, y, BoundsOf(o, depth, x, scope, constBound),
                              BoundsOf(o, depth, y, scope, constBound))
    case Not(x) => NotRule(e, BoundsOf(o, depth, x, scope, constBound))
    case Select(c, t, f) =>
      SelectRule(o, TypeOf(e), BoundsOf(o, depth, t, scope, constBound), BoundsOf(o, depth, f, scope, constBound),
                 BoundsOf(o, depth, c, scope, constBound))
    case Let(x, v, b) =>
      var val := BoundsOf(o, depth, v, scope, constBound);
      LetRule(x, val, BoundsOf(o, depth, b, scope[x := LetVar(x, TypeOf(v), val)], constBound))
  }

  /** The constants found for the bounds of a narrowing cast's operand, if any. */
  function Again(o: Oracle, depth: nat, e: Expr, a: Interval, scope: Scope): Interval
    requires e.Cast?
    decreases depth, e, 0
  {
    if depth > 0 && Strips(e, a) then
      Interval(BoundsOf(o, depth - 1, o.simplify(a.min.value), scope, true).min,
               BoundsOf(o, depth - 1, o.simplify(a.max.value), scope, true).max)
    else EVERYTHING
  }

  // ---- environments and scopes ----

  /**
   * Each free variable of `e` lies in its interval in the scope, or has the same value inside and
   * outside; variables bound around `e` have the recorded type.
   */
  predicate InScope(e: Expr, bound: map<string, Type>, scope: Scope, env: Env, out: Env) {
    match e
    case Const(_, _) => true
    case Var(t, x) =>
      if x in bound then bound[x] == t
      else if x in scope then Holds(scope[x], t, Lookup(env, x), out)
      else Lookup(env, x) == Lookup(out, x)
    case Cast(_, a) => InScope(a, bound, scope, env, out)
    case Bin(_, a, b) => InScope(a, bound, scope, env, out) && InScope(b, bound, scope, env, out)
    case Cmp(_, a, b) => InScope(a, bound, scope, env, out) && InScope(b, bound, scope, env, out)
    case And(a, b) => InScope(a, bound, scope, env, out) && InScope(b, bound, scope, env, out)
    case Or(a, b) => InScope(a, bound, scope, env, out) && InScope(b, bound, scope, env, out)
    case Not(a) => InScope(a, bound, scope, env, out)
    case Select(c, t, f) =>
      InScope(c, bound, scope, env, out) && InScope(t, bound, scope, env, out) && InScope(f, bound, scope, env, out)
    case Let(x, v, b) => InScope(v, bound, scope, env, out) && InScope(b, bound[x := TypeOf(v)], scope, env, out)
  }

  /** No scoped variable occurs free, and lets are used at their type. */
  predicate Unscoped(e: Expr, bound: map<string, Type>, scope: Scope) {
    match e
    case Const(_, _) => true
    case Var(t, x) => if x in bound then bound[x] == t else x !in scope
    case Cast(_, a) => Unscoped(a, bound, scope)
    case Bin(_, a, b) => Unscoped(a, bound, scope) && Unscoped(b, bound, scope)
    case Cmp(_, a, b) => Unscoped(a, bound, scope) && Unscoped(b, bound, scope)
    case And(a, b) => Unscoped(a, bound, scope) && Unscoped(b, bound, scope)
    case Or(a, b) => Unscoped(a, bound, scope) && Unscoped(b, bound, scope)
    case Not(a) => Unscoped(a, bound, scope)
    case Select(c, t, f) => Unscoped(c, bound, scope) && Unscoped(t, bound, scope) && Unscoped(f, bound, scope)
    case Let(x, v, b) => Unscoped(v, bound, scope) && Unscoped(b, bound[x := TypeOf(v)], scope)
  }

  lemma {:induction false} UnscopedInScope(e: Expr, bound: map<string, Type>, scope: Scope, out: Env)
    requires Unscoped(e, bound, scope)
    ensures InScope(e, bound, scope, out, out)
  {
    match e
    case Const(_, _) =>
    case Var(_, _) =>
    case Cast(_, a) => UnscopedInScope(a, bound, scope, out);
    case Bin(_, a, b) => UnscopedInScope(a, bound, scope, out); UnscopedInScope(b, bound, scope, out);
    case Cmp(_, a, b) => UnscopedInScope(a, bound, scope, out); UnscopedInScope(b, bound, scope, out);
    case And(a, b) => UnscopedInScope(a, bound, scope, out); UnscopedInScope(b, bound, scope, out);
    case Or(a, b) => UnscopedInScope(a, bound, scope, out); UnscopedInScope(b, bound, scope, out);
    case Not(a) => UnscopedInScope(a, bound, scope, out);
    case Select(c, t, f) =>
      UnscopedInScope(c, bound, scope, out);
      UnscopedInScope(t, bound, scope, out);
      UnscopedInScope(f, bound, scope, out);
    case Let(x, v, b) => UnscopedInScope(v, bound, scope, out); UnscopedInScope(b, bound[x := TypeOf(v)], scope, out);
  }

  predicate EndsAvoid(i: Interval, n: string) {
    (i.min.Some? ==> !Uses(i.min.value, n)) && (i.max.Some? ==> !Uses(i.max.value, n))
  }

  /** The names a let introduces for its bounds are not in use; its own variable's old interval goes anyway. */
  predicate LetNamesFree(x: string, body: Expr, scope: Scope) {
    && !Uses(body, MinName(x)) && !Uses(body, MaxName(x))
    && forall y :: y in scope && y != x ==> EndsAvoid(scope[y], MinName(x)) && EndsAvoid(scope[y], MaxName(x))
  }

  lemma {:induction false} FrameHolds(i: Interval, t: Type, v: int, x: string, val: Interval, out: Env)
    requires Holds(i, t, v, out) && EndsAvoid(i, MinName(x)) && EndsAvoid(i, MaxName(x))
    ensures Holds(i, t, v, LetOut(x, val, out))
  {
    var out1 := if NamesMax(val) then out[MaxName(x) := Eval(val.max.value, out)] else out;
    if i.min.Some? {
      if NamesMax(val) { FrameEnd(i.min.value, t, out, MaxName(x), Eval(val.max.value, out)); }
      if NamesMin(val) { FrameEnd(i.min.value, t, out1, MinName(x), Eval(val.min.value, out)); }
    }
    if i.max.Some? {
      if NamesMax(val) { FrameEnd(i.max.value, t, out, MaxName(x), Eval(val.max.value, out)); }
      if NamesMin(val) { FrameEnd(i.max.value, t, out1, MinName(x), Eval(val.min.value, out)); }
    }
  }

  /** `inner` is `outer` without the variable that is being entered. */
  predicate Entering(outer: map<string, Type>, inner: map<string, Type>, x: string, t: Type) {
    && x in outer && (forall y :: y in inner ==> y in outer && inner[y] == outer[y])
    && (forall y :: y in outer && y !in inner ==> y == x && outer[y] == t)
  }

  datatype Entry = Entry(x: string, t: Type, val: Interval, v: int)

  /** Inside a let, its variable lies in the interval recorded for it. */
  lemma {:induction false} Enter(e: Expr, outer: map<string, Type>, inner: map<string, Type>, scope: Scope, n: Entry,
                                 env: Env, out: Env)
    requires InScope(e, outer, scope, env, out) && Entering(outer, inner, n.x, n.t)
    requires Holds(n.val, n.t, n.v, out) && LetNamesFree(n.x, e, scope)
    ensures InScope(e, inner, scope[n.x := LetVar(n.x, n.t, n.val)], env[n.x := n.v], LetOut(n.x, n.val, out))
  {
    match e
    case Const(_, _) =>
    case Var(_, _) => EnterVar(e, outer, inner, scope, n, env, out);
    case Cast(_, a) => Enter(a, outer, inner, scope, n, env, out);
    case Bin(_, a, b) => Enter(a, outer, inner, scope, n, env, out); Enter(b, outer, inner, scope, n, env, out);
    case Cmp(_, a, b) => Enter(a, outer, inner, scope, n, env, out); Enter(b, outer, inner, scope, n, env, out);
    case And(a, b) => Enter(a, outer, inner, scope, n, env, out); Enter(b, outer, inner, scope, n, env, out);
    case Or(a, b) => Enter(a, outer, inner, scope, n, env, out); Enter(b, outer, inner, scope, n, env, out);
    case Not(a) => Enter(a, outer, inner, scope, n, env, out);
    case Select(c, t, f) =>
      Enter(c, outer, inner, scope, n, env, out);
      Enter(t, outer, inner, scope, n, env, out);
      Enter(f, outer, inner, scope, n, env, out);
    case Let(y, v, b) =>
      Enter(v, outer, inner, scope, n, env, out);
      Enter(b, outer[y := TypeOf(v)], inner[y := TypeOf(v)], scope, n, env, out);
  }

  lemma {:induction false} EnterVar(e: Expr, outer: map<string, Type>, inner: map<string, Type>, scope: Scope,
                                    n: Entry, env: Env, out: Env)
    requires e.Var? && InScope(e, outer, scope, env, out) && Entering(outer, inner, n.x, n.t)
    requires Holds(n.val, n.t, n.v, out) && LetNamesFree(n.x, e, scope)
    ensures InScope(e, inner, scope[n.x := LetVar(n.x, n.t, n.val)], env[n.x := n.v], LetOut(n.x, n.val, out))
  {
    if e.name in inner {
    } else if e.name == n.x {
      LetVarHolds(n.x, n.t, n.val, n.v, out);
    } else if e.name in scope {
      FrameHolds(scope[e.name], e.vty, Lookup(env, e.name), n.x, n.val, out);
    }
  }

  // ---- where the analysis is sound ----

  ghost predicate BinGuard(e: Expr, a: Interval, b: Interval, out: Env)
    requires e.Bin?
  {
    match e.op
    case Add => AddGuard(e, a, b)
    case Sub => SubGuard(e, a, b)
    case Mul => MulGuard(a, b)
    case Div => DivGuard(e, a, b, out)
    case Mod => ModGuard(b)
    case _ => true
  }

  /** Every node avoids the rules that do not hold in general; each guard is that of one failing branch. */
  ghost predicate Safe(o: Oracle, depth: nat, e: Expr, scope: Scope, constBound: bool, out: Env)
    decreases depth, e, 1
  {
    match e
    case Const(_, _) => true
    case Var(_, _) => true
    case Cast(_, v) =>
      && Safe(o, depth, v, scope, constBound, out)
      && SafeAgain(o, depth, e, BoundsOf(o, depth, v, scope, constBound), scope, out)
    case Bin(_, x, y) =>
      && Safe(o, depth, x, scope, constBound, out) && Safe(o, depth, y, scope, constBound, out)
      && BinGuard(e, BoundsOf(o, depth, x, scope, constBound), BoundsOf(o, depth, y, scope, constBound), out)
    case Cmp(_, x, y) => Safe(o, depth, x, scope, constBound, out) && Safe(o, depth, y, scope, constBound, out)
    case And(x, y) => Safe(o, depth, x, scope, constBound, out) && Safe(o, depth, y, scope, constBound, out)
    case Or(x, y) => Safe(o, depth, x, scope, constBound, out) && Safe(o, depth, y, scope, constBound, out)
    case Not(x) => Safe(o, depth, x, scope, constBound, out)
    case Select(c, t, f) =>
      && Safe(o, depth, c, scope, constBound, out) && Safe(o, depth, t, scope, constBound, out)
      && Safe(o, depth, f, scope, constBound, out)
    case Let(x, v, b) =>
      var val := BoundsOf(o, depth, v, scope, constBound);
      && Safe(o, depth, v, scope, constBound, out)
      && NoCapture(x, val) && LetNamesFree(x, b, scope)
      && Safe(o, depth, b, scope[x := LetVar(x, TypeOf(v), val)], constBound, LetOut(x, val, out))
  }

  /** The bounds analysed again belong to the outer environment, so no scoped name may be read in them. */
  ghost predicate SafeAgain(o: Oracle, depth: nat, e: Expr, a: Interval, scope: Scope, out: Env)
    requires e.Cast?
    decreases depth, e, 0
  {
    depth > 0 && Strips(e, a) ==>
      && Unscoped(o.simplify(a.min.value), map[], scope) && Unscoped(o.simplify(a.max.value), map[], scope)
      && Safe(o, depth - 1, o.simplify(a.min.value), scope, true, out)
      && Safe(o, depth - 1, o.simplify(a.max.value), scope, true, out)
  }

  // ---- soundness ----

  lemma {:induction false} BinSound(o: Oracle, e: Expr, a: Interval, b: Interval, env: Env, out: Env)
    requires OracleOk(o) && e.Bin? && Fine(e, env) && BinGuard(e, a, b, out)
    requires Holds(a, TypeOf(e), Eval(e.a, env), out) && Holds(b, TypeOf(e), Eval(e.b, env), out)
    ensures Holds(BinRule(o, e, a, b), TypeOf(e), Eval(e, env), out)
  {
    FineInRange(e.a, env);
    FineInRange(e.b, env);
    BinRuleSound(o, e, a, b, Eval(e.a, env), Eval(e.b, env), out);
  }

  lemma {:induction false} BinRuleSound(o: Oracle, e: Expr, a: Interval, b: Interval, va: int, vb: int, out: Env)
    requires OracleOk(o) && e.Bin? && BinGuard(e, a, b, out) && (e.op.Div? || e.op.Mod? ==> vb != 0)
    requires Holds(a, TypeOf(e), va, out) && Holds(b, TypeOf(e), vb, out)
    requires InRange(TypeOf(e), va) && InRange(TypeOf(e), vb)
    ensures Holds(BinRule(o, e, a, b), TypeOf(e), Wrap(TypeOf(e), DoBin(e.op, va, vb)), out)
  {
    match e.op
    case Add => AddSound(o, e, a, b, va, vb, out);
    case Sub => SubSound(o, e, a, b, va, vb, out);
    case Mul => MulSound(o, e, a, b, va, vb, out);
    case Div => DivSound(o, e, a, b, va, vb, out);
    case Mod => ModSound(e, a, b, va, vb, out);
    case Min => ExtremeSound(e, a, b, va, vb, out);
    case Max => ExtremeSound(e, a, b, va, vb, out);
  }

  lemma {:induction false} CmpSound(e: Expr, a: Interval, b: Interval, env: Env, out: Env)
    requires e.Cmp? && Fine(e, env)
    requires Holds(a, TypeOf(e.ca), Eval(e.ca, env), out) && Holds(b, TypeOf(e.ca), Eval(e.cb, env), out)
    ensures Holds(CmpRule(e, a, b), UInt1, Eval(e, env), out)
  {
    var va, vb, t := Eval(e.ca, env), Eval(e.cb, env), TypeOf(e.ca);
    match e.cop
    case LT => CompareSound(LT, a, b, t, va, vb, out);
    case LE => CompareSound(LE, a, b, t, va, vb, out);
    case GT => CompareSound(LT, b, a, t, vb, va, out);
    case GE => CompareSound(LE, b, a, t, vb, va, out);
    case EQ => EqualSound(e, a, b, t, va, vb, out);
    case NE => EqualSound(e, a, b, t, va, vb, out);
  }

  /** What the analysis promises of one expression. */
  ghost predicate Sound(o: Oracle, depth: nat, e: Expr, scope: Scope, constBound: bool, env: Env, out: Env) {
    Holds(BoundsOf(o, depth, e, scope, constBound), TypeOf(e), Eval(e, env), out)
  }

  ghost predicate Analysable(o: Oracle, depth: nat, e: Expr, scope: Scope, constBound: bool, env: Env, out: Env) {
    Fine(e, env) && InScope(e, map[], scope, env, out) && Safe(o, depth, e, scope, constBound, out)
  }

  /**
   * Soundness: the value of the expression lies in the interval, in symbolic and in constant mode,
   * for every environment inside the scope.
   */
  lemma {:induction false} BoundsSound(o: Oracle, depth: nat, e: Expr, scope: Scope, constBound: bool, env: Env,
                                       out: Env)
    requires OracleOk(o) && Analysable(o, depth, e, scope, constBound, env, out)
    ensures Sound(o, depth, e, scope, constBound, env, out)
    decreases depth, e, 1
  {
    match e
    case Const(_, _) =>
    case Var(_, _) => VarSound(e, scope, constBound, env, out);
    case Cast(_, _) => CastCase(o, depth, e, scope, constBound, env, out);
    case Bin(_, _, _) => BinCase(o, depth, e, scope, constBound, env, out);
    case Cmp(_, _, _) => CmpCase(o, depth, e, scope, constBound, env, out);
    case And(_, _) => AndCase(o, depth, e, scope, constBound, env, out);
    case Or(_, _) => OrCase(o, depth, e, scope, constBound, env, out);
    case Not(_) => NotCase(o, depth, e, scope, constBound, env, out);
    case Select(_, _, _) => SelectCase(o, depth, e, scope, constBound, env, out);
    case Let(_, _, _) => LetCase(o, depth, e, scope, constBound, env, out);
  }

  lemma {:induction false} BinCase(o: Oracle, depth: nat, e: Expr, scope: Scope, constBound: bool, env: Env, out: Env)
    requires OracleOk(o) && e.Bin? && Analysable(o, depth, e, scope, constBound, env, out)
    ensures Sound(o, depth, e, scope, constBound, env, out)
    decreases depth, e, 0
  {
    BoundsSound(o, depth, e.a, scope, constBound, env, out);
    BoundsSound(o, depth, e.b, scope, constBound, env, out);
    BinSound(o, e, BoundsOf(o, depth, e.a, scope, constBound), BoundsOf(o, depth, e.b, scope, constBound), env, out);
  }

  lemma {:induction false} CmpCase(o: Oracle, depth: nat, e: Expr, scope: Scope, constBound: bool, env: Env, out: Env)
    requires OracleOk(o) && e.Cmp? && Analysable(o, depth, e, scope, constBound, env, out)
    ensures Sound(o, depth, e, scope, constBound, env, out)
    decreases depth, e, 0
  {
    BoundsSound(o, depth, e.ca, scope, constBound, env, out);
    BoundsSound(o, depth, e.cb, scope, constBound, env, out);
    CmpSound(e, BoundsOf(o, depth, e.ca, scope, constBound), BoundsOf(o, depth, e.cb, scope, constBound), env, out);
  }

  lemma {:induction false} AndCase(o: Oracle, depth: nat, e: Expr, scope: Scope, constBound: bool, env: Env, out: Env)
    requires OracleOk(o) && e.And? && Analysable(o, depth, e, scope, constBound, env, out)
    ensures Sound(o, depth, e, scope, constBound, env, out)
    decreases depth, e, 0
  {
    BoundsSound(o, depth, e.l, scope, constBound, env, out);
    BoundsSound(o, depth, e.r, scope, constBound, env, out);
    FineInRange(e.l, env);
    FineInRange(e.r, env);
    ConjSound(e, true, e.l, e.r, BoundsOf(o, depth, e.l, scope, constBound),
              BoundsOf(o, depth, e.r, scope, constBound), Eval(e.l, env),
              Eval(e.r, env), out);
  }

  lemma {:induction false} OrCase(o: Oracle, depth: nat, e: Expr, scope: Scope, constBound: bool, env: Env, out: Env)
    requires OracleOk(o) && e.Or? && Analysable(o, depth, e, scope, constBound, env, out)
    ensures Sound(o, depth, e, scope, constBound, env, out)
    decreases depth, e, 0
  {
    BoundsSound(o, depth, e.l, scope, constBound, env, out);
    BoundsSound(o, depth, e.r, scope, constBound, env, out);
    FineInRange(e.l, env);
    FineInRange(e.r, env);
    ConjSound(e, false, e.l, e.r, BoundsOf(o, depth, e.l, scope, constBound),
              BoundsOf(o, depth, e.r, scope, constBound), Eval(e.l, env),
              Eval(e.r, env), out);
  }

  lemma {:induction false} NotCase(o: Oracle, depth: nat, e: Expr, scope: Scope, constBound: bool, env: Env, out: Env)
    requires OracleOk(o) && e.Not? && Analysable(o, depth, e, scope, constBound, env, out)
    ensures Sound(o, depth, e, scope, constBound, env, out)
    decreases depth, e, 0
  {
    BoundsSound(o, depth, e.n, scope, constBound, env, out);
    FineInRange(e.n, env);
    NotSound(e, BoundsOf(o, depth, e.n, scope, constBound), Eval(e.n, env), out);
  }

  lemma {:induction false} SelectCase(o: Oracle, depth: nat, e: Expr, scope: Scope, constBound: bool, env: Env,
                                      out: Env)
    requires OracleOk(o) && e.Select? && Analysable(o, depth, e, scope, constBound, env, out)
    ensures Sound(o, depth, e, scope, constBound, env, out)
    decreases depth, e, 0
  {
    BoundsSound(o, depth, e.cond, scope, constBound, env, out);
    BoundsSound(o, depth, e.onTrue, scope, constBound, env, out);
    BoundsSound(o, depth, e.onFalse, scope, constBound, env, out);
    FineInRange(e.cond, env);
    SelectSound(o, TypeOf(e), BoundsOf(o, depth, e.onTrue, scope, constBound),
                BoundsOf(o, depth, e.onFalse, scope, constBound),
                BoundsOf(o, depth, e.cond, scope, constBound), Eval(e.onTrue, env), Eval(e.onFalse, env),
                  Eval(e.cond, env), out);
  }

  lemma {:induction false} LetCase(o: Oracle, depth: nat, e: Expr, scope: Scope, constBound: bool, env: Env, out: Env)
    requires OracleOk(o) && e.Let? && Analysable(o, depth, e, scope, constBound, env, out)
    ensures Sound(o, depth, e, scope, constBound, env, out)
    decreases depth, e, 0
  {
    BoundsSound(o, depth, e.lvalue, scope, constBound, env, out);
    var x, val := e.lname, BoundsOf(o, depth, e.lvalue, scope, constBound);
    LetEnters(o, depth, e, scope, constBound, env, out);
    var scope', env', out' := scope[x := LetVar(x, TypeOf(e.lvalue), val)], env[x := Eval(e.lvalue, env)],
      LetOut(x, val, out);
    BoundsSound(o, depth, e.body, scope', constBound, env', out');
    LetSound(x, val, BoundsOf(o, depth, e.body, scope', constBound), TypeOf(e.body), TypeOf(e.lvalue),
             Eval(e.lvalue, env), Eval(e, env), out);
  }

  /** The let's body is analysable in the extended scope and environments. */
  lemma {:induction false} LetEnters(o: Oracle, depth: nat, e: Expr, scope: Scope, constBound: bool, env: Env, out: Env)
    requires e.Let? && Analysable(o, depth, e, scope, constBound, env, out)
    requires Sound(o, depth, e.lvalue, scope, constBound, env, out)
    ensures var val := BoundsOf(o, depth, e.lvalue, scope, constBound);
      Analysable(o, depth, e.body, scope[e.lname := LetVar(e.lname, TypeOf(e.lvalue), val)], constBound,
                 env[e.lname := Eval(e.lvalue, env)], LetOut(e.lname, val, out))
  {
    var x, t, val, v := e.lname, TypeOf(e.lvalue), BoundsOf(o, depth, e.lvalue, scope, constBound), Eval(e.lvalue, env);
    Enter(e.body, map[x := t], map[], scope, Entry(x, t, val, v), env, out);
  }

  lemma {:induction false} CastCase(o: Oracle, depth: nat, e: Expr, scope: Scope, constBound: bool, env: Env, out: Env)
    requires OracleOk(o) && e.Cast? && Analysable(o, depth, e, scope, constBound, env, out)
    ensures Sound(o, depth, e, scope, constBound, env, out)
    decreases depth, e, 0
  {
    BoundsSound(o, depth, e.arg, scope, constBound, env, out);
    var a := BoundsOf(o, depth, e.arg, scope, constBound);
    var v := Eval(e.arg, env);
    FineInRange(e.arg, env);
    assert SafeAgain(o, depth, e, a, scope, out);
    AgainHolds(o, depth, e, a, scope, v, out);
    var again := Again(o, depth, e, a, scope);
    CastSound(o, e, a, again.min, again.max, v, out);
  }

  /** The constants found for the operand's bounds hold its value. */
  lemma {:induction false} AgainHolds(o: Oracle, depth: nat, e: Expr, a: Interval, scope: Scope, v: int, out: Env)
    requires OracleOk(o) && e.Cast? && SafeAgain(o, depth, e, a, scope, out) && Holds(a, TypeOf(e.arg), v, out)
    ensures Holds(Again(o, depth, e, a, scope), TypeOf(e.arg), v, out)
    decreases depth, e, -1
  {
    if depth > 0 && Strips(e, a) {
      AgainSound(o, depth - 1, a.min.value, scope, out);
      AgainSound(o, depth - 1, a.max.value, scope, out);
    }
  }

  lemma {:induction false} AgainSound(o: Oracle, depth: nat, x: Expr, scope: Scope, out: Env)
    requires OracleOk(o) && Fine(x, out) && Unscoped(o.simplify(x), map[], scope)
    requires Safe(o, depth, o.simplify(x), scope, true, out)
    ensures Holds(BoundsOf(o, depth, o.simplify(x), scope, true), TypeOf(x), Eval(x, out), out)
    decreases depth, o.simplify(x), 2
  {
    assert SimplifyOk(o, x, out);
    UnscopedInScope(o.simplify(x), map[], scope, out);
    BoundsSound(o, depth, o.simplify(x), scope, true, out, out);
  }

  // ---- constant bounds ----

  /** find_constant_bounds: analyse in constant mode, simplify, and drop ends that are not constant. */
  function ConstantEnd(o: Oracle, x: Option<Expr>): Option<Expr> {
    if x.Some? && IsConst(o.simplify(x.value)) then Some(o.simplify(x.value)) else None
  }

  function ConstantBounds(o: Oracle, depth: nat, e: Expr, scope: Scope): Interval {
    var i := BoundsOf(o, depth, e, scope, true);
    Interval(ConstantEnd(o, i.min), ConstantEnd(o, i.max))
  }

  lemma {:induction false} ConstantBoundsSound(o: Oracle, depth: nat, e: Expr, scope: Scope, env: Env, out: Env)
    requires OracleOk(o) && Analysable(o, depth, e, scope, true, env, out)
    ensures Holds(ConstantBounds(o, depth, e, scope), TypeOf(e), Eval(e, env), out)
  {
    BoundsSound(o, depth, e, scope, true, env, out);
    var i := BoundsOf(o, depth, e, scope, true);
    if i.min.Some? { assert SimplifyOk(o, i.min.value, out); }
    if i.max.Some? { assert SimplifyOk(o, i.max.value, out); }
  }
}
