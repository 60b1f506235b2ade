/**
 * The fragment of Halide's expression language that the other modules share:
 * typed scalar expressions, their evaluation, and the conservative
 * "uses this variable" test.
 *
 * Signed 32- and 64-bit arithmetic is mathematical (the language leaves overflow
 * undefined there); 1-, 8- and 16-bit arithmetic wraps.  Division and modulus are
 * Euclidean, as in the language and in Dafny.
 */
module Ir {

  datatype Type = Int8 | Int16 | Int32 | Int64 | UInt1 | UInt8 | UInt16

  datatype BinOp = Add | Sub | Mul | Div | Mod | Min | Max

  datatype CmpOp = LT | LE | GT | GE | EQ | NE

  datatype Expr =
    | Const(ty: Type, value: int)
    | Var(vty: Type, name: string)
    | Cast(to: Type, arg: Expr)
    | Bin(op: BinOp, a: Expr, b: Expr)
    | Cmp(cop: CmpOp, ca: Expr, cb: Expr)
    | And(l: Expr, r: Expr)
    | Or(l: Expr, r: Expr)
    | Not(n: Expr)
    | Select(cond: Expr, onTrue: Expr, onFalse: Expr)
    | Let(lname: string, lvalue: Expr, body: Expr)

  type Env = map<string, int>

  // ---- types ----

  predicate IsNarrow(t: Type) { t != Int32 && t != Int64 }

  predicate IsUInt(t: Type) { t == UInt1 || t == UInt8 || t == UInt16 }

  function Lo(t: Type): int
  {
    match t
    case Int8 => -128
    case Int16 => -32768
    case _ => 0
  }

  function Hi(t: Type): int
  {
    match t
    case Int8 => 127
    case Int16 => 32767
    case UInt1 => 1
    case UInt8 => 255
    case UInt16 => 65535
    case _ => 0
  }

  predicate InRange(t: Type, v: int) { IsNarrow(t) ==> Lo(t) <= v <= Hi(t) }

  /** Two's complement or unsigned wrap-around for the narrow types, the identity for the others. */
  function Wrap(t: Type, v: int): (r: int)
    ensures InRange(t, r)
    ensures InRange(t, v) ==> r == v
    ensures IsNarrow(t) ==> (v - r) % (Hi(t) - Lo(t) + 1) == 0
  {
    if IsNarrow(t) then (v - Lo(t)) % (Hi(t) - Lo(t) + 1) + Lo(t) else v
  }

  function TypeOf(e: Expr): Type
  {
    match e
    case Const(t, _) => t
    case Var(t, _) => t
    case Cast(t, _) => t
    case Bin(_, a, _) => TypeOf(a)
    case Cmp(_, _, _) => UInt1
    case And(_, _) => UInt1
    case Or(_, _) => UInt1
    case Not(_) => UInt1
    case Select(_, t, _) => TypeOf(t)
    case Let(_, _, b) => TypeOf(b)
  }

  // ---- evaluation ----

  function Lookup(env: Env, x: string): int { if x in env then env[x] else 0 }

  function MinInt(x: int, y: int): int { if x <= y then x else y }

  function MaxInt(x: int, y: int): int { if x <= y then y else x }

  function Truth(b: bool): int { if b then 1 else 0 }

  /** Division by zero has no meaning in the language; the evaluator totalises it. */
  function DoBin(op: BinOp, x: int, y: int): int
  {
    match op
    case Add => x + y
    case Sub => x - y
    case Mul => x * y
    case Div => if y == 0 then 0 else x / y
    case Mod => if y == 0 then 0 else x % y
    case Min => MinInt(x, y)
    case Max => MaxInt(x, y)
  }

  predicate DoCmp(op: CmpOp, x: int, y: int)
  {
    match op
    case LT => x < y
    case LE => x <= y
    case GT => x > y
    case GE => x >= y
    case EQ => x == y
    case NE => x != y
  }

  function Eval(e: Expr, env: Env): int
  {
    match e
    case Const(_, v) => v
    case Var(_, x) => Lookup(env, x)
    case Cast(t, a) => Wrap(t, Eval(a, env))
    case Bin(op, a, b) => Wrap(TypeOf(a), DoBin(op, Eval(a, env), Eval(b, env)))
    case Cmp(op, a, b) => Truth(DoCmp(op, Eval(a, env), Eval(b, env)))
    case And(a, b) => Truth(Eval(a, env) != 0 && Eval(b, env) != 0)
    case Or(a, b) => Truth(Eval(a, env) != 0 || Eval(b, env) != 0)
    case Not(a) => Truth(Eval(a, env) == 0)
    case Select(c, t, f) => if Eval(c, env) != 0 then Eval(t, env) else Eval(f, env)
    case Let(x, v, b) => Eval(b, env[x := Eval(v, env)])
  }

  /** expr_uses_var: does the expression mention or bind the name? */
  predicate Uses(e: Expr, x: string)
  {
    match e
    case Const(_, _) => false
    case Var(_, y) => x == y
    case Cast(_, a) => Uses(a, x)
    case Bin(_, a, b) => Uses(a, x) || Uses(b, x)
    case Cmp(_, a, b) => Uses(a, x) || Uses(b, x)
    case And(a, b) => Uses(a, x) || Uses(b, x)
    case Or(a, b) => Uses(a, x) || Uses(b, x)
    case Not(a) => Uses(a, x)
    case Select(c, t, f) => Uses(c, x) || Uses(t, x) || Uses(f, x)
    case Let(y, v, b) => x == y || Uses(v, x) || Uses(b, x)
  }

  /** The two environments give the expression's names the same values. */
  ghost predicate AgreeOn(e: Expr, env: Env, env': Env)
  {
    forall x :: Uses(e, x) ==> Lookup(env, x) == Lookup(env', x)
  }

  /** Evaluation only looks at names the expression uses. */
  lemma {:induction false} EvalAgree(e: Expr, env: Env, env': Env)
    requires AgreeOn(e, env, env')
    ensures Eval(e, env) == Eval(e, env')
  {
    match e
    case Const(_, _) =>
    case Var(_, x) => assert Uses(e, x);
    case Cast(_, a) => assert forall x :: Uses(a, x) ==> Uses(e, x); EvalAgree(a, env, env');
    case Bin(_, a, b) =>
      assert forall x :: Uses(a, x) || Uses(b, x) ==> Uses(e, x);
      EvalAgree(a, env, env'); EvalAgree(b, env, env');
    case Cmp(_, a, b) =>
      assert forall x :: Uses(a, x) || Uses(b, x) ==> Uses(e, x);
      EvalAgree(a, env, env'); EvalAgree(b, env, env');
    case And(a, b) =>
      assert forall x :: Uses(a, x) || Uses(b, x) ==> Uses(e, x);
      EvalAgree(a, env, env'); EvalAgree(b, env, env');
    case Or(a, b) =>
      assert forall x :: Uses(a, x) || Uses(b, x) ==> Uses(e, x);
      EvalAgree(a, env, env'); EvalAgree(b, env, env');
    case Not(a) => assert forall x :: Uses(a, x) ==> Uses(e, x); EvalAgree(a, env, env');
    case Select(c, t, f) =>
      assert forall x :: Uses(c, x) || Uses(t, x) || Uses(f, x) ==> Uses(e, x);
      EvalAgree(c, env, env'); EvalAgree(t, env, env'); EvalAgree(f, env, env');
    case Let(y, v, b) =>
      assert forall x :: Uses(v, x) || Uses(b, x) ==> Uses(e, x);
      EvalAgree(v, env, env');
      var w := Eval(v, env);
      assert forall x :: Uses(b, x) ==> Lookup(env[y := w], x) == Lookup(env'[y := w], x);
      EvalAgree(b, env[y := w], env'[y := w]);
  }

  /** Rebinding a name the expression does not use leaves its value alone. */
  lemma EvalFrame(e: Expr, env: Env, x: string, v: int)
    requires !Uses(e, x)
    ensures Eval(e, env[x := v]) == Eval(e, env)
  {
    EvalAgree(e, env[x := v], env);
  }
}
