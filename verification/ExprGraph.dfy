/**
 * Expressions as the graphs Halide keeps in memory: every node has an address, and maps
 * keyed by pointer (ExprCompare) are keyed by the node with its address.  `Shape` forgets
 * the addresses; two nodes with one shape are syntactically equal (IREquality).
 *
 * Operators are pure but otherwise arbitrary: their meaning is a parameter.
 */
module ExprGraph {

  datatype Kind = Broadcast | Cast(ty: string) | Add | Sub | Mul | Div | Ramp | Other(op: string)

  datatype Expr =
    | Const(addr: nat, value: int)
    | Var(addr: nat, name: string)
    | Op(addr: nat, kind: Kind, args: seq<Expr>)
    | Let(addr: nat, name: string, value_: Expr, body: Expr)

  type Env = map<string, int>

  type Meaning = (Kind, seq<int>) -> int

  function Lookup(env: Env, x: string): int { if x in env then env[x] else 0 }

  function Eval(e: Expr, env: Env, m: Meaning): int
    decreases e, 1
  {
    match e
    case Const(_, v) => v
    case Var(_, x) => Lookup(env, x)
    case Op(_, k, args) => m(k, EvalAll(args, env, m))
    case Let(_, x, v, b) => Eval(b, env[x := Eval(v, env, m)], m)
  }

  function EvalAll(es: seq<Expr>, env: Env, m: Meaning): (vs: seq<int>)
    ensures |vs| == |es|
    decreases es, 0
  {
    if es == [] then [] else [Eval(es[0], env, m)] + EvalAll(es[1..], env, m)
  }

  function Shape(e: Expr): Expr
    decreases e, 1
  {
    match e
    case Const(_, v) => Const(0, v)
    case Var(_, x) => Var(0, x)
    case Op(_, k, args) => Op(0, k, ShapeAll(args))
    case Let(_, x, v, b) => Let(0, x, Shape(v), Shape(b))
  }

  function ShapeAll(es: seq<Expr>): (r: seq<Expr>)
    ensures |r| == |es|
    decreases es, 0
  {
    if es == [] then [] else [Shape(es[0])] + ShapeAll(es[1..])
  }

  predicate Same(a: Expr, b: Expr) { Shape(a) == Shape(b) }

  lemma {:induction false} ShapeAllAt(es: seq<Expr>, i: nat)
    requires i < |es|
    ensures ShapeAll(es)[i] == Shape(es[i])
  {
    if i > 0 { ShapeAllAt(es[1..], i - 1); }
  }

  lemma {:induction false} EvalAllAt(es: seq<Expr>, env: Env, m: Meaning, i: nat)
    requires i < |es|
    ensures EvalAll(es, env, m)[i] == Eval(es[i], env, m)
  {
    if i > 0 { EvalAllAt(es[1..], env, m, i - 1); }
  }

  lemma {:induction false} ShapeAllFrom(es: seq<Expr>, fs: seq<Expr>)
    requires |es| == |fs| && forall i :: 0 <= i < |es| ==> Same(es[i], fs[i])
    ensures ShapeAll(es) == ShapeAll(fs)
  {
    if es != [] {
      assert forall i :: 0 <= i < |es[1..]| ==> es[1..][i] == es[i + 1] && fs[1..][i] == fs[i + 1];
      ShapeAllFrom(es[1..], fs[1..]);
    }
  }

  lemma {:induction false} EvalAllFrom(es: seq<Expr>, env: Env, fs: seq<Expr>, env': Env, m: Meaning)
    requires |es| == |fs| && forall i :: 0 <= i < |es| ==> Eval(es[i], env, m) == Eval(fs[i], env', m)
    ensures EvalAll(es, env, m) == EvalAll(fs, env', m)
  {
    if es != [] {
      assert forall i :: 0 <= i < |es[1..]| ==> es[1..][i] == es[i + 1] && fs[1..][i] == fs[i + 1];
      EvalAllFrom(es[1..], env, fs[1..], env', m);
    }
  }

  /** Addresses do not matter to the value. */
  lemma {:induction false} ShapeEval(e: Expr, env: Env, m: Meaning)
    ensures Eval(Shape(e), env, m) == Eval(e, env, m)
    decreases e, 1
  {
    match e
    case Const(_, _) =>
    case Var(_, _) =>
    case Op(_, _, args) => ShapeAllEval(args, env, m);
    case Let(_, x, v, b) => ShapeEval(v, env, m); ShapeEval(b, env[x := Eval(v, env, m)], m);
  }

  lemma {:induction false} ShapeAllEval(es: seq<Expr>, env: Env, m: Meaning)
    ensures EvalAll(ShapeAll(es), env, m) == EvalAll(es, env, m)
    decreases es, 0
  {
    if es != [] {
      ShapeEval(es[0], env, m);
      ShapeAllEval(es[1..], env, m);
      assert ShapeAll(es)[1..] == ShapeAll(es[1..]);
    }
  }

  /** The variables that occur, bound or free. */
  predicate Mentions(e: Expr, x: string)
    decreases e
  {
    match e
    case Const(_, _) => false
    case Var(_, y) => x == y
    case Op(_, _, args) => exists i :: 0 <= i < |args| && Mentions(args[i], x)
    case Let(_, y, v, b) => x == y || Mentions(v, x) || Mentions(b, x)
  }

  predicate LetFree(e: Expr)
    decreases e
  {
    match e
    case Const(_, _) => true
    case Var(_, _) => true
    case Op(_, _, args) => forall i :: 0 <= i < |args| ==> LetFree(args[i])
    case Let(_, _, _, _) => false
  }

  ghost predicate AgreeOn(e: Expr, env: Env, env': Env)
  {
    forall x :: Mentions(e, x) ==> Lookup(env, x) == Lookup(env', x)
  }

  lemma {:induction false} EvalAgree(e: Expr, env: Env, env': Env, m: Meaning)
    requires AgreeOn(e, env, env')
    ensures Eval(e, env, m) == Eval(e, env', m)
    decreases e
  {
    match e
    case Const(_, _) =>
    case Var(_, x) => assert Mentions(e, x);
    case Op(_, _, args) =>
      forall i | 0 <= i < |args|
        ensures Eval(args[i], env, m) == Eval(args[i], env', m)
      {
        assert forall x :: Mentions(args[i], x) ==> Mentions(e, x);
        EvalAgree(args[i], env, env', m);
      }
      EvalAllFrom(args, env, args, env', m);
    case Let(_, y, v, b) =>
      assert forall x :: Mentions(v, x) || Mentions(b, x) ==> Mentions(e, x);
      EvalAgree(v, env, env', m);
      var w := Eval(v, env, m);
      EvalAgree(b, env[y := w], env'[y := w], m);
  }

  lemma {:induction false} ShapeLetFree(e: Expr)
    ensures LetFree(Shape(e)) == LetFree(e)
    decreases e
  {
    match e
    case Const(_, _) =>
    case Var(_, _) =>
    case Op(_, _, args) =>
      forall i | 0 <= i < |args| ensures LetFree(ShapeAll(args)[i]) == LetFree(args[i]) {
        ShapeAllAt(args, i);
        ShapeLetFree(args[i]);
      }
    case Let(_, _, _, _) =>
  }

  lemma {:induction false} ShapeMentions(e: Expr, x: string)
    ensures Mentions(Shape(e), x) == Mentions(e, x)
    decreases e
  {
    match e
    case Const(_, _) =>
    case Var(_, _) =>
    case Op(_, _, args) =>
      forall i | 0 <= i < |args| ensures Mentions(ShapeAll(args)[i], x) == Mentions(args[i], x) {
        ShapeAllAt(args, i);
        ShapeMentions(args[i], x);
      }
      assert Mentions(e, x) ==> exists i :: 0 <= i < |args| && Mentions(args[i], x);
    case Let(_, _, v, b) => ShapeMentions(v, x); ShapeMentions(b, x);
  }
}
