/**
 * Let removal, the first pass of common subexpression elimination: a memoised graph
 * mutator that inlines let values, with a fresh memo inside each let.
 */
module CseLets {
  import opened ExprGraph

  type Scope = map<string, Expr>

  /** Capture-free inlining of a scope of let-free values, addresses forgotten. */
  function Inlined(e: Expr, scope: Scope): Expr
    decreases e, 1
  {
    match e
    case Const(_, v) => Const(0, v)
    case Var(_, x) => if x in scope then Shape(scope[x]) else Var(0, x)
    case Op(_, k, args) => Op(0, k, InlinedAll(args, scope))
    case Let(_, x, v, b) => Inlined(b, scope[x := Inlined(v, scope)])
  }

  function InlinedAll(es: seq<Expr>, scope: Scope): (r: seq<Expr>)
    ensures |r| == |es|
    decreases es, 0
  {
    if es == [] then [] else [Inlined(es[0], scope)] + InlinedAll(es[1..], scope)
  }

  /** Only the shapes in the scope matter. */
  predicate SameScope(s: Scope, t: Scope) {
    s.Keys == t.Keys && forall x :: x in s ==> Same(s[x], t[x])
  }

  lemma {:induction false} ShapeTwice(e: Expr)
    ensures Shape(Shape(e)) == Shape(e)
    decreases e, 1
  {
    match e
    case Const(_, _) =>
    case Var(_, _) =>
    case Op(_, _, args) => ShapeAllTwice(args);
    case Let(_, _, v, b) => ShapeTwice(v); ShapeTwice(b);
  }

  lemma {:induction false} ShapeAllTwice(es: seq<Expr>)
    ensures ShapeAll(ShapeAll(es)) == ShapeAll(es)
    decreases es, 0
  {
    if es != [] {
      ShapeTwice(es[0]);
      ShapeAllTwice(es[1..]);
      assert ShapeAll(es)[1..] == ShapeAll(es[1..]);
    }
  }

  lemma {:induction false} InlinedSameScope(e: Expr, s: Scope, t: Scope)
    requires SameScope(s, t)
    ensures Inlined(e, s) == Inlined(e, t)
    decreases e, 1
  {
    match e
    case Const(_, _) =>
    case Var(_, _) =>
    case Op(_, _, args) => InlinedAllSameScope(args, s, t);
    case Let(_, x, v, b) =>
      InlinedSameScope(v, s, t);
      InlinedSameScope(b, s[x := Inlined(v, s)], t[x := Inlined(v, t)]);
  }

  lemma {:induction false} InlinedAllSameScope(es: seq<Expr>, s: Scope, t: Scope)
    requires SameScope(s, t)
    ensures InlinedAll(es, s) == InlinedAll(es, t)
    decreases es, 0
  {
    if es != [] { InlinedSameScope(es[0], s, t); InlinedAllSameScope(es[1..], s, t); }
  }

  lemma {:induction false} InlinedAllFrom(es: seq<Expr>, scope: Scope, rs: seq<Expr>)
    requires |es| == |rs| && forall i :: 0 <= i < |es| ==> Shape(rs[i]) == Inlined(es[i], scope)
    ensures ShapeAll(rs) == InlinedAll(es, scope)
  {
    if es != [] {
      assert forall i :: 0 <= i < |es[1..]| ==> es[1..][i] == es[i + 1] && rs[1..][i] == rs[i + 1];
      InlinedAllFrom(es[1..], scope, rs[1..]);
    }
  }

  /** The environment a scope stands for over an outer one. */
  ghost function Under(scope: Scope, env: Env, m: Meaning): Env {
    map x | x in scope.Keys + env.Keys :: if x in scope then Eval(scope[x], env, m) else env[x]
  }

  /** Inlining means substitution: it is evaluation in the environment the scope stands for. */
  lemma {:induction false} InlinedEval(e: Expr, scope: Scope, env: Env, m: Meaning)
    ensures Eval(Inlined(e, scope), env, m) == Eval(e, Under(scope, env, m), m)
    decreases e, 1
  {
    match e
    case Const(_, _) =>
    case Var(_, x) => if x in scope { ShapeEval(scope[x], env, m); }
    case Op(_, _, args) => InlinedAllEval(args, scope, env, m);
    case Let(_, x, v, b) =>
      InlinedEval(v, scope, env, m);
      var inner := scope[x := Inlined(v, scope)];
      InlinedEval(b, inner, env, m);
      assert Under(inner, env, m) == Under(scope, env, m)[x := Eval(v, Under(scope, env, m), m)];
  }

  lemma {:induction false} InlinedAllEval(es: seq<Expr>, scope: Scope, env: Env, m: Meaning)
    ensures EvalAll(InlinedAll(es, scope), env, m) == EvalAll(es, Under(scope, env, m), m)
    decreases es, 0
  {
    if es != [] {
      InlinedEval(es[0], scope, env, m);
      InlinedAllEval(es[1..], scope, env, m);
      assert InlinedAll(es, scope)[1..] == InlinedAll(es[1..], scope);
    }
  }

  lemma {:induction false} InlinedAllAt(es: seq<Expr>, scope: Scope, i: nat)
    requires i < |es|
    ensures InlinedAll(es, scope)[i] == Inlined(es[i], scope)
  {
    if i > 0 { InlinedAllAt(es[1..], scope, i - 1); }
  }

  ghost predicate LetFreeScope(scope: Scope) { forall x :: x in scope ==> LetFree(scope[x]) }

  ghost predicate ScopeAvoids(scope: Scope, y: string) {
    forall x :: x in scope ==> !Mentions(scope[x], y)
  }

  /** No let survives, and no variable appears that was not there. */
  lemma {:induction false} InlinedLetFree(e: Expr, scope: Scope)
    requires LetFreeScope(scope)
    ensures LetFree(Inlined(e, scope))
    decreases e
  {
    match e
    case Const(_, _) =>
    case Var(_, x) => if x in scope { ShapeLetFree(scope[x]); }
    case Op(_, _, args) =>
      forall i | 0 <= i < |args| ensures LetFree(InlinedAll(args, scope)[i]) {
        InlinedAllAt(args, scope, i);
        InlinedLetFree(args[i], scope);
      }
    case Let(_, x, v, b) =>
      InlinedLetFree(v, scope);
      InlinedLetFree(b, scope[x := Inlined(v, scope)]);
  }

  lemma {:induction false} InlinedAvoids(e: Expr, scope: Scope, y: string)
    requires ScopeAvoids(scope, y) && !Mentions(e, y)
    ensures !Mentions(Inlined(e, scope), y)
    decreases e
  {
    match e
    case Const(_, _) =>
    case Var(_, x) => if x in scope { ShapeMentions(scope[x], y); }
    case Op(_, _, args) =>
      forall i | 0 <= i < |args| ensures !Mentions(InlinedAll(args, scope)[i], y) {
        InlinedAllAt(args, scope, i);
        assert !Mentions(args[i], y);
        InlinedAvoids(args[i], scope, y);
      }
    case Let(_, x, v, b) =>
      InlinedAvoids(v, scope, y);
      InlinedAvoids(b, scope[x := Inlined(v, scope)], y);
  }

  /** What the memo may hold while `scope` is in force. */
  ghost predicate MemoOk(memo: map<Expr, Expr>, scope: Scope) {
    forall k :: k in memo ==> Shape(memo[k]) == Inlined(k, scope)
  }

  class RemoveLets {
    var replacements: map<Expr, Expr>
    var scope: Scope
    var next: nat

    constructor (firstAddr: nat)
      ensures MemoOk(replacements, scope) && scope == map[] && next == firstAddr
    {
      replacements := map[];
      scope := map[];
      next := firstAddr;
    }

    /** The memoised pass is exact capture-free inlining, whatever was visited before. */
    method Mutate(e: Expr) returns (r: Expr)
      requires MemoOk(replacements, scope)
      modifies this
      ensures MemoOk(replacements, scope) && scope == old(scope)
      ensures Shape(r) == Inlined(e, scope)
      decreases e, 1
    {
      if e in replacements { return replacements[e]; }
      match e {
        case Const(_, _) => r := e;
        case Var(_, x) => r := if x in scope then scope[x] else e;
        case Op(_, k, args) => r := VisitOp(e);
        case Let(_, _, _, _) => r := VisitLet(e);
      }
      replacements := replacements[e := r];
    }

    method VisitOp(e: Expr) returns (r: Expr)
      requires e.Op? && MemoOk(replacements, scope)
      modifies this
      ensures MemoOk(replacements, scope) && scope == old(scope)
      ensures Shape(r) == Inlined(e, scope)
      decreases e, 0
    {
      var args, i := [], 0;
      while i < |e.args|
        invariant i == |args| <= |e.args|
        invariant MemoOk(replacements, scope) && scope == old(scope)
        invariant forall j :: 0 <= j < i ==> Shape(args[j]) == Inlined(e.args[j], scope)
      {
        var a := Mutate(e.args[i]);
        args := args + [a];
        i := i + 1;
      }
      InlinedAllFrom(e.args, scope, args);
      if args == e.args {
        r := e;
      } else {
        r := Op(next, e.kind, args);
        next := next + 1;
      }
    }

    method VisitLet(e: Expr) returns (r: Expr)
      requires e.Let? && MemoOk(replacements, scope)
      modifies this
      ensures MemoOk(replacements, scope) && scope == old(scope)
      ensures Shape(r) == Inlined(e, scope)
      decreases e, 0
    {
      var newValue := Mutate(e.value_);
      var outerMemo, outerScope := replacements, scope;
      replacements := map[];
      scope := scope[e.name := newValue];
      r := Mutate(e.body);
      ShapeTwice(newValue);
      InlinedSameScope(e.body, scope, outerScope[e.name := Inlined(e.value_, outerScope)]);
      replacements, scope := outerMemo, outerScope;
    }
  }
}
