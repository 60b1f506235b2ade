/**
 * Common subexpression elimination: remove lets, number, count uses, then replace shared
 * entries by fresh variables and wrap the result in lets, innermost first, with one
 * memoised replacer from which each let's own replacement is erased before its value is built.
 */
module Cse {
  import opened ExprGraph
  import opened CseLets
  import opened CseNumbering
  import opened CseUses
  import opened CseSharing

  /** `env` with the first `i` lifted variables bound to the values of their entries. */
  ghost function Ext(p: Plan, env: Env, m: Meaning, i: nat): Env
    requires PlanOk(p) && i <= |p.names|
  {
    if i == 0 then env else
    assert NameOk(p, i - 1);
    Ext(p, env, m, i - 1)[p.names[i - 1] := Eval(p.entries[p.at[i - 1]], env, m)]
  }

  lemma {:induction false} ExtOther(p: Plan, env: Env, m: Meaning, i: nat, x: string)
    requires PlanOk(p) && i <= |p.names| && x !in p.names
    ensures Lookup(Ext(p, env, m, i), x) == Lookup(env, x)
  {
    if i > 0 { ExtOther(p, env, m, i - 1, x); }
  }

  lemma {:induction false} ExtName(p: Plan, env: Env, m: Meaning, i: nat, j: nat)
    requires PlanOk(p) && j < i <= |p.names|
    ensures NameOk(p, j) && Lookup(Ext(p, env, m, i), p.names[j]) == Eval(p.entries[p.at[j]], env, m)
  {
    assert NameOk(p, j) && NameOk(p, i - 1);
    if j < i - 1 { ExtName(p, env, m, i - 1, j); }
  }

  /** How many lifted entries are numbered below `n`. */
  function Below(at: seq<nat>, n: nat): (c: nat)
    ensures c <= |at|
  {
    if at == [] then 0
    else if at[|at| - 1] < n then |at|
    else Below(at[..|at| - 1], n)
  }

  lemma {:induction false} BelowMono(at: seq<nat>, n: nat, n': nat)
    requires n <= n'
    ensures Below(at, n) <= Below(at, n')
  {
    if at != [] && at[|at| - 1] >= n' { BelowMono(at[..|at| - 1], n, n'); }
  }

  lemma {:induction false} BelowAt(at: seq<nat>, j: nat)
    requires j < |at| && forall i, k :: 0 <= i < k < |at| ==> at[i] < at[k]
    ensures Below(at, at[j]) == j && Below(at, at[j] + 1) == j + 1
  {
    if j < |at| - 1 { BelowAt(at[..|at| - 1], j); }
    else if j > 0 { assert at[..j][j - 1] < at[j]; }
  }

  // -- When a replacement is right -----------------------------------------------------

  ghost predicate Agrees(p: Plan, k: Expr, r: Expr, env: Env, m: Meaning, i: nat) {
    PlanOk(p) && i <= |p.names| ==> Eval(r, Ext(p, env, m, i), m) == Eval(k, env, m)
  }

  ghost predicate Good(p: Plan, k: Expr, r: Expr, start: nat) {
    && LetFree(r)
    && (forall j :: start <= j < |p.names| ==> !Mentions(r, p.names[j]))
    && (forall env: Env, m: Meaning, i: nat {:trigger Agrees(p, k, r, env, m, i)} ::
          start <= i ==> Agrees(p, k, r, env, m, i))
  }

  lemma {:induction false} GoodLater(p: Plan, k: Expr, r: Expr, start: nat, start': nat)
    requires Good(p, k, r, start) && start <= start'
    ensures Good(p, k, r, start')
  {
  }

  lemma {:induction false} GoodLeaf(p: Plan, e: Expr)
    requires PlanOk(p) && (e.Const? || e.Var?) && e in p.output
    ensures Good(p, e, e, 0)
  {
    assert NumberOk(p.entries, p.output, e);
    assert Avoids(p.entries[p.output[e]], NameSet(p.names));
    forall j | 0 <= j < |p.names| ensures !Mentions(e, p.names[j]) {
      assert p.names[j] in NameSet(p.names);
    }
    forall env: Env, m: Meaning, i: nat ensures Agrees(p, e, e, env, m, i) {
      if e.Var? && i <= |p.names| {
        assert e.name !in p.names by { if e.name in p.names { assert Mentions(e, e.name); assert false; } }
        ExtOther(p, env, m, i, e.name);
      }
    }
  }

  /** Each lifted variable stands for its entry once it is bound. */
  lemma {:induction false} GoodName(p: Plan, j: nat, addr: nat)
    requires PlanOk(p) && j < |p.names|
    ensures NameOk(p, j) && Good(p, p.entries[p.at[j]], Var(addr, p.names[j]), j + 1)
  {
    assert NameOk(p, j);
    var k, r := p.entries[p.at[j]], Var(addr, p.names[j]);
    forall j' | j + 1 <= j' < |p.names| ensures !Mentions(r, p.names[j']) { assert NameOk(p, j'); }
    forall env: Env, m: Meaning, i: nat | j + 1 <= i ensures Agrees(p, k, r, env, m, i) {
      if i <= |p.names| { ExtName(p, env, m, i, j); }
    }
  }

  lemma {:induction false} GoodOp(p: Plan, e: Expr, r: Expr, start: nat)
    requires PlanOk(p) && e.Op? && r.Op? && r.kind == e.kind && |r.args| == |e.args|
    requires forall j :: 0 <= j < |e.args| ==> Good(p, e.args[j], r.args[j], start)
    ensures Good(p, e, r, start)
  {
    forall env: Env, m: Meaning, i: nat | start <= i ensures Agrees(p, e, r, env, m, i) {
      if i <= |p.names| {
        forall j | 0 <= j < |e.args|
          ensures Eval(r.args[j], Ext(p, env, m, i), m) == Eval(e.args[j], env, m)
        {
          assert Agrees(p, e.args[j], r.args[j], env, m, i);
        }
        EvalAllFrom(r.args, Ext(p, env, m, i), e.args, env, m);
      }
    }
  }

  ghost predicate ReplacementAt(p: Plan, memo: map<Expr, Expr>, k: Expr) {
    k in memo ==> k in p.output && Good(p, k, memo[k], Below(p.at, p.output[k] + 1))
  }

  ghost predicate ReplacementsOk(p: Plan, memo: map<Expr, Expr>) {
    forall k: Expr {:trigger ReplacementAt(p, memo, k)} :: ReplacementAt(p, memo, k)
  }

  lemma {:induction false} Added(p: Plan, memo: map<Expr, Expr>, e: Expr, r: Expr)
    requires ReplacementsOk(p, memo) && e in p.output && Good(p, e, r, Below(p.at, p.output[e] + 1))
    ensures ReplacementsOk(p, memo[e := r])
  {
    var memo' := memo[e := r];
    forall k: Expr ensures ReplacementAt(p, memo', k) { assert ReplacementAt(p, memo, k); }
  }

  lemma {:induction false} Erased(p: Plan, memo: map<Expr, Expr>, e: Expr)
    requires ReplacementsOk(p, memo)
    ensures ReplacementsOk(p, memo - {e})
  {
    var memo' := memo - {e};
    forall k: Expr ensures ReplacementAt(p, memo', k) { assert ReplacementAt(p, memo, k); }
  }

  // -- Which replacement is made ----------------------------------------------------------

  /** Below number `n`, lifted entries have their replacement, and all replacements are the right ones. */
  ghost predicate ExactAt(p: Plan, memo: map<Expr, Expr>, n: nat, k: Expr) {
    k in p.output && p.output[k] < n ==>
      && ((exists j: nat :: LiftedTo(p, k, j)) ==> k in memo)
      && (k in memo ==> Shape(memo[k]) == Replaced(p, k))
  }

  ghost predicate Exact(p: Plan, memo: map<Expr, Expr>, n: nat) {
    forall k: Expr {:trigger ExactAt(p, memo, n, k)} :: ExactAt(p, memo, n, k)
  }

  lemma {:induction false} ExactBelow(p: Plan, memo: map<Expr, Expr>, n: nat, n': nat)
    requires Exact(p, memo, n) && n' <= n
    ensures Exact(p, memo, n')
  {
    forall k: Expr ensures ExactAt(p, memo, n', k) { assert ExactAt(p, memo, n, k); }
  }

  lemma {:induction false} ExactAdd(p: Plan, memo: map<Expr, Expr>, n: nat, e: Expr, r: Expr)
    requires Exact(p, memo, n) && e in p.output && (p.output[e] < n ==> Shape(r) == Replaced(p, e))
    ensures Exact(p, memo[e := r], n)
  {
    var memo' := memo[e := r];
    forall k: Expr ensures ExactAt(p, memo', n, k) { assert ExactAt(p, memo, n, k); }
  }

  lemma {:induction false} ExactErase(p: Plan, memo: map<Expr, Expr>, n: nat, e: Expr)
    requires Exact(p, memo, n) && e in p.output && p.output[e] >= n
    ensures Exact(p, memo - {e}, n)
  {
    var memo' := memo - {e};
    forall k: Expr ensures ExactAt(p, memo', n, k) { assert ExactAt(p, memo, n, k); }
  }

  class Replacer {
    var replacements: map<Expr, Expr>
    var next: nat

    constructor (replacements: map<Expr, Expr>, firstAddr: nat)
      ensures this.replacements == replacements && next == firstAddr
    {
      this.replacements, next := replacements, firstAddr;
    }

    method Erase(e: Expr)
      modifies this
      ensures replacements == old(replacements) - {e}
    {
      replacements := replacements - {e};
    }

    /**
     * A rebuilt node needs only the variables of entries strictly before it; and a reference to an
     * entry numbered below `n` becomes exactly its replacement.
     */
    method Mutate(e: Expr, ghost p: Plan, ghost n: nat) returns (r: Expr)
      requires PlanOk(p) && ReplacementsOk(p, replacements) && e in p.output
      requires Exact(p, replacements, n) && p.output[e] <= n && (p.output[e] == n ==> e !in replacements)
      modifies this
      ensures ReplacementsOk(p, replacements) && Exact(p, replacements, n)
      ensures Shape(r) == if p.output[e] < n then Replaced(p, e) else Rebuilt(p, e)
      ensures Good(p, e, r, Below(p.at, if e in old(replacements) then p.output[e] + 1 else p.output[e]))
      decreases e, 1
    {
      assert ExactAt(p, replacements, n, e);
      if e in replacements {
        assert ReplacementAt(p, replacements, e);
        return replacements[e];
      }
      assert NumberOk(p.entries, p.output, e) && EntryOk(p.entries, p.output, p.output[e]);
      if e.Op? {
        r := VisitOp(e, p, n);
      } else {
        r := e;
        GoodLeaf(p, e);
        GoodLater(p, e, e, 0, Below(p.at, p.output[e]));
      }
      BelowMono(p.at, p.output[e], p.output[e] + 1);
      GoodLater(p, e, r, Below(p.at, p.output[e]), Below(p.at, p.output[e] + 1));
      Added(p, replacements, e, r);
      ExactAdd(p, replacements, n, e, r);
      replacements := replacements[e := r];
    }

    method VisitOp(e: Expr, ghost p: Plan, ghost n: nat) returns (r: Expr)
      requires PlanOk(p) && ReplacementsOk(p, replacements) && Exact(p, replacements, n)
      requires e.Op? && e in p.output && BuiltFrom(e, p.output, p.output[e]) && p.output[e] <= n
      modifies this
      ensures ReplacementsOk(p, replacements) && Good(p, e, r, Below(p.at, p.output[e]))
      ensures Exact(p, replacements, n) && Shape(r) == Rebuilt(p, e)
      decreases e, 0
    {
      ghost var start := Below(p.at, p.output[e]);
      var args, i := [], 0;
      while i < |e.args|
        invariant i == |args| <= |e.args| && ReplacementsOk(p, replacements) && Exact(p, replacements, n)
        invariant forall j :: 0 <= j < i ==> Good(p, e.args[j], args[j], start)
        invariant forall j :: 0 <= j < i ==> Shape(args[j]) == Replaced(p, e.args[j])
      {
        var a := Mutate(e.args[i], p, n);
        ArgGood(p, e.args[i], a, p.output[e]);
        args := args + [a];
        i := i + 1;
      }
      ReplacedAllFrom(p, e.args, args);
      if args == e.args {
        r := e;
      } else {
        r := Op(next, e.kind, args);
        next := next + 1;
      }
      GoodOp(p, e, r, start);
    }
  }

  lemma {:induction false} ArgGood(p: Plan, a: Expr, r: Expr, n: nat)
    requires a in p.output && p.output[a] < n
    requires Good(p, a, r, Below(p.at, p.output[a] + 1)) || Good(p, a, r, Below(p.at, p.output[a]))
    ensures Good(p, a, r, Below(p.at, n))
  {
    BelowMono(p.at, p.output[a] + 1, n);
    BelowMono(p.at, p.output[a], n);
    if Good(p, a, r, Below(p.at, p.output[a] + 1)) {
      GoodLater(p, a, r, Below(p.at, p.output[a] + 1), Below(p.at, n));
    } else {
      GoodLater(p, a, r, Below(p.at, p.output[a]), Below(p.at, n));
    }
  }

  // -- The lets ---------------------------------------------------------------------------

  /** `r` binds names `i`, `i + 1`, … in turn, each to a value over earlier names, around a let-free body. */
  ghost predicate IsChain(r: Expr, names: seq<string>, i: nat)
    decreases r
  {
    if i >= |names| then LetFree(r)
    else
      && r.Let? && r.name == names[i] && LetFree(r.value_)
      && (forall j :: i <= j < |names| ==> !Mentions(r.value_, names[j]))
      && IsChain(r.body, names, i + 1)
  }

  /** The first lift-worthy entries planned so far: `i` entries have been looked at. */
  ghost predicate Planned(p: Plan, useCount: seq<nat>, i: nat) {
    forall n :: n in p.at <==> 0 <= n < i && n < |useCount| && useCount[n] > 1
  }

  ghost predicate Freshly(names: seq<string>, uniqueName: nat -> string) {
    forall j :: 0 <= j < |names| ==> names[j] == uniqueName(j)
  }

  ghost predicate FreshNames(uniqueName: nat -> string) {
    forall i: nat, j: nat :: i != j ==> uniqueName(i) != uniqueName(j)
  }

  ghost function FreshSet(uniqueName: nat -> string): iset<string> { iset i: nat :: uniqueName(i) }

  lemma {:induction false} PlanMore(p: Plan, uniqueName: nat -> string, useCount: seq<nat>, n: nat, q: Plan)
    requires PlanOk(p) && Freshly(p.names, uniqueName) && FreshNames(uniqueName)
      && AllAvoid(p.entries, FreshSet(uniqueName))
    requires Planned(p, useCount, n) && n < |p.entries| == |useCount| && useCount[n] > 1
    requires q == p.(names := p.names + [uniqueName(|p.names|)], at := p.at + [n])
    ensures PlanOk(q) && Freshly(q.names, uniqueName) && Planned(q, useCount, n + 1)
  {
    assert AllAvoid(q.entries, NameSet(q.names)) by {
      forall i | 0 <= i < |q.entries| ensures Avoids(q.entries[i], NameSet(q.names)) {
        assert Avoids(p.entries[i], FreshSet(uniqueName));
        forall x | x in NameSet(q.names) ensures x in FreshSet(uniqueName) {
          var j :| 0 <= j < |q.names| && q.names[j] == x;
          assert x == uniqueName(j);
        }
      }
    }
    forall j: nat ensures NameOk(q, j) {
      assert NameOk(p, j);
      if j == |p.names| {
        forall k | 0 <= k < j ensures q.at[k] < q.at[j] { assert p.at[k] in p.at; }
      }
    }
  }

  /** The replacement for `k` is the variable of the lifted entry it is. */
  ghost predicate PointsTo(p: Plan, memo: map<Expr, Expr>, k: Expr, j: nat) {
    && j < |p.names| == |p.at| && p.at[j] < |p.entries| && k == p.entries[p.at[j]]
    && k in memo && memo[k].Var? && memo[k].name == p.names[j]
  }

  ghost predicate Pointing(p: Plan, memo: map<Expr, Expr>) {
    forall k :: k in memo ==> exists j :: PointsTo(p, memo, k, j)
  }

  lemma {:induction false} PointingMore(p: Plan, memo: map<Expr, Expr>, q: Plan, name: string, n: nat, addr: nat)
    requires Pointing(p, memo) && |p.names| == |p.at| && n < |p.entries|
    requires q == p.(names := p.names + [name], at := p.at + [n])
    ensures Pointing(q, memo[p.entries[n] := Var(addr, name)])
  {
    var memo' := memo[p.entries[n] := Var(addr, name)];
    forall k | k in memo' ensures exists j :: PointsTo(q, memo', k, j) {
      if k == p.entries[n] {
        assert PointsTo(q, memo', k, |p.names|);
      } else {
        var j :| PointsTo(p, memo, k, j);
        assert PointsTo(q, memo', k, j);
      }
    }
  }

  lemma {:induction false} PointingIsOk(p: Plan, memo: map<Expr, Expr>)
    requires PlanOk(p) && Pointing(p, memo)
    ensures ReplacementsOk(p, memo)
  {
    forall k: Expr ensures ReplacementAt(p, memo, k) {
      if k in memo {
        var j :| PointsTo(p, memo, k, j);
        GoodName(p, j, memo[k].addr);
        LiftedAt(p, j);
      }
    }
  }

  lemma {:induction false} LiftedAt(p: Plan, j: nat)
    requires PlanOk(p) && j < |p.at|
    ensures p.at[j] < |p.entries|
    ensures var k := p.entries[p.at[j]];
      k in p.output && Below(p.at, p.output[k]) == j && Below(p.at, p.output[k] + 1) == j + 1
  {
    assert NameOk(p, j);
    assert EntryOk(p.entries, p.output, p.at[j]);
    forall i, k | 0 <= i < k < |p.at| ensures p.at[i] < p.at[k] { assert NameOk(p, k); }
    BelowAt(p.at, j);
  }

  /** Choose a fresh variable for every entry used more than once. */
  method PlanLets(entries: seq<Expr>, ghost output: Numbering, useCount: seq<nat>, uniqueName: nat -> string,
                  firstAddr: nat)
    returns (names: seq<string>, at: seq<nat>, replacements: map<Expr, Expr>, ghost p: Plan)
    requires AllEntriesOk(entries, output) && AllNumbersOk(entries, output) && |useCount| == |entries|
    requires FreshNames(uniqueName) && AllAvoid(entries, FreshSet(uniqueName))
    ensures p == Plan(names, at, entries, output) && PlanOk(p) && Freshly(names, uniqueName)
    ensures forall n :: n in at <==> 0 <= n < |entries| && useCount[n] > 1
    ensures ReplacementsOk(p, replacements) && Exact(p, replacements, |entries|)
  {
    names, at, replacements := [], [], map[];
    p := Plan(names, at, entries, output);
    var i := 0;
    while i < |entries|
      invariant i <= |entries| && p == Plan(names, at, entries, output)
      invariant PlanOk(p) && Freshly(names, uniqueName) && Planned(p, useCount, i) && Pointing(p, replacements)
      invariant forall j :: 0 <= j < |at| ==> at[j] < |entries| && entries[at[j]] in replacements
    {
      if useCount[i] > 1 {
        var name := uniqueName(|names|);
        ghost var q := p.(names := names + [name], at := at + [i]);
        PlanMore(p, uniqueName, useCount, i, q);
        PointingMore(p, replacements, q, name, i, firstAddr + i);
        replacements := replacements[entries[i] := Var(firstAddr + i, name)];
        names, at := names + [name], at + [i];
        p := q;
      }
      i := i + 1;
    }
    PointingIsOk(p, replacements);
    PointingIsExact(p, replacements);
  }

  lemma {:induction false} PointingIsExact(p: Plan, memo: map<Expr, Expr>)
    requires PlanOk(p) && Pointing(p, memo)
    requires forall j :: 0 <= j < |p.at| ==> p.at[j] < |p.entries| && p.entries[p.at[j]] in memo
    ensures Exact(p, memo, |p.entries|)
  {
    forall k: Expr ensures ExactAt(p, memo, |p.entries|, k) {
      if k in memo {
        var j :| PointsTo(p, memo, k, j);
        LiftedIsReplaced(p, k, j);
      }
    }
  }

  /** Only operators are lifted. */
  ghost predicate LiftsOps(p: Plan) { forall k, j: nat {:trigger LiftedTo(p, k, j)} :: LiftedTo(p, k, j) ==> k.Op? }

  /**
   * The body is right once all names are bound, so it is right once the last let is added, and so on
   * outwards; and nothing lifted is computed again.
   */
  ghost predicate Wrapped(p: Plan, k: Expr, r: Expr, i: nat) {
    && IsChain(r, p.names, i) && SharesAll(p, r, k, i)
    && forall env: Env, m: Meaning {:trigger Agrees(p, k, r, env, m, i)} :: Agrees(p, k, r, env, m, i)
  }

  lemma {:induction false} WrapOne(p: Plan, k: Expr, r: Expr, i: nat, value: Expr, addr: nat)
    requires PlanOk(p) && i < |p.names| && p.at[i] < |p.entries|
    requires Wrapped(p, k, r, i + 1) && Good(p, p.entries[p.at[i]], value, i) && BindsEntry(p, value, i)
    ensures Wrapped(p, k, Let(addr, p.names[i], value, r), i)
  {
    var r' := Let(addr, p.names[i], value, r);
    forall env: Env, m: Meaning ensures Agrees(p, k, r', env, m, i) {
      assert Agrees(p, p.entries[p.at[i]], value, env, m, i) && Agrees(p, k, r, env, m, i + 1);
    }
  }

  /** Wrap the body in the lets, last one first. */
  method WrapLets(e: Expr, body: Expr, names: seq<string>, at: seq<nat>, entries: seq<Expr>, replacer: Replacer,
                  ghost p: Plan)
    returns (r: Expr)
    requires p.names == names && p.at == at && p.entries == entries
    requires PlanOk(p) && ReplacementsOk(p, replacer.replacements) && Wrapped(p, e, body, |names|)
    requires Exact(p, replacer.replacements, |entries|) && LiftsOps(p) && DistinctShapes(entries)
    modifies replacer
    ensures Wrapped(p, e, r, 0)
  {
    r := body;
    var i := |names|;
    while i > 0
      invariant 0 <= i <= |names| && ReplacementsOk(p, replacer.replacements) && Wrapped(p, e, r, i)
      invariant Exact(p, replacer.replacements, if i == |names| then |entries| else at[i])
    {
      LiftedAt(p, i - 1);
      var value := entries[at[i - 1]];
      ghost var n := at[i - 1];
      LetBound(p, i - 1);
      ExactBelow(p, replacer.replacements, if i == |names| then |entries| else at[i], n);
      Erased(p, replacer.replacements, value);
      ExactErase(p, replacer.replacements, n, value);
      replacer.Erase(value);
      var newValue := replacer.Mutate(value, p, n);
      assert LiftedTo(p, value, i - 1);
      RebuiltBinds(p, value, newValue, i - 1);
      WrapOne(p, e, r, i - 1, newValue, replacer.next);
      r := Let(replacer.next, names[i - 1], newValue, r);
      replacer.next := replacer.next + 1;
      i := i - 1;
    }
  }

  lemma {:induction false} LetBound(p: Plan, i: nat)
    requires PlanOk(p) && i < |p.at|
    ensures p.at[i] < |p.entries| && p.entries[p.at[i]] in p.output && p.output[p.entries[p.at[i]]] == p.at[i]
    ensures i + 1 < |p.at| ==> p.at[i] < p.at[i + 1]
  {
    assert NameOk(p, i) && NameOk(p, i + 1) && EntryOk(p.entries, p.output, p.at[i]);
  }

  lemma {:induction false} GoodIsWrapped(p: Plan, k: Expr, r: Expr, start: nat)
    requires PlanOk(p) && Good(p, k, r, start) && start <= |p.names|
    requires DistinctShapes(p.entries) && k in p.output && Shape(r) == Replaced(p, k)
    ensures Wrapped(p, k, r, |p.names|)
  {
    ReplacedNoCopy(p, k, r);
    forall env: Env, m: Meaning ensures Agrees(p, k, r, env, m, |p.names|) {}
  }

  lemma {:induction false} WrappedMeans(p: Plan, e: Expr, k: Expr, r: Expr, env: Env, m: Meaning)
    requires PlanOk(p) && Wrapped(p, k, r, 0) && Shape(k) == Inlined(e, map[])
    ensures Eval(r, env, m) == Eval(e, env, m)
  {
    assert Agrees(p, k, r, env, m, 0);
    ShapeEval(k, env, m);
    InlinedEval(e, map[], env, m);
    assert Under(map[], env, m) == env;
  }

  // -- Which entries are lifted -------------------------------------------------------------

  lemma {:induction false} RefsWithin(e: Expr, n: Expr, liftAll: bool)
    requires Refs(e, n, liftAll) > 0
    ensures Within(n, e) && ShouldExtract(n, liftAll)
    decreases e, 1
  {
    if !ShouldExtract(e, liftAll) {
      var i := RefsAllWithin(e.args, n, liftAll);
    }
  }

  lemma {:induction false} RefsAllWithin(es: seq<Expr>, n: Expr, liftAll: bool) returns (i: nat)
    requires RefsAll(es, n, liftAll) > 0
    ensures i < |es| && Within(n, es[i]) && ShouldExtract(n, liftAll)
    decreases es, 0
  {
    if Refs(es[0], n, liftAll) > 0 {
      RefsWithin(es[0], n, liftAll);
      i := 0;
    } else {
      i := RefsAllWithin(es[1..], n, liftAll);
      i := i + 1;
    }
  }

  lemma {:induction false} UsesWithin(es: seq<Expr>, e: Expr, n: Expr, liftAll: bool)
    requires Uses(es, n, liftAll) > 0 && forall a :: a in es ==> Within(a, e)
    ensures Within(n, e) && ShouldExtract(n, liftAll)
  {
    if ChildRefs(es[0], n, liftAll) > 0 {
      var i := RefsAllWithin(es[0].args, n, liftAll);
      assert Within(n, es[0]) && es[0] in es;
      WithinTrans(n, es[0], e);
    } else {
      assert forall a :: a in es[1..] ==> a in es;
      UsesWithin(es[1..], e, n, liftAll);
    }
  }

  /** The numbered graph contains everything its entries contain. */
  lemma {:induction false} WithinNumbered(entries: seq<Expr>, output: Numbering, a: Expr, e: Expr)
    requires AllEntriesOk(entries, output) && AllNumbersOk(entries, output) && e in output && Within(a, e)
    ensures a in output
    decreases e
  {
    assert NumberOk(entries, output, e) && EntryOk(entries, output, output[e]);
    if a != e && e.Op? {
      var i :| 0 <= i < |e.args| && Within(a, e.args[i]);
      WithinNumbered(entries, output, a, e.args[i]);
    }
  }

  /** A fresh variable is chosen exactly for the extractable expressions referred to at least twice. */
  ghost predicate LiftsShared(p: Plan, e: Expr, order: seq<Expr>, liftAll: bool) {
    && (forall a :: a in order <==> Within(a, e) && ShouldExtract(a, liftAll))
    && (forall i, j :: 0 <= i < j < |order| ==> order[i] != order[j])
    && (forall a {:trigger Lifts(p, a)} ::
          Lifts(p, a) <==> a in order && Refs(e, a, liftAll) + Uses(order, a, liftAll) > 1)
  }

  ghost predicate Lifts(p: Plan, a: Expr) {
    exists n :: n in p.at && n < |p.entries| && p.entries[n] == a
  }

  lemma {:induction false} SharedAreLifted(p: Plan, e: Expr, order: seq<Expr>, useCount: seq<nat>, liftAll: bool)
    requires PlanOk(p) && e in p.output && |useCount| == |p.entries|
    requires forall a :: a in order <==> Within(a, e) && ShouldExtract(a, liftAll)
    requires forall i, j :: 0 <= i < j < |order| ==> order[i] != order[j]
    requires forall n :: n in p.at <==> 0 <= n < |p.entries| && useCount[n] > 1
    requires forall k :: 0 <= k < |p.entries| ==>
      useCount[k] == Refs(e, p.entries[k], liftAll) + Uses(order, p.entries[k], liftAll)
    ensures LiftsShared(p, e, order, liftAll)
  {
    forall a ensures Lifts(p, a) <==> a in order && Refs(e, a, liftAll) + Uses(order, a, liftAll) > 1 {
      if Lifts(p, a) {
        if Refs(e, a, liftAll) > 0 { RefsWithin(e, a, liftAll); } else { UsesWithin(order, e, a, liftAll); }
      }
      if a in order && Refs(e, a, liftAll) + Uses(order, a, liftAll) > 1 {
        WithinNumbered(p.entries, p.output, a, e);
        assert NumberOk(p.entries, p.output, a);
        assert p.output[a] in p.at;
      }
    }
  }

  lemma {:induction false} SharedAreOps(p: Plan, e: Expr, order: seq<Expr>, liftAll: bool)
    requires PlanOk(p) && LiftsShared(p, e, order, liftAll)
    ensures LiftsOps(p)
  {
    forall k, j: nat | LiftedTo(p, k, j) ensures k.Op? {
      assert p.at[j] in p.at && Lifts(p, k);
      assert EntryOk(p.entries, p.output, p.at[j]);
    }
  }

  /** From the numbered graph to lets around the replaced root. */
  method LiftShared(e: Expr, entries: seq<Expr>, output: Numbering, liftAll: bool, uniqueName: nat -> string,
                    firstAddr: nat)
    returns (r: Expr, ghost p: Plan, ghost order: seq<Expr>)
    requires AllEntriesOk(entries, output) && AllNumbersOk(entries, output) && DistinctShapes(entries) && e in output
    requires FreshNames(uniqueName) && AllAvoid(entries, FreshSet(uniqueName))
    ensures p.entries == entries && PlanOk(p) && Freshly(p.names, uniqueName)
    ensures Wrapped(p, e, r, 0) && LiftsShared(p, e, order, liftAll)
  {
    var useCount, names, at, replacements;
    useCount, order := CountUses(e, entries, output, liftAll);
    names, at, replacements, p := PlanLets(entries, output, useCount, uniqueName, firstAddr);
    SharedAreLifted(p, e, order, useCount, liftAll);
    var replacer := new Replacer(replacements, firstAddr + |entries|);
    assert NumberOk(entries, output, e);
    SharedAreOps(p, e, order, liftAll);
    var body := replacer.Mutate(e, p, |entries|);
    GoodIsWrapped(p, e, body, Below(at, if e in replacements then output[e] + 1 else output[e]));
    r := WrapLets(e, body, names, at, entries, replacer, p);
  }

  /**
   * Common subexpression elimination keeps the value of every expression in every environment
   * and for every meaning of its operators.  Otherwise than for a constant or a variable, the
   * result is a chain of lets over fresh names, each value using only earlier ones; the names
   * stand for exactly the extractable expressions of the shared graph referred to twice or more,
   * and these are computed nowhere else: every reference to one is its variable.
   */
  method CommonSubexpressionElimination(e: Expr, liftAll: bool, uniqueName: nat -> string, firstAddr: nat)
    returns (r: Expr, ghost p: Plan, ghost shared: Expr, ghost order: seq<Expr>)
    requires FreshNames(uniqueName) && Avoids(e, FreshSet(uniqueName))
    ensures forall env: Env, m: Meaning :: Eval(r, env, m) == Eval(e, env, m)
    ensures IsConst(e) || e.Var? ==> r == e
    ensures !(IsConst(e) || e.Var?) ==>
      && Freshly(p.names, uniqueName) && IsChain(r, p.names, 0)
      && DistinctShapes(p.entries) && shared in p.entries && Shape(shared) == Inlined(e, map[])
      && LiftsShared(p, shared, order, liftAll) && SharesAll(p, r, shared, 0)
  {
    p, shared, order := Plan([], [], [], map[]), e, [];
    if IsConst(e) || e.Var? { return e, p, shared, order; }
    var letRemover := new RemoveLets(firstAddr);
    var plain := letRemover.Mutate(e);
    PlainIsFit(e, plain, FreshSet(uniqueName));
    var gvn := new GVN(letRemover.next, FreshSet(uniqueName));
    var canonical := gvn.Mutate(plain);
    assert EntryOk(gvn.entries, gvn.output, gvn.number);
    shared := canonical;
    r, p, order := LiftShared(canonical, gvn.entries, gvn.output, liftAll, uniqueName, gvn.next);
    forall env: Env, m: Meaning ensures Eval(r, env, m) == Eval(e, env, m) {
      WrappedMeans(p, e, canonical, r, env, m);
    }
  }

  /** Let removal leaves an expression fit for numbering. */
  lemma {:induction false} PlainIsFit(e: Expr, plain: Expr, names: iset<string>)
    requires Shape(plain) == Inlined(e, map[]) && Avoids(e, names)
    ensures LetFree(plain) && Avoids(plain, names)
  {
    InlinedLetFree(e, map[]);
    ShapeLetFree(plain);
    forall x | x in names ensures !Mentions(plain, x) {
      InlinedAvoids(e, map[], x);
      ShapeMentions(plain, x);
    }
  }
}
