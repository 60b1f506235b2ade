/**
 * What replacing shared entries by variables must give: every reference to a lifted entry is
 * its variable, and reading the variables as their entries gives back the original.
 */
module CseSharing {
  import opened Wrappers
  import opened ExprGraph
  import opened CseNumbering
  import opened CseUses

  /** The entries to lift, by increasing number, and the variable each is lifted to. */
  datatype Plan = Plan(names: seq<string>, at: seq<nat>, entries: seq<Expr>, output: Numbering)

  ghost predicate NameOk(p: Plan, j: nat) {
    j < |p.names| == |p.at| ==>
      && p.at[j] < |p.entries|
      && (forall k :: 0 <= k < j ==> p.at[k] < p.at[j] && p.names[k] != p.names[j])
  }

  ghost predicate PlanOk(p: Plan) {
    && |p.names| == |p.at|
    && AllEntriesOk(p.entries, p.output) && AllNumbersOk(p.entries, p.output)
    && AllAvoid(p.entries, NameSet(p.names))
    && forall j: nat {:trigger NameOk(p, j)} :: NameOk(p, j)
  }

  ghost function NameSet(names: seq<string>): iset<string> { iset x | x in names }

  /** Entry `k` is lifted to variable `j`. */
  predicate LiftedTo(p: Plan, k: Expr, j: nat) {
    j < |p.names| == |p.at| && p.at[j] < |p.entries| && k == p.entries[p.at[j]]
  }

  lemma {:induction false} LiftedOnce(p: Plan, k: Expr, i: nat, j: nat)
    requires PlanOk(p) && LiftedTo(p, k, i) && LiftedTo(p, k, j)
    ensures i == j
  {
    assert NameOk(p, i) && NameOk(p, j);
    assert EntryOk(p.entries, p.output, p.at[i]) && EntryOk(p.entries, p.output, p.at[j]);
  }

  lemma {:induction false} NamesDiffer(p: Plan, i: nat, j: nat)
    requires PlanOk(p) && i < |p.names| && j < |p.names| && p.names[i] == p.names[j]
    ensures i == j
  {
    assert NameOk(p, i) && NameOk(p, j);
  }

  // -- replacing -------------------------------------------------------------------------

  /** The shape that a reference to `k` gets. */
  ghost function Replaced(p: Plan, k: Expr): Expr
    decreases k, 3
  {
    if j: nat :| LiftedTo(p, k, j) then Var(0, p.names[j]) else Rebuilt(p, k)
  }

  /** The shape of `k` itself, over references to its operands. */
  ghost function Rebuilt(p: Plan, k: Expr): Expr
    decreases k, 2
  {
    match k
    case Op(_, kind, args) => Op(0, kind, ReplacedAll(p, args))
    case _ => Shape(k)
  }

  ghost function ReplacedAll(p: Plan, ks: seq<Expr>): (rs: seq<Expr>)
    ensures |rs| == |ks|
    decreases ks, 1
  {
    if ks == [] then [] else [Replaced(p, ks[0])] + ReplacedAll(p, ks[1..])
  }

  lemma {:induction false} ReplacedAllAt(p: Plan, ks: seq<Expr>, i: nat)
    requires i < |ks|
    ensures ReplacedAll(p, ks)[i] == Replaced(p, ks[i])
  {
    if i > 0 { ReplacedAllAt(p, ks[1..], i - 1); }
  }

  lemma {:induction false} ReplacedAllFrom(p: Plan, ks: seq<Expr>, rs: seq<Expr>)
    requires |rs| == |ks| && forall i :: 0 <= i < |ks| ==> Shape(rs[i]) == Replaced(p, ks[i])
    ensures ShapeAll(rs) == ReplacedAll(p, ks)
  {
    if ks != [] {
      assert forall i :: 0 <= i < |ks[1..]| ==> ks[1..][i] == ks[i + 1] && rs[1..][i] == rs[i + 1];
      ReplacedAllFrom(p, ks[1..], rs[1..]);
    }
  }

  lemma {:induction false} LiftedIsReplaced(p: Plan, k: Expr, j: nat)
    requires PlanOk(p) && LiftedTo(p, k, j)
    ensures Replaced(p, k) == Var(0, p.names[j])
  {
    forall i: nat | LiftedTo(p, k, i) ensures i == j { LiftedOnce(p, k, i, j); }
  }

  // -- and reading the variables as their entries ------------------------------------------

  predicate IsName(p: Plan, x: string, j: nat) { j < |p.names| == |p.at| && p.at[j] < |p.entries| && p.names[j] == x }

  /** The shape of an expression with every lifted variable read as its entry. */
  ghost function Expand(p: Plan, e: Expr): Expr
    decreases e, 1
  {
    match e
    case Const(_, v) => Const(0, v)
    case Var(_, x) => if j: nat :| IsName(p, x, j) then Shape(p.entries[p.at[j]]) else Var(0, x)
    case Op(_, kind, args) => Op(0, kind, ExpandAll(p, args))
    case Let(_, _, _, _) => Shape(e)
  }

  ghost function ExpandAll(p: Plan, es: seq<Expr>): (r: seq<Expr>)
    ensures |r| == |es|
    decreases es, 0
  {
    if es == [] then [] else [Expand(p, es[0])] + ExpandAll(p, es[1..])
  }

  lemma {:induction false} ExpandAllFrom(p: Plan, es: seq<Expr>, fs: seq<Expr>)
    requires |es| == |fs| && forall i :: 0 <= i < |es| ==> Expand(p, es[i]) == Expand(p, fs[i])
    ensures ExpandAll(p, es) == ExpandAll(p, fs)
  {
    if es != [] {
      assert forall i :: 0 <= i < |es[1..]| ==> es[1..][i] == es[i + 1] && fs[1..][i] == fs[i + 1];
      ExpandAllFrom(p, es[1..], fs[1..]);
    }
  }

  lemma {:induction false} ExpandAllShapes(p: Plan, es: seq<Expr>, ks: seq<Expr>)
    requires |es| == |ks| && forall i :: 0 <= i < |es| ==> Expand(p, es[i]) == Shape(ks[i])
    ensures ExpandAll(p, es) == ShapeAll(ks)
  {
    if es != [] {
      assert forall i :: 0 <= i < |es[1..]| ==> es[1..][i] == es[i + 1] && ks[1..][i] == ks[i + 1];
      ExpandAllShapes(p, es[1..], ks[1..]);
    }
  }

  /** Addresses do not matter. */
  lemma {:induction false} ExpandShape(p: Plan, e: Expr)
    requires LetFree(e)
    ensures Expand(p, Shape(e)) == Expand(p, e)
    decreases e
  {
    if e.Op? {
      var shapes := ShapeAll(e.args);
      forall i | 0 <= i < |e.args| ensures Expand(p, shapes[i]) == Expand(p, e.args[i]) {
        ShapeAllAt(e.args, i);
        ExpandShape(p, e.args[i]);
      }
      ExpandAllFrom(p, shapes, e.args);
    }
  }

  lemma {:induction false} NameExpands(p: Plan, j: nat, addr: nat)
    requires PlanOk(p) && j < |p.names|
    ensures p.at[j] < |p.entries| && Expand(p, Var(addr, p.names[j])) == Shape(p.entries[p.at[j]])
  {
    assert NameOk(p, j);
    forall i: nat | IsName(p, p.names[j], i) ensures i == j { NamesDiffer(p, i, j); }
    assert IsName(p, p.names[j], j);
  }

  /** Replacing and then reading the variables as their entries gives back the shape. */
  lemma {:induction false} ExpandsBack(p: Plan, k: Expr)
    requires PlanOk(p) && k in p.output
    ensures Expand(p, Replaced(p, k)) == Shape(k) && Expand(p, Rebuilt(p, k)) == Shape(k)
    decreases k
  {
    assert NumberOk(p.entries, p.output, k) && EntryOk(p.entries, p.output, p.output[k]);
    if j: nat :| LiftedTo(p, k, j) {
      LiftedIsReplaced(p, k, j);
      NameExpands(p, j, 0);
    }
    match k
    case Const(_, _) =>
    case Var(_, x) => OuterVariable(p, k);
    case Op(_, _, args) =>
      var rs := ReplacedAll(p, args);
      forall i | 0 <= i < |args| ensures Expand(p, rs[i]) == Shape(args[i]) {
        ReplacedAllAt(p, args, i);
        ExpandsBack(p, args[i]);
      }
      ExpandAllShapes(p, rs, args);
  }

  lemma {:induction false} OuterVariable(p: Plan, k: Expr)
    requires PlanOk(p) && k.Var? && k in p.output
    ensures forall j: nat :: !IsName(p, k.name, j)
  {
    assert NumberOk(p.entries, p.output, k);
    assert Avoids(p.entries[p.output[k]], NameSet(p.names));
    forall j: nat ensures !IsName(p, k.name, j) {
      assert j < |p.names| ==> p.names[j] in NameSet(p.names);
      assert Mentions(k, k.name);
    }
  }

  // -- no copies ---------------------------------------------------------------------------

  /** Whatever stands for a lifted entry inside the expression is that entry's variable. */
  ghost predicate NoCopy(p: Plan, x: Expr) {
    forall s, j: nat {:trigger Within(s, x), LiftedShape(p, s, j)} ::
      Within(s, x) && LiftedShape(p, s, j) ==> s.Var? && s.name == p.names[j]
  }

  /** The expression stands for the entry of variable `j`. */
  ghost predicate LiftedShape(p: Plan, s: Expr, j: nat) {
    j < |p.names| == |p.at| && p.at[j] < |p.entries| && Expand(p, s) == Shape(p.entries[p.at[j]])
  }

  lemma {:induction false} WithinShape(s: Expr, e: Expr)
    requires Within(s, e) && LetFree(e)
    ensures Within(Shape(s), Shape(e)) && LetFree(s)
    decreases e
  {
    if s != e && e.Op? {
      var i :| 0 <= i < |e.args| && Within(s, e.args[i]);
      WithinShape(s, e.args[i]);
      ShapeAllAt(e.args, i);
    }
  }

  /** Every part of a replaced expression is the replacement of a numbered one. */
  lemma {:induction false} PartOfReplaced(p: Plan, k: Expr, s: Expr) returns (k': Expr)
    requires PlanOk(p) && k in p.output && Within(s, Replaced(p, k))
    ensures k' in p.output && s == Replaced(p, k')
    decreases k
  {
    k' := k;
    if s == Replaced(p, k) { return; }
    if k.Op? && Replaced(p, k).Op? {
      assert NumberOk(p.entries, p.output, k) && EntryOk(p.entries, p.output, p.output[k]);
      var rs := ReplacedAll(p, k.args);
      assert Replaced(p, k) == Rebuilt(p, k);
      var i :| 0 <= i < |rs| && Within(s, rs[i]);
      ReplacedAllAt(p, k.args, i);
      k' := PartOfReplaced(p, k.args[i], s);
    } else {
      ReplacedParts(p, k, s);
    }
  }

  lemma {:induction false} ReplacedParts(p: Plan, k: Expr, s: Expr)
    requires PlanOk(p) && k in p.output && Within(s, Replaced(p, k)) && !(k.Op? && Replaced(p, k).Op?)
    ensures s == Replaced(p, k)
  {
    assert NumberOk(p.entries, p.output, k) && EntryOk(p.entries, p.output, p.output[k]);
  }

  lemma {:induction false} SameEntry(p: Plan, k: Expr, j: nat)
    requires PlanOk(p) && DistinctShapes(p.entries) && k in p.output && j < |p.at|
    requires p.at[j] < |p.entries| && Shape(k) == Shape(p.entries[p.at[j]])
    ensures LiftedTo(p, k, j)
  {
    assert NumberOk(p.entries, p.output, k);
    assert Apart(p.entries, p.output[k], p.at[j]) && Apart(p.entries, p.at[j], p.output[k]);
  }

  lemma {:induction false} ReplacedNoCopy(p: Plan, k: Expr, x: Expr)
    requires PlanOk(p) && DistinctShapes(p.entries) && k in p.output && LetFree(x) && Shape(x) == Replaced(p, k)
    ensures NoCopy(p, x) && Expand(p, x) == Shape(k)
  {
    ExpandShape(p, x);
    ExpandsBack(p, k);
    forall s, j: nat | Within(s, x) && LiftedShape(p, s, j) ensures s.Var? && s.name == p.names[j] {
      WithinShape(s, x);
      var k' := PartOfReplaced(p, k, Shape(s));
      ExpandShape(p, s);
      ExpandsBack(p, k');
      SameEntry(p, k', j);
      LiftedIsReplaced(p, k', j);
    }
  }

  /** What a let binds: the entry itself, in which everything below is free of copies. */
  ghost predicate BindsEntry(p: Plan, v: Expr, j: nat) {
    LiftedShape(p, v, j) && v.Op? && forall i :: 0 <= i < |v.args| ==> NoCopy(p, v.args[i])
  }

  lemma {:induction false} RebuiltBinds(p: Plan, k: Expr, v: Expr, j: nat)
    requires PlanOk(p) && DistinctShapes(p.entries) && k in p.output && k.Op? && LiftedTo(p, k, j)
    requires LetFree(v) && Shape(v) == Rebuilt(p, k)
    ensures BindsEntry(p, v, j)
  {
    ExpandShape(p, v);
    ExpandsBack(p, k);
    assert NumberOk(p.entries, p.output, k) && EntryOk(p.entries, p.output, p.output[k]);
    forall i | 0 <= i < |v.args| ensures NoCopy(p, v.args[i]) {
      ShapeAllAt(v.args, i);
      ReplacedAllAt(p, k.args, i);
      ReplacedNoCopy(p, k.args[i], v.args[i]);
    }
  }

  /**
   * A chain of lets from name `i` on, each binding its entry, around a body that stands for `k`; nowhere
   * in the body or below the values is an entry computed again.
   */
  ghost predicate SharesAll(p: Plan, r: Expr, k: Expr, i: nat)
    decreases r
  {
    if i >= |p.names| then NoCopy(p, r) && Expand(p, r) == Shape(k)
    else r.Let? && r.name == p.names[i] && BindsEntry(p, r.value_, i) && SharesAll(p, r.body, k, i + 1)
  }
}
