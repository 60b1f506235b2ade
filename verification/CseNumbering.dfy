/**
 * Global value numbering and use counting.  GVN rebuilds an expression out of numbered
 * entries; ComputeUseCounts walks the rebuilt graph, stepping through nodes that are not
 * worth a let and expanding every other node once.
 */
module CseNumbering {
  import opened ExprGraph

  // -- should_extract ---------------------------------------------------------------

  predicate IsConst(e: Expr) {
    match e
    case Const(_, _) => true
    case Op(_, k, args) =>
      || ((k.Cast? || k.Broadcast?) && |args| == 1 && IsConst(args[0]))
      || (k.Ramp? && |args| == 2 && IsConst(args[0]) && IsConst(args[1]))
    case _ => false
  }

  predicate ShouldExtract(e: Expr, liftAll: bool) {
    if IsConst(e) || e.Var? then false
    else if liftAll || e.Let? then true
    else if (e.kind.Broadcast? || e.kind.Cast?) && |e.args| == 1 then ShouldExtract(e.args[0], false)
    else if (e.kind.Add? || e.kind.Sub? || e.kind.Mul? || e.kind.Div?) && |e.args| == 2 then
      !(IsConst(e.args[0]) || IsConst(e.args[1]))
    else if e.kind.Ramp? && |e.args| == 2 then !IsConst(e.args[1])
    else true
  }

  /** The expression under all its casts and broadcasts. */
  function Core(e: Expr): Expr {
    if e.Op? && (e.kind.Broadcast? || e.kind.Cast?) && |e.args| == 1 then Core(e.args[0]) else e
  }

  /** One arithmetic step from a single operand: a constant on one side, or a ramp of constant stride. */
  predicate OneStep(e: Expr) {
    && e.Op? && |e.args| == 2
    && (|| (e.kind in {Add, Sub, Mul, Div} && (IsConst(e.args[0]) || IsConst(e.args[1])))
        || (e.kind.Ramp? && IsConst(e.args[1])))
  }

  /**
   * Worth a let: whatever is neither constant nor a variable, and unless everything is to be lifted, is
   * still more than that, and more than one step from one operand, under all its casts and broadcasts.
   */
  lemma {:induction false} ExtractIff(e: Expr, liftAll: bool)
    ensures ShouldExtract(e, liftAll) <==>
      && !IsConst(e) && !e.Var?
      && (liftAll || (!IsConst(Core(e)) && !Core(e).Var? && !OneStep(Core(e))))
  {
    if e.Op? && (e.kind.Broadcast? || e.kind.Cast?) && |e.args| == 1 { ExtractIff(e.args[0], false); }
  }

  // -- What a numbering is ------------------------------------------------------------

  /** The use maps of all entries and the leaves map together: key (last child, shape). */
  type UseMap = map<(int, Expr), nat>

  type Numbering = map<Expr, nat>

  /** `e` is a leaf, or an operator over entries numbered below `n`. */
  ghost predicate BuiltFrom(e: Expr, output: Numbering, n: nat) {
    match e
    case Const(_, _) => true
    case Var(_, _) => true
    case Op(_, _, args) => forall j :: 0 <= j < |args| ==> args[j] in output && output[args[j]] < n
    case Let(_, _, _, _) => false
  }

  /** Entry `i` is numbered `i` and refers only to entries before it. */
  ghost predicate EntryOk(entries: seq<Expr>, output: Numbering, i: nat) {
    i < |entries| ==> entries[i] in output && output[entries[i]] == i && BuiltFrom(entries[i], output, i)
  }

  ghost predicate AllEntriesOk(entries: seq<Expr>, output: Numbering) {
    forall i: nat {:trigger EntryOk(entries, output, i)} :: EntryOk(entries, output, i)
  }

  ghost predicate NumberOk(entries: seq<Expr>, output: Numbering, k: Expr) {
    k in output ==> output[k] < |entries| && entries[output[k]] == k
  }

  ghost predicate AllNumbersOk(entries: seq<Expr>, output: Numbering) {
    forall k: Expr {:trigger NumberOk(entries, output, k)} :: NumberOk(entries, output, k)
  }

  /** Different numbers mean different shapes. */
  ghost predicate Apart(entries: seq<Expr>, i: nat, j: nat) {
    i < j < |entries| ==> Shape(entries[i]) != Shape(entries[j])
  }

  ghost predicate DistinctShapes(entries: seq<Expr>) {
    forall i: nat, j: nat {:trigger Apart(entries, i, j)} :: Apart(entries, i, j)
  }

  ghost predicate ShallowAt(entries: seq<Expr>, shallow: Numbering, k: Expr) {
    k in shallow ==> shallow[k] < |entries| && Same(entries[shallow[k]], k)
  }

  ghost predicate ShallowOk(entries: seq<Expr>, shallow: Numbering) {
    forall k: Expr {:trigger ShallowAt(entries, shallow, k)} :: ShallowAt(entries, shallow, k)
  }

  /** The number of the last child, or -1: where the use map for `e` is kept. */
  function LastChild(e: Expr, output: Numbering): int {
    if e.Op? && e.args != [] && e.args[|e.args| - 1] in output then output[e.args[|e.args| - 1]] else -1
  }

  ghost predicate UseAt(entries: seq<Expr>, uses: UseMap, k: (int, Expr)) {
    k in uses ==> uses[k] < |entries| && Shape(entries[uses[k]]) == k.1
  }

  ghost predicate UsesSound(entries: seq<Expr>, uses: UseMap) {
    forall k: (int, Expr) {:trigger UseAt(entries, uses, k)} :: UseAt(entries, uses, k)
  }

  ghost predicate UsedAt(entries: seq<Expr>, output: Numbering, uses: UseMap, i: nat) {
    i < |entries| ==> (LastChild(entries[i], output), Shape(entries[i])) in uses
  }

  ghost predicate UsesComplete(entries: seq<Expr>, output: Numbering, uses: UseMap) {
    forall i: nat {:trigger UsedAt(entries, output, uses, i)} :: UsedAt(entries, output, uses, i)
  }

  ghost predicate TableOk(entries: seq<Expr>, output: Numbering, uses: UseMap) {
    && AllEntriesOk(entries, output) && AllNumbersOk(entries, output) && DistinctShapes(entries)
    && UsesSound(entries, uses) && UsesComplete(entries, output, uses)
  }

  /** Value numbers are equal exactly when the expressions are syntactically equal. */
  lemma {:induction false} EqualNumbersIffSame(entries: seq<Expr>, output: Numbering, uses: UseMap, a: Expr, b: Expr)
    requires TableOk(entries, output, uses) && a in output && b in output
    ensures output[a] == output[b] <==> Same(a, b)
  {
    assert NumberOk(entries, output, a) && NumberOk(entries, output, b);
    assert Apart(entries, output[a], output[b]) && Apart(entries, output[b], output[a]);
  }

  lemma {:induction false} LastArgSame(e: Expr, f: Expr)
    requires Same(e, f) && e.Op? && e.args != []
    ensures f.Op? && f.args != [] && Same(e.args[|e.args| - 1], f.args[|f.args| - 1])
  {
    ShapeAllAt(e.args, |e.args| - 1);
    ShapeAllAt(f.args, |f.args| - 1);
  }

  /** Entries of one shape have the same last child, so a miss in its use map means no entry has the shape. */
  lemma {:induction false} MissIsNovel(e: Expr, entries: seq<Expr>, output: Numbering, uses: UseMap, i: nat)
    requires TableOk(entries, output, uses) && BuiltFrom(e, output, |entries|)
    requires (LastChild(e, output), Shape(e)) !in uses && i < |entries|
    ensures Shape(entries[i]) != Shape(e)
  {
    var f := entries[i];
    assert UsedAt(entries, output, uses, i) && EntryOk(entries, output, i);
    if Shape(f) == Shape(e) && e.Op? && e.args != [] {
      LastArgSame(e, f);
      EqualNumbersIffSame(entries, output, uses, e.args[|e.args| - 1], f.args[|f.args| - 1]);
      assert false;
    }
  }

  /** A novel expression becomes the next entry. */
  lemma {:induction false} Append(e: Expr, entries: seq<Expr>, output: Numbering, uses: UseMap)
    requires TableOk(entries, output, uses) && BuiltFrom(e, output, |entries|)
    requires (LastChild(e, output), Shape(e)) !in uses
    ensures e !in output
    ensures TableOk(entries + [e], output[e := |entries|], uses[(LastChild(e, output), Shape(e)) := |entries|])
  {
    var n, longer, output' := |entries|, entries + [e], output[e := |entries|];
    var key := (LastChild(e, output), Shape(e));
    var uses' := uses[key := n];
    assert e !in output by {
      assert NumberOk(entries, output, e);
      if e in output { MissIsNovel(e, entries, output, uses, output[e]); }
    }
    forall i: nat ensures EntryOk(longer, output', i) { assert EntryOk(entries, output, i); }
    forall i: nat ensures UsedAt(longer, output', uses', i) {
      assert EntryOk(entries, output, i) && UsedAt(entries, output, uses, i);
    }
    forall k: Expr ensures NumberOk(longer, output', k) { assert NumberOk(entries, output, k); }
    forall i: nat, j: nat ensures Apart(longer, i, j) {
      assert Apart(entries, i, j);
      if i < j == n { MissIsNovel(e, entries, output, uses, i); }
    }
    forall k: (int, Expr) ensures UseAt(longer, uses', k) { assert UseAt(entries, uses, k); }
  }

  lemma {:induction false} ShallowGrows(entries: seq<Expr>, longer: seq<Expr>, shallow: Numbering)
    requires ShallowOk(entries, shallow) && entries <= longer
    ensures ShallowOk(longer, shallow)
  {
    forall k: Expr ensures ShallowAt(longer, shallow, k) { assert ShallowAt(entries, shallow, k); }
  }

  lemma {:induction false} ShallowAdd(entries: seq<Expr>, shallow: Numbering, e: Expr, n: nat)
    requires ShallowOk(entries, shallow) && n < |entries| && Same(entries[n], e)
    ensures ShallowOk(entries, shallow[e := n])
  {
    var shallow' := shallow[e := n];
    forall k: Expr ensures ShallowAt(entries, shallow', k) { assert ShallowAt(entries, shallow, k); }
  }

  ghost predicate Avoids(e: Expr, names: iset<string>) {
    forall x :: x in names ==> !Mentions(e, x)
  }

  ghost predicate AllAvoid(entries: seq<Expr>, names: iset<string>) {
    forall i {:trigger Avoids(entries[i], names)} :: 0 <= i < |entries| ==> Avoids(entries[i], names)
  }

  lemma {:induction false} AvoidAdd(entries: seq<Expr>, e: Expr, r: Expr, names: iset<string>)
    requires AllAvoid(entries, names) && Avoids(e, names) && Same(r, e)
    ensures AllAvoid(entries + [r], names)
  {
    forall x | x in names ensures !Mentions(r, x) {
      ShapeMentions(e, x);
      ShapeMentions(r, x);
    }
    forall i | 0 <= i < |entries + [r]| ensures Avoids((entries + [r])[i], names) {
      if i < |entries| { assert Avoids(entries[i], names); }
    }
  }

  lemma {:induction false} ChildAvoids(e: Expr, i: nat, names: iset<string>)
    requires e.Op? && i < |e.args| && Avoids(e, names)
    ensures Avoids(e.args[i], names)
  {
    forall x | x in names ensures !Mentions(e.args[i], x) { assert !Mentions(e, x); }
  }

  class GVN {
    var entries: seq<Expr>
    var uses: UseMap
    var shallow: Numbering
    var output: Numbering
    var number: int
    var next: nat
    ghost const avoid: iset<string>   // names no numbered expression mentions

    ghost predicate Valid() reads this {
      TableOk(entries, output, uses) && ShallowOk(entries, shallow) && AllAvoid(entries, avoid)
    }

    constructor (firstAddr: nat, ghost avoid: iset<string>)
      ensures Valid() && entries == [] && next == firstAddr && this.avoid == avoid
    {
      this.avoid := avoid;
      entries, uses, shallow, output, number, next := [], map[], map[], map[], 0, firstAddr;
    }

    /** The result is the one entry with the shape of `e`; earlier entries keep their numbers. */
    method Mutate(e: Expr) returns (r: Expr)
      requires Valid() && LetFree(e) && Avoids(e, avoid)
      modifies this
      ensures Valid() && old(entries) <= entries && Grown(old(output), output)
      ensures 0 <= number < |entries| && r == entries[number] && Same(r, e)
      decreases e, 1
    {
      if e in shallow {
        number := shallow[e];
        assert ShallowAt(entries, shallow, e);
        return entries[number];
      }
      number := -1;
      r := e;
      if e.Op? { r := VisitOp(e); }
      assert number == LastChild(r, output);
      var key := (number, Shape(r));
      if key in uses {
        assert UseAt(entries, uses, key);
        number := uses[key];
        r := entries[number];
        assert EntryOk(entries, output, number);
        assert output[r := number] == output;
      } else {
        Append(r, entries, output, uses);
        ShallowGrows(entries, entries + [r], shallow);
        AvoidAdd(entries, e, r, avoid);
        number := |entries|;
        uses := uses[key := number];
        entries := entries + [r];
      }
      ShallowAdd(entries, shallow, e, number);
      shallow := shallow[e := number];
      output := output[r := number];
    }

    /** Rebuild over numbered children; `number` ends as that of the last child. */
    method VisitOp(e: Expr) returns (r: Expr)
      requires e.Op? && Valid() && LetFree(e) && Avoids(e, avoid) && number == -1
      modifies this
      ensures Valid() && old(entries) <= entries && Grown(old(output), output)
      ensures r.Op? && Same(r, e) && BuiltFrom(r, output, |entries|)
      ensures number == LastChild(r, output)
      decreases e, 0
    {
      var args, i := [], 0;
      while i < |e.args|
        invariant i == |args| <= |e.args| && Valid() && old(entries) <= entries && Grown(old(output), output)
        invariant forall j :: 0 <= j < i ==>
          Same(args[j], e.args[j]) && args[j] in output && output[args[j]] < |entries|
        invariant if i == 0 then number == -1 else number == output[args[i - 1]]
      {
        ghost var before := output;
        ChildAvoids(e, i, avoid);
        var a := Mutate(e.args[i]);
        assert EntryOk(entries, output, number);
        assert forall k :: k in before ==> k in output && output[k] == before[k];
        args := args + [a];
        i := i + 1;
      }
      ShapeAllFrom(args, e.args);
      if args == e.args {
        r := e;
      } else {
        r := Op(next, e.kind, args);
        next := next + 1;
      }
    }
  }

  ghost predicate Grown(before: Numbering, after: Numbering) {
    forall k :: k in before ==> k in after && after[k] == before[k]
  }
}
