/**
 * The auto-scheduler's grouping problem: src/AutoSchedule.cpp, struct Partitioner.
 *
 * Stages of functions start in groups of their own; a step merges a producer into all of
 * its consumers and contracts the pipeline graph.  This module holds the values the
 * partitioner works on, the step as a function on them, and what every step keeps.
 * The cost model is an arbitrary function of a group's output, set of members, set of
 * inlined functions and tile sizes, which is all that analyze_group looks at.
 */
module Grouping {
  import opened Wrappers

  datatype FStage = FStage(func: string, stage: nat)

  /** A function: its stages (the pure definition and the updates) with what each one calls. */
  datatype Func = Func(calls: seq<set<string>>, pure: bool)

  datatype Pipeline = Pipeline(
    env: map<string, Func>,
    outputs: set<string>,
    order: map<string, nat>)   // position in the realization order

  type TileSizes = map<string, int>

  datatype Cost = Cost(arith: int, memory: int)

  datatype Analysis = Analysis(cost: Option<Cost>, parallelism: Option<int>)

  datatype Group = Group(output: FStage, members: seq<FStage>, inlined: set<string>, tileSizes: TileSizes)

  datatype Choice = Choice(prod: string, cons: FStage)

  datatype Config = Config(tileSizes: TileSizes, analysis: Analysis)

  datatype Level = Inline | FastMem

  datatype CostModel = CostModel(
    analyze: (FStage, set<FStage>, set<string>, TileSizes) -> Analysis,
    tileConfigs: FStage -> seq<TileSizes>,
    unitTiles: FStage -> TileSizes,
    parallelism: int)

  type Groups = map<FStage, Group>
  type Children = map<FStage, set<FStage>>
  type Ledger = map<FStage, Analysis>
  type Cache = map<Choice, Config>

  datatype State = State(groups: Groups, children: Children, costs: Ledger, cache: Cache)

  const INT64_MAX := 0x7fff_ffff_ffff_ffff

  // ---- the pipeline ----

  function NumStages(p: Pipeline, f: string): nat { if f in p.env then |p.env[f].calls| else 0 }

  function Position(p: Pipeline, f: string): nat { if f in p.order then p.order[f] else 0 }

  predicate IsPure(p: Pipeline, f: string) { f in p.env && p.env[f].pure }

  predicate IsStage(p: Pipeline, x: FStage) { x.stage < NumStages(p, x.func) }

  function StagesOf(p: Pipeline, f: string): (stages: set<FStage>)
    ensures forall x :: x in stages <==> x.func == f && x.stage < NumStages(p, f)
  {
    set s | 0 <= s < NumStages(p, f) :: FStage(f, s)
  }

  /** The stage that stands for the whole function in the graph. */
  function Final(p: Pipeline, f: string): FStage
  {
    FStage(f, if NumStages(p, f) == 0 then 0 else NumStages(p, f) - 1)
  }

  /** A function has a pure definition, and what it calls is realized before it: no cycles. */
  ghost predicate FuncOk(p: Pipeline, f: string)
    requires f in p.env
  {
    && NumStages(p, f) > 0
    && forall s, c :: 0 <= s < NumStages(p, f) && c in p.env[f].calls[s] && c in p.env && c != f ==>
         Position(p, c) < Position(p, f)
  }

  ghost predicate WellFormed(p: Pipeline)
  {
    && p.outputs <= p.env.Keys
    && forall f {:trigger FuncOk(p, f)} :: f in p.env ==> FuncOk(p, f)
  }

  /** x comes before c in the graph: a later function, or the next stage of the same one. */
  predicate Before(p: Pipeline, x: FStage, c: FStage)
  {
    if x.func == c.func then c.stage == x.stage + 1
    else x == Final(p, x.func) && Position(p, x.func) < Position(p, c.func)
  }

  // ---- costs ----

  predicate Defined(a: Analysis) { a.cost.Some? && a.parallelism.Some? }

  function Weight(a: Analysis): int
  {
    if a.cost.Some? then a.cost.value.arith + a.cost.value.memory else 0
  }

  /** Total of arithmetic and memory cost over a set of stages. */
  ghost function Total(costs: Ledger, s: set<FStage>): int
    requires s <= costs.Keys
  {
    if s == {} then 0 else var x :| x in s; Weight(costs[x]) + Total(costs, s - {x})
  }

  lemma {:induction false} TotalRemove(costs: Ledger, s: set<FStage>, x: FStage)
    requires s <= costs.Keys && x in s
    ensures Total(costs, s) == Weight(costs[x]) + Total(costs, s - {x})
    decreases s
  {
    var y :| y in s && Total(costs, s) == Weight(costs[y]) + Total(costs, s - {y});
    if x != y {
      TotalRemove(costs, s - {y}, x);
      TotalRemove(costs, s - {x}, y);
      assert s - {y} - {x} == s - {x} - {y};
    }
  }

  lemma {:induction false} TotalUnion(costs: Ledger, s: set<FStage>, t: set<FStage>)
    requires s <= costs.Keys && t <= costs.Keys && s !! t
    ensures Total(costs, s + t) == Total(costs, s) + Total(costs, t)
    decreases s
  {
    if s == {} {
      assert s + t == t;
    } else {
      var x :| x in s;
      TotalRemove(costs, s, x);
      TotalRemove(costs, s + t, x);
      assert s + t - {x} == (s - {x}) + t;
      TotalUnion(costs, s - {x}, t);
    }
  }

  lemma {:induction false} TotalSame(costs: Ledger, costs': Ledger, s: set<FStage>)
    requires s <= costs.Keys && s <= costs'.Keys
    requires forall x :: x in s ==> costs[x] == costs'[x]
    ensures Total(costs, s) == Total(costs', s)
    decreases s
  {
    if s != {} {
      var x :| x in s;
      TotalRemove(costs, s, x);
      TotalRemove(costs', s, x);
      TotalSame(costs, costs', s - {x});
    }
  }

  /** estimate_benefit for a pair of analyses. */
  function PairBenefit(m: CostModel, before: Analysis, after: Analysis, noRedundantWork: bool,
                       ensureParallelism: bool): Option<int>
  {
    if ensureParallelism && (after.parallelism.None? || after.parallelism.value < m.parallelism) then None
    else if before.cost.None? || after.cost.None? then None
    else
      var arith := before.cost.value.arith - after.cost.value.arith;
      if noRedundantWork && arith < 0 then None
      else Some(before.cost.value.memory - after.cost.value.memory + arith)
  }

  // ---- evaluating a choice ----

  function SetOf(s: seq<FStage>): set<FStage> { set x | x in s }

  function Analyze(m: CostModel, g: Group): Analysis
  {
    m.analyze(g.output, SetOf(g.members), g.inlined, g.tileSizes)
  }

  function BestFrom(m: CostModel, g: Group, configs: seq<TileSizes>, best: Config): Config
  {
    if configs == [] then best
    else
      var a := Analyze(m, g.(tileSizes := configs[0]));
      var benefit := PairBenefit(m, best.analysis, a, false, true);
      BestFrom(m, g, configs[1..], if benefit.Some? && benefit.value > 0 then Config(configs[0], a) else best)
  }

  /** find_best_tile_config */
  function BestTile(m: CostModel, g: Group): Config
  {
    var none := Config(map[], Analyze(m, g.(tileSizes := map[])));
    if none.analysis.cost.None? then none else BestFrom(m, g, m.tileConfigs(g.output), none)
  }

  lemma {:induction false} BestFromIsAnalyzed(m: CostModel, g: Group, configs: seq<TileSizes>, best: Config)
    requires best.analysis == Analyze(m, g.(tileSizes := best.tileSizes))
    ensures
      var r := BestFrom(m, g, configs, best);
      && r.analysis == Analyze(m, g.(tileSizes := r.tileSizes))
      && (best.analysis.cost.Some? ==> r.analysis.cost.Some? && Weight(r.analysis) <= Weight(best.analysis))
    decreases |configs|
  {
    if configs != [] {
      var a := Analyze(m, g.(tileSizes := configs[0]));
      var benefit := PairBenefit(m, best.analysis, a, false, true);
      BestFromIsAnalyzed(m, g, configs[1..], if benefit.Some? && benefit.value > 0 then Config(configs[0], a)
        else best);
    }
  }

  /** The analysis returned is that of the tile sizes returned, and tiling is never worse than not tiling. */
  lemma {:induction false} BestTileIsAnalyzed(m: CostModel, g: Group)
    ensures
      var r := BestTile(m, g);
      var untiled := Analyze(m, g.(tileSizes := map[]));
      && r.analysis == Analyze(m, g.(tileSizes := r.tileSizes))
      && (untiled.cost.Some? ==> r.analysis.cost.Some? && Weight(r.analysis) <= Weight(untiled))
  {
    var none := Config(map[], Analyze(m, g.(tileSizes := map[])));
    BestFromIsAnalyzed(m, g, m.tileConfigs(g.output), none);
  }

  /** Parallel enough, and with a cost. */
  predicate Usable(m: CostModel, a: Analysis) {
    a.cost.Some? && a.parallelism.Some? && a.parallelism.value >= m.parallelism
  }

  lemma {:induction false} BestFromIsBest(m: CostModel, g: Group, configs: seq<TileSizes>, best: Config)
    requires best.analysis.cost.Some?
    ensures
      var r := BestFrom(m, g, configs, best);
      && r.analysis.cost.Some? && Weight(r.analysis) <= Weight(best.analysis)
      && (r == best || (r.tileSizes in configs && Usable(m, r.analysis) && Weight(r.analysis) < Weight(best.analysis)))
      && forall t :: t in configs ==>
           var a := Analyze(m, g.(tileSizes := t)); Usable(m, a) ==> Weight(r.analysis) <= Weight(a)
    decreases |configs|
  {
    if configs != [] {
      var a := Analyze(m, g.(tileSizes := configs[0]));
      var benefit := PairBenefit(m, best.analysis, a, false, true);
      var next := if benefit.Some? && benefit.value > 0 then Config(configs[0], a) else best;
      BestFromIsBest(m, g, configs[1..], next);
      forall t | t in configs ensures t == configs[0] || t in configs[1..] {}
    }
  }

  /**
   * The best of the list: no usable tiling listed is cheaper than the one returned, which is a usable
   * tiling of the list that is cheaper than none, or none.
   */
  lemma {:induction false} BestTileIsBest(m: CostModel, g: Group)
    requires Analyze(m, g.(tileSizes := map[])).cost.Some?
    ensures
      var r, untiled := BestTile(m, g), Analyze(m, g.(tileSizes := map[]));
      && (r == Config(map[], untiled) ||
          (r.tileSizes in m.tileConfigs(g.output) && Usable(m, r.analysis) && Weight(r.analysis) < Weight(untiled)))
      && forall t :: t in m.tileConfigs(g.output) ==>
           var a := Analyze(m, g.(tileSizes := t)); Usable(m, a) ==> Weight(r.analysis) <= Weight(a)
  {
    BestFromIsBest(m, g, m.tileConfigs(g.output), Config(map[], Analyze(m, g.(tileSizes := map[]))));
  }

  /** merge_groups of two groups. */
  function MergePair(prod: Group, cons: Group): Group
  {
    Group(cons.output, prod.members + cons.members, prod.inlined + cons.inlined, map[])
  }

  /** The groups of the first k stages of f merged into acc, one after the other. */
  function MergeStages(groups: Groups, f: string, k: nat, acc: Group): Group
    requires forall s :: 0 <= s < k ==> FStage(f, s) in groups
  {
    if k == 0 then acc else MergePair(groups[FStage(f, k - 1)], MergeStages(groups, f, k - 1, acc))
  }

  function Names(members: seq<FStage>): set<string> { set x | x in members :: x.func }

  function NamesOfStages(groups: Groups, f: string, k: nat): set<string>
    requires forall s :: 0 <= s < k ==> FStage(f, s) in groups
  {
    if k == 0 then {} else NamesOfStages(groups, f, k - 1) + Names(groups[FStage(f, k - 1)].members)
  }

  function InlinedOfStages(groups: Groups, f: string, k: nat): set<string>
    requires forall s :: 0 <= s < k ==> FStage(f, s) in groups
  {
    if k == 0 then {} else InlinedOfStages(groups, f, k - 1) + groups[FStage(f, k - 1)].inlined
  }

  function MembersOfStages(groups: Groups, f: string, k: nat): seq<FStage>
    requires forall s :: 0 <= s < k ==> FStage(f, s) in groups
  {
    if k == 0 then [] else MembersOfStages(groups, f, k - 1) + groups[FStage(f, k - 1)].members
  }

  predicate Evaluable(p: Pipeline, groups: Groups, choice: Choice)
  {
    && choice.cons in groups
    && forall s :: 0 <= s < NumStages(p, choice.prod) ==> FStage(choice.prod, s) in groups
  }

  /** evaluate_choice */
  function Evaluate(p: Pipeline, m: CostModel, groups: Groups, choice: Choice, level: Level): Config
    requires Evaluable(p, groups, choice)
  {
    var n := NumStages(p, choice.prod);
    var cons := groups[choice.cons];
    var group := MergeStages(groups, choice.prod, n, cons);
    match level
    case Inline =>
      var tiles := m.unitTiles(cons.output);
      var inlined := group.inlined + NamesOfStages(groups, choice.prod, n) + cons.inlined;
      Config(tiles, Analyze(m, group.(tileSizes := tiles, inlined := inlined)))
    case FastMem => BestTile(m, group)
  }

  /** What merge_groups does to the consumer's group. */
  function Merged(p: Pipeline, groups: Groups, choice: Choice, config: Config, level: Level): Group
    requires Evaluable(p, groups, choice)
  {
    var n := NumStages(p, choice.prod);
    var g := groups[choice.cons];
    Group(g.output,
          g.members + MembersOfStages(groups, choice.prod, n),
          g.inlined + (if level.Inline? then NamesOfStages(groups, choice.prod, n)
            else InlinedOfStages(groups, choice.prod, n)),
          config.tileSizes)
  }

  // ---- the step ----

  /** The configurations of merging f into each of its consumers. */
  function Configs(p: Pipeline, m: CostModel, groups: Groups, consumers: set<FStage>, f: string,
                   level: Level): map<FStage, Config>
    requires forall c :: c in consumers ==> Evaluable(p, groups, Choice(f, c))
  {
    map c | c in consumers :: Evaluate(p, m, groups, Choice(f, c), level)
  }

  /** Merge f into its consumers, drop it, and point its producers at its consumers. */
  function Contract(p: Pipeline, st: State, f: string, consumers: set<FStage>, configs: map<FStage, Config>,
                    level: Level): State
    requires configs.Keys == consumers && consumers <= st.groups.Keys
    requires forall c :: c in consumers ==> Evaluable(p, st.groups, Choice(f, c))
  {
    State(
      map x | x in st.groups && x.func != f ::
        if x in consumers then Merged(p, st.groups, Choice(f, x), configs[x], level) else st.groups[x],
      Rewired(p, st.children, f, consumers),
      map x | x in st.costs && x.func != f :: if x in consumers then configs[x].analysis else st.costs[x],
      Invalidated(st.cache, consumers))
  }

  function Rewired(p: Pipeline, children: Children, f: string, consumers: set<FStage>): Children
  {
    map x | x in children && x.func != f ::
      if children[x] !! StagesOf(p, f) then children[x] else children[x] - StagesOf(p, f) + consumers
  }

  /** The cache without the entries that involve a changed group. */
  function Invalidated(cache: Cache, consumers: set<FStage>): Cache
  {
    map k | k in cache && !Stale(k, consumers) :: cache[k]
  }

  predicate Stale(k: Choice, consumers: set<FStage>)
  {
    exists c :: c in consumers && (k.prod == c.func || k.cons == c)
  }

  // ---- who uses whom ----

  predicate HasEdge(children: Children, x: FStage, c: FStage) { x in children && c in children[x] }

  predicate CallsFrom(p: Pipeline, y: FStage, f: string) { IsStage(p, y) && f in p.env[y.func].calls[y.stage] }

  /** Some member of the group calls the function in the original pipeline. */
  predicate Needs(p: Pipeline, g: Group, f: string) { exists y :: y in g.members && CallsFrom(p, y, f) }

  /**
   * The graph says exactly who uses whom: a stage has the next stage of its function as a child, and
   * a whole function the live stages of other functions whose groups need it; nothing else.
   */
  ghost predicate EdgeOk(p: Pipeline, groups: Groups, children: Children, x: FStage, c: FStage) {
    HasEdge(children, x, c) <==>
      && x in groups && c in groups
      && if x.func == c.func then c.stage == x.stage + 1 else x == Final(p, x.func) && Needs(p, groups[c], x.func)
  }

  ghost predicate AllEdgesOk(p: Pipeline, groups: Groups, children: Children) {
    forall x, c {:trigger EdgeOk(p, groups, children, x, c)} :: EdgeOk(p, groups, children, x, c)
  }

  function FuncsOf(stages: set<FStage>): set<string> { set c | c in stages :: c.func }

  /** The functions that `group` considers for merging. */
  predicate Candidate(p: Pipeline, groups: Groups, children: Children, level: Level, f: string)
  {
    && IsStage(p, Final(p, f))
    && Final(p, f) in groups
    && f !in p.outputs
    && Final(p, f) in children
    && if level.FastMem? then |FuncsOf(children[Final(p, f)])| == 1 else IsPure(p, f)
  }

  // ---- what every state keeps ----

  predicate Live(groups: Groups, f: string) { FStage(f, 0) in groups }

  /** Children and parents are live, functions live or die as a whole, outputs stay, no stage is lost. */
  ghost predicate Structured(p: Pipeline, groups: Groups, children: Children)
  {
    && WellFormed(p)
    && AllStagesOk(p, groups)
    && AllGroupsOk(p, groups)
    && AllCovered(p, groups)
    && AllNodesOk(p, groups, children)
    && AllEdgesOk(p, groups, children)
  }

  ghost predicate AllStagesOk(p: Pipeline, groups: Groups)
  {
    && (forall f {:trigger Live(groups, f)} :: f in p.outputs ==> Live(groups, f))
    && (forall x {:trigger StageOk(p, groups, x)} :: x in groups ==> StageOk(p, groups, x))
  }

  ghost predicate AllGroupsOk(p: Pipeline, groups: Groups)
  {
    forall x {:trigger GroupOk(p, groups, x)} :: x in groups ==> GroupOk(p, groups, x)
  }

  ghost predicate AllCovered(p: Pipeline, groups: Groups)
  {
    forall s {:trigger Covered(groups, s)} :: IsStage(p, s) ==> Covered(groups, s)
  }

  ghost predicate AllNodesOk(p: Pipeline, groups: Groups, children: Children)
  {
    forall x {:trigger NodeOk(p, groups, children, x)} :: x in children ==> NodeOk(p, groups, children, x)
  }

  /** A live stage belongs to a function all of whose stages are live. */
  ghost predicate StageOk(p: Pipeline, groups: Groups, x: FStage)
  {
    IsStage(p, x) && forall s :: 0 <= s < NumStages(p, x.func) ==> FStage(x.func, s) in groups
  }

  /** A node of the graph is live and has live successors, all after it. */
  ghost predicate NodeOk(p: Pipeline, groups: Groups, children: Children, x: FStage)
    requires x in children
  {
    && x in groups
    && children[x] != {}
    && forall c :: c in children[x] ==> c in groups && Before(p, x, c)
  }

  /** The stage is a member of some group. */
  ghost predicate Covered(groups: Groups, s: FStage) { exists x :: x in groups && s in groups[x].members }

  ghost predicate GroupOk(p: Pipeline, groups: Groups, x: FStage)
    requires x in groups
  {
    && groups[x].output == x
    && x in groups[x].members
    && (forall y :: y in groups[x].members ==> IsStage(p, y) && (y == x || !Live(groups, y.func)))
    // inlined functions are pure members that no longer have a group of their own
    && (forall f :: f in groups[x].inlined ==> IsPure(p, f) && !Live(groups, f) && f in Names(groups[x].members))
  }

  /** While inlining, everything merged so far is pure. */
  ghost predicate OnlyPureMerged(p: Pipeline, groups: Groups)
  {
    forall x {:trigger PureMembers(p, groups, x)} :: x in groups ==> PureMembers(p, groups, x)
  }

  ghost predicate PureMembers(p: Pipeline, groups: Groups, x: FStage)
    requires x in groups
  {
    forall y :: y in groups[x].members && y != x ==> IsPure(p, y.func)
  }

  /** The ledger holds, for each group and nothing else, what analysing that group gives. */
  ghost predicate LedgerOk(m: CostModel, groups: Groups, costs: Ledger)
  {
    && costs.Keys == groups.Keys
    && forall x {:trigger Recorded(m, groups, costs, x)} :: x in groups ==> Recorded(m, groups, costs, x)
  }

  ghost predicate Recorded(m: CostModel, groups: Groups, costs: Ledger, x: FStage)
    requires x in groups && x in costs
  {
    costs[x] == Analyze(m, groups[x])
  }

  /** Every cache entry about live groups is what evaluating it now would give. */
  ghost predicate CacheOk(p: Pipeline, m: CostModel, groups: Groups, cache: Cache, level: Level)
  {
    forall k {:trigger Fresh(p, m, groups, cache, level, k)} :: k in cache ==> Fresh(p, m, groups, cache, level, k)
  }

  ghost predicate Fresh(p: Pipeline, m: CostModel, groups: Groups, cache: Cache, level: Level, k: Choice)
    requires k in cache
  {
    Evaluable(p, groups, k) ==> cache[k] == Evaluate(p, m, groups, k, level)
  }

  ghost predicate Inv(p: Pipeline, m: CostModel, st: State, level: Level)
  {
    && Structured(p, st.groups, st.children)
    && (level.Inline? ==> OnlyPureMerged(p, st.groups))
    && LedgerOk(m, st.groups, st.costs)
    && CacheOk(p, m, st.groups, st.cache, level)
  }

  // ---- consequences of the structure ----

  lemma {:induction false} StagesAreLive(p: Pipeline, st: State, f: string)
    requires Structured(p, st.groups, st.children) && Final(p, f) in st.groups
    ensures f in p.env && IsStage(p, Final(p, f)) && Live(st.groups, f)
    ensures forall s :: 0 <= s < NumStages(p, f) ==> FStage(f, s) in st.groups
    ensures StagesOf(p, f) <= st.groups.Keys
  {
    assert StageOk(p, st.groups, Final(p, f));
  }

  /** The consumers of a candidate are live stages of other functions, so merging into them is possible. */
  lemma {:induction false} ConsumersAreOthers(p: Pipeline, st: State, f: string)
    requires Structured(p, st.groups, st.children)
    requires Final(p, f) in st.children
    ensures Final(p, f) in st.groups
    ensures
      var consumers := st.children[Final(p, f)];
      && consumers <= st.groups.Keys
      && consumers != {}
      && (forall c :: c in consumers ==> c.func != f && Evaluable(p, st.groups, Choice(f, c)))
  {
    assert NodeOk(p, st.groups, st.children, Final(p, f));
    StagesAreLive(p, st, f);
    forall c | c in st.children[Final(p, f)]
      ensures c.func != f
    {
      assert StageOk(p, st.groups, c);
    }
  }

  /** The other functions with a live stage whose group needs f. */
  ghost function Users(p: Pipeline, groups: Groups, f: string): set<string> {
    set c | c in groups && c.func != f && Needs(p, groups[c], f) :: c.func
  }

  /**
   * Who may be merged, from the pipeline and the groups alone: a live function that is no output and
   * is used, by exactly one function for fast memory, and pure for inlining.
   */
  lemma {:induction false} CandidateIff(p: Pipeline, groups: Groups, children: Children, level: Level, f: string)
    requires Structured(p, groups, children)
    ensures Candidate(p, groups, children, level, f) <==>
      && Live(groups, f) && f !in p.outputs && Users(p, groups, f) != {}
      && if level.FastMem? then |Users(p, groups, f)| == 1 else IsPure(p, f)
  {
    var x := Final(p, f);
    assert x in groups ==> StageOk(p, groups, x);
    if FStage(f, 0) in groups {
      assert StageOk(p, groups, FStage(f, 0));
      assert IsStage(p, x) && x in groups;
      forall c ensures HasEdge(children, x, c) <==> c in groups && c.func != f && Needs(p, groups[c], f) {
        assert EdgeOk(p, groups, children, x, c);
        if c in groups { assert StageOk(p, groups, c); }
      }
      if x in children {
        assert NodeOk(p, groups, children, x);
        var c :| c in children[x];
        SameUsers(p, groups, children, f);
        assert c.func in FuncsOf(children[x]);
        assert Users(p, groups, f) != {};
      } else {
        forall g ensures g !in Users(p, groups, f) {
          assert forall c :: c in groups && c.func != f && Needs(p, groups[c], f) ==> HasEdge(children, x, c);
        }
        assert Users(p, groups, f) == {};
      }
    }
  }

  lemma {:induction false} SameUsers(p: Pipeline, groups: Groups, children: Children, f: string)
    requires Final(p, f) in children
    requires forall c :: HasEdge(children, Final(p, f), c) <==> c in groups && c.func != f && Needs(p, groups[c], f)
    ensures FuncsOf(children[Final(p, f)]) == Users(p, groups, f)
  {
    var a, b := FuncsOf(children[Final(p, f)]), Users(p, groups, f);
    forall g | g in a ensures g in b {
      var c :| c in children[Final(p, f)] && c.func == g;
      assert HasEdge(children, Final(p, f), c);
    }
    forall g | g in b ensures g in a {
      var c :| c in groups && c.func == g && c.func != f && Needs(p, groups[c], f);
      assert HasEdge(children, Final(p, f), c);
    }
  }

  // ---- the merged group is the evaluated group ----

  lemma {:induction false} MergeStagesContents(groups: Groups, f: string, k: nat, acc: Group)
    requires forall s :: 0 <= s < k ==> FStage(f, s) in groups
    ensures
      var g := MergeStages(groups, f, k, acc);
      && g.output == acc.output
      && SetOf(g.members) == SetOf(acc.members) + SetOf(MembersOfStages(groups, f, k))
      && g.inlined == acc.inlined + InlinedOfStages(groups, f, k)
  {
    if k > 0 {
      MergeStagesContents(groups, f, k - 1, acc);
      var prod, rest := groups[FStage(f, k - 1)], MergeStages(groups, f, k - 1, acc);
      SetOfConcat(prod.members, rest.members);
      SetOfConcat(MembersOfStages(groups, f, k - 1), prod.members);
    }
  }

  lemma {:induction false} SetOfConcat(s: seq<FStage>, t: seq<FStage>)
    ensures SetOf(s + t) == SetOf(s) + SetOf(t)
  {
  }

  /** When inlined functions are members, inlining the members covers them. */
  lemma {:induction false} InlinedAreNamed(p: Pipeline, groups: Groups, f: string, k: nat)
    requires forall s :: 0 <= s < k ==> FStage(f, s) in groups
    requires AllGroupsOk(p, groups)
    ensures InlinedOfStages(groups, f, k) <= NamesOfStages(groups, f, k)
  {
    if k > 0 {
      InlinedAreNamed(p, groups, f, k - 1);
      assert GroupOk(p, groups, FStage(f, k - 1));
    }
  }

  /**
   * Recording the evaluation instead of analysing the merged group again is sound: the group that
   * merge_groups builds has the same output, members, inlined functions and tile sizes as the one
   * that evaluate_choice analysed.
   */
  lemma {:induction false} MergedIsAsEvaluated(p: Pipeline, m: CostModel, groups: Groups, choice: Choice, level: Level)
    requires Evaluable(p, groups, choice)
    requires AllGroupsOk(p, groups)
    ensures
      var config := Evaluate(p, m, groups, choice, level);
      config.analysis == Analyze(m, Merged(p, groups, choice, config, level))
  {
    var n := NumStages(p, choice.prod);
    var cons := groups[choice.cons];
    var group := MergeStages(groups, choice.prod, n, cons);
    var config := Evaluate(p, m, groups, choice, level);
    var merged := Merged(p, groups, choice, config, level);
    MergeStagesContents(groups, choice.prod, n, cons);
    SetOfConcat(cons.members, MembersOfStages(groups, choice.prod, n));
    assert SetOf(merged.members) == SetOf(group.members);
    if level.Inline? {
      InlinedAreNamed(p, groups, choice.prod, n);
      assert merged.inlined == group.inlined + NamesOfStages(groups, choice.prod, n) + cons.inlined;
    } else {
      BestTileIsAnalyzed(m, group);
    }
  }

  // ---- every step keeps the invariant ----

  /** st' is st with f merged into its consumers, whatever configurations the merge uses. */
  ghost predicate Contracted(p: Pipeline, st: State, f: string, level: Level, configs: map<FStage, Config>, st': State)
  {
    && Structured(p, st.groups, st.children)
    && (level.Inline? ==> OnlyPureMerged(p, st.groups))
    && Candidate(p, st.groups, st.children, level, f)
    && configs.Keys == st.children[Final(p, f)]
    && (ConsumersAreOthers(p, st, f);
        st' == Contract(p, st, f, st.children[Final(p, f)], configs, level))
  }

  /** The evaluations of merging f into each of its current consumers. */
  ghost function ConfigsOf(p: Pipeline, m: CostModel, st: State, f: string,
                           level: Level): (configs: map<FStage, Config>)
    requires Structured(p, st.groups, st.children) && Final(p, f) in st.children
    ensures configs.Keys == st.children[Final(p, f)]
  {
    ConsumersAreOthers(p, st, f);
    Configs(p, m, st.groups, st.children[Final(p, f)], f, level)
  }

  /** A step of `group`: a candidate is contracted with the evaluated configurations. */
  ghost predicate Step(p: Pipeline, m: CostModel, st: State, f: string, level: Level, st': State)
  {
    && Inv(p, m, st, level)
    && Candidate(p, st.groups, st.children, level, f)
    && Contracted(p, st, f, level, ConfigsOf(p, m, st, f, level), st')
  }

  lemma {:induction false} MembersOfStagesOk(groups: Groups, f: string, k: nat, y: FStage)
    requires forall s :: 0 <= s < k ==> FStage(f, s) in groups
    ensures y in MembersOfStages(groups, f, k) ==> exists s :: 0 <= s < k && y in groups[FStage(f, s)].members
  {
    if k > 0 { MembersOfStagesOk(groups, f, k - 1, y); }
  }

  lemma {:induction false} MemberIsCollected(groups: Groups, f: string, k: nat, x: FStage, y: FStage)
    requires forall s :: 0 <= s < k ==> FStage(f, s) in groups
    requires x.func == f && x.stage < k && y in groups[FStage(f, x.stage)].members
    ensures y in MembersOfStages(groups, f, k)
  {
    if x.stage < k - 1 { MemberIsCollected(groups, f, k - 1, x, y); }
  }

  lemma {:induction false} NameHasMember(groups: Groups, f: string, k: nat, g: string) returns (z: FStage)
    requires forall s :: 0 <= s < k ==> FStage(f, s) in groups
    requires g in NamesOfStages(groups, f, k)
    ensures z in MembersOfStages(groups, f, k) && z.func == g
  {
    if g in NamesOfStages(groups, f, k - 1) {
      z := NameHasMember(groups, f, k - 1, g);
    } else {
      z :| z in groups[FStage(f, k - 1)].members && z.func == g;
    }
  }

  lemma {:induction false} InlinedHasStage(groups: Groups, f: string, k: nat, g: string) returns (s: nat)
    requires forall s :: 0 <= s < k ==> FStage(f, s) in groups
    requires g in InlinedOfStages(groups, f, k)
    ensures s < k && g in groups[FStage(f, s)].inlined
  {
    if g in InlinedOfStages(groups, f, k - 1) { s := InlinedHasStage(groups, f, k - 1, g); } else { s := k - 1; }
  }

  lemma {:induction false} LiveAfter(p: Pipeline, st: State, f: string, level: Level, configs: map<FStage, Config>,
                                     st': State)
    requires Contracted(p, st, f, level, configs, st')
    ensures forall x :: x in st'.groups <==> x in st.groups && x.func != f
    ensures forall g {:trigger Live(st'.groups, g)} :: Live(st'.groups, g) <==> Live(st.groups, g) && g != f
    ensures st'.groups.Keys == st.groups.Keys - StagesOf(p, f)
    ensures Live(st.groups, f)
  {
    StagesAreLive(p, st, f);
    forall x | x in st.groups && x.func == f ensures x in StagesOf(p, f) { assert StageOk(p, st.groups, x); }
  }

  lemma {:induction false} StepKeepsGroup(p: Pipeline, st: State, f: string, level: Level,
                                          configs: map<FStage, Config>, st': State, x: FStage)
    requires Contracted(p, st, f, level, configs, st') && x in st'.groups
    ensures GroupOk(p, st'.groups, x)
  {
    LiveAfter(p, st, f, level, configs, st');
    assert GroupOk(p, st.groups, x);
    if x in st.children[Final(p, f)] {
      MergedGroupOk(p, st, f, level, configs, st', x);
    }
  }

  lemma {:induction false} MergedGroupOk(p: Pipeline, st: State, f: string, level: Level,
                                         configs: map<FStage, Config>, st': State, x: FStage)
    requires Contracted(p, st, f, level, configs, st') && x in st'.groups && x in st.children[Final(p, f)]
    ensures GroupOk(p, st'.groups, x)
  {
    LiveAfter(p, st, f, level, configs, st');
    ConsumersAreOthers(p, st, f);
    var n := NumStages(p, f);
    var was, now := st.groups[x], st'.groups[x];
    assert GroupOk(p, st.groups, x);
    assert now.members == was.members + MembersOfStages(st.groups, f, n);
    forall y | y in now.members
      ensures IsStage(p, y) && (y == x || !Live(st'.groups, y.func))
    {
      if y !in was.members { MemberGainOk(p, st, f, level, configs, st', y); }
    }
    forall g | g in now.inlined
      ensures IsPure(p, g) && !Live(st'.groups, g) && g in Names(now.members)
    {
      if g in was.inlined {
        assert g in Names(was.members);
      } else {
        InlinedGainOk(p, st, f, level, configs, st', x, g);
      }
    }
  }

  /** What comes with the producer is dead afterwards. */
  lemma {:induction false} MemberGainOk(p: Pipeline, st: State, f: string, level: Level, configs: map<FStage, Config>,
                                        st': State, y: FStage)
    requires Contracted(p, st, f, level, configs, st')
    requires forall s :: 0 <= s < NumStages(p, f) ==> FStage(f, s) in st.groups
    requires y in MembersOfStages(st.groups, f, NumStages(p, f))
    ensures IsStage(p, y) && !Live(st'.groups, y.func)
    ensures level.Inline? ==> IsPure(p, y.func)
  {
    StagesAreLive(p, st, f);
    LiveAfter(p, st, f, level, configs, st');
    MembersOfStagesOk(st.groups, f, NumStages(p, f), y);
    var s :| 0 <= s < NumStages(p, f) && y in st.groups[FStage(f, s)].members;
    assert GroupOk(p, st.groups, FStage(f, s));
    if level.Inline? { assert PureMembers(p, st.groups, FStage(f, s)); }
  }

  lemma {:induction false} InlinedGainOk(p: Pipeline, st: State, f: string, level: Level,
                                         configs: map<FStage, Config>, st': State, x: FStage, g: string)
    requires Contracted(p, st, f, level, configs, st') && x in st'.groups && x in st.children[Final(p, f)]
    requires g in st'.groups[x].inlined && g !in st.groups[x].inlined
    ensures IsPure(p, g) && !Live(st'.groups, g) && g in Names(st'.groups[x].members)
  {
    StagesAreLive(p, st, f);
    ConsumersAreOthers(p, st, f);
    var n := NumStages(p, f);
    if level.FastMem? {
      InlinedAreNamed(p, st.groups, f, n);
      var s := InlinedHasStage(st.groups, f, n, g);
      assert GroupOk(p, st.groups, FStage(f, s));
    }
    assert g in NamesOfStages(st.groups, f, n);
    var z := NameHasMember(st.groups, f, n, g);
    assert z in st'.groups[x].members;
    MemberGainOk(p, st, f, level, configs, st', z);
  }

  lemma {:induction false} NoStageIsLost(p: Pipeline, st: State, f: string, level: Level,
                                         configs: map<FStage, Config>, st': State, y: FStage)
    requires Contracted(p, st, f, level, configs, st') && IsStage(p, y)
    ensures Covered(st'.groups, y)
  {
    assert Covered(st.groups, y);
    var x :| x in st.groups && y in st.groups[x].members;
    if x.func == f {
      var c := Successor(p, st, f, level, configs, st', x, y);
      assert y in st'.groups[c].members;
    } else {
      assert y in st'.groups[x].members;
    }
  }

  lemma {:induction false} Successor(p: Pipeline, st: State, f: string, level: Level, configs: map<FStage, Config>,
                                     st': State, x: FStage, y: FStage)
    returns (c: FStage)
    requires Contracted(p, st, f, level, configs, st') && x in st.groups && x.func == f && y in st.groups[x].members
    ensures c in st'.groups && y in st'.groups[c].members
  {
    ConsumersAreOthers(p, st, f);
    c :| c in st.children[Final(p, f)];
    StagesAreLive(p, st, f);
    assert StageOk(p, st.groups, x);
    MemberIsCollected(st.groups, f, NumStages(p, f), x, y);
  }

  lemma {:induction false} StepKeepsNode(p: Pipeline, st: State, f: string, level: Level,
                                         configs: map<FStage, Config>, st': State, x: FStage)
    requires Contracted(p, st, f, level, configs, st') && x in st'.children
    ensures NodeOk(p, st'.groups, st'.children, x)
  {
    LiveAfter(p, st, f, level, configs, st');
    ConsumersAreOthers(p, st, f);
    var consumers := st.children[Final(p, f)];
    var was, now := st.children[x], st'.children[x];
    assert NodeOk(p, st.groups, st.children, x);
    assert NodeOk(p, st.groups, st.children, Final(p, f));
    forall c | c in now
      ensures c in st'.groups && Before(p, x, c)
    {
      if c in was {
        assert StageOk(p, st.groups, c);
      } else {
        var y :| y in was && y in StagesOf(p, f);
      }
    }
  }

  lemma {:induction false} StepKeepsStages(p: Pipeline, st: State, f: string, level: Level,
                                           configs: map<FStage, Config>, st': State)
    requires Contracted(p, st, f, level, configs, st')
    ensures AllStagesOk(p, st'.groups)
  {
    LiveAfter(p, st, f, level, configs, st');
    forall x | x in st'.groups ensures StageOk(p, st'.groups, x) { assert StageOk(p, st.groups, x); }
  }

  lemma {:induction false} StepKeepsGroups(p: Pipeline, st: State, f: string, level: Level,
                                           configs: map<FStage, Config>, st': State)
    requires Contracted(p, st, f, level, configs, st')
    ensures AllGroupsOk(p, st'.groups)
  {
    forall x | x in st'.groups ensures GroupOk(p, st'.groups, x) { StepKeepsGroup(p, st, f, level, configs, st', x); }
  }

  lemma {:induction false} StepKeepsCover(p: Pipeline, st: State, f: string, level: Level,
                                          configs: map<FStage, Config>, st': State)
    requires Contracted(p, st, f, level, configs, st')
    ensures AllCovered(p, st'.groups)
  {
    forall y | IsStage(p, y) ensures Covered(st'.groups, y) { NoStageIsLost(p, st, f, level, configs, st', y); }
  }

  lemma {:induction false} StepKeepsGraph(p: Pipeline, st: State, f: string, level: Level,
                                          configs: map<FStage, Config>, st': State)
    requires Contracted(p, st, f, level, configs, st')
    ensures AllNodesOk(p, st'.groups, st'.children)
  {
    forall x | x in st'.children
      ensures NodeOk(p, st'.groups, st'.children, x)
    {
      StepKeepsNode(p, st, f, level, configs, st', x);
    }
  }

  /** What a merged group needs: what its own members or those of the producer need. */
  lemma {:induction false} MergedNeeds(p: Pipeline, st: State, f: string, level: Level, configs: map<FStage, Config>,
                                       st': State, c: FStage, g: string)
    requires Contracted(p, st, f, level, configs, st') && c in st'.groups && c in st.children[Final(p, f)]
    ensures Needs(p, st'.groups[c], g) <==>
      Needs(p, st.groups[c], g) || exists s :: s in st.groups && s.func == f && Needs(p, st.groups[s], g)
  {
    ConsumersAreOthers(p, st, f);
    StagesAreLive(p, st, f);
    var n := NumStages(p, f);
    var was, now, came := st.groups[c], st'.groups[c], MembersOfStages(st.groups, f, n);
    assert now.members == was.members + came;
    if y :| y in now.members && CallsFrom(p, y, g) {
      if y !in was.members {
        MembersOfStagesOk(st.groups, f, n, y);
        var s :| 0 <= s < n && y in st.groups[FStage(f, s)].members;
        assert Needs(p, st.groups[FStage(f, s)], g);
      } else {
        assert Needs(p, was, g);
      }
    }
    if Needs(p, was, g) {
      var y :| y in was.members && CallsFrom(p, y, g);
      assert y in now.members;
    }
    if s :| s in st.groups && s.func == f && Needs(p, st.groups[s], g) {
      var y :| y in st.groups[s].members && CallsFrom(p, y, g);
      assert StageOk(p, st.groups, s);
      MemberIsCollected(st.groups, f, n, s, y);
      assert y in now.members;
    }
  }

  lemma {:induction false} StepKeepsEdge(p: Pipeline, st: State, f: string, level: Level, configs: map<FStage, Config>,
                                         st': State, x: FStage, c: FStage)
    requires Contracted(p, st, f, level, configs, st')
    ensures EdgeOk(p, st'.groups, st'.children, x, c)
  {
    LiveAfter(p, st, f, level, configs, st');
    ConsumersAreOthers(p, st, f);
    StagesAreLive(p, st, f);
    assert EdgeOk(p, st.groups, st.children, x, c);
    if x in st.children { assert NodeOk(p, st.groups, st.children, x); }
    if x.func == f || c.func == f {
      GoneEdge(p, st, f, level, configs, st', x, c);
    } else if x.func == c.func {
      NextStageEdge(p, st, f, level, configs, st', x, c);
    } else if c !in st.children[Final(p, f)] {
      assert HasEdge(st'.children, x, c) <==> HasEdge(st.children, x, c);
    } else {
      ConsumerEdge(p, st, f, level, configs, st', x, c);
    }
  }

  /** No edge starts or ends at the producer any more. */
  lemma {:induction false} GoneEdge(p: Pipeline, st: State, f: string, level: Level, configs: map<FStage, Config>,
                                    st': State, x: FStage, c: FStage)
    requires Contracted(p, st, f, level, configs, st') && (x.func == f || c.func == f)
    ensures EdgeOk(p, st'.groups, st'.children, x, c)
  {
    LiveAfter(p, st, f, level, configs, st');
    ConsumersAreOthers(p, st, f);
    if x.func != f && x in st.children && c in st.children[x] {
      assert NodeOk(p, st.groups, st.children, x);
      assert StageOk(p, st.groups, c);
    }
  }

  /** A function that feeds the producer is not one of its consumers. */
  lemma {:induction false} NextStageEdge(p: Pipeline, st: State, f: string, level: Level, configs: map<FStage, Config>,
                                         st': State, x: FStage, c: FStage)
    requires Contracted(p, st, f, level, configs, st') && x.func == c.func != f
    ensures EdgeOk(p, st'.groups, st'.children, x, c)
  {
    LiveAfter(p, st, f, level, configs, st');
    ConsumersAreOthers(p, st, f);
    assert EdgeOk(p, st.groups, st.children, x, c);
    if x in st.children && !(st.children[x] !! StagesOf(p, f)) {
      var y :| y in st.children[x] && y in StagesOf(p, f);
      assert NodeOk(p, st.groups, st.children, x);
      assert NodeOk(p, st.groups, st.children, Final(p, f));
      assert c in st.children[Final(p, f)] ==> Before(p, Final(p, f), c);
    }
  }

  lemma {:induction false} ConsumerEdge(p: Pipeline, st: State, f: string, level: Level, configs: map<FStage, Config>,
                                        st': State, x: FStage, c: FStage)
    requires Contracted(p, st, f, level, configs, st') && x.func != f && x.func != c.func
    requires c.func != f && c in st.children[Final(p, f)]
    ensures EdgeOk(p, st'.groups, st'.children, x, c)
  {
    LiveAfter(p, st, f, level, configs, st');
    ConsumersAreOthers(p, st, f);
    StagesAreLive(p, st, f);
    MergedNeeds(p, st, f, level, configs, st', c, x.func);
    assert EdgeOk(p, st.groups, st.children, x, c);
    if x in st.children && !(st.children[x] !! StagesOf(p, f)) {
      var y :| y in st.children[x] && y in StagesOf(p, f);
      assert EdgeOk(p, st.groups, st.children, x, y);
      assert HasEdge(st.children, x, y) && HasEdge(st'.children, x, c);
    } else {
      assert HasEdge(st'.children, x, c) <==> HasEdge(st.children, x, c);
      if x in st.groups && x == Final(p, x.func) {
        forall s | s in st.groups && s.func == f ensures !Needs(p, st.groups[s], x.func) {
          assert EdgeOk(p, st.groups, st.children, x, s);
          assert StageOk(p, st.groups, s);
        }
      }
    }
  }

  /** Liveness of children, functions and outputs, coverage and the inlined sets survive every contraction. */
  lemma {:induction false} StepKeepsStructure(p: Pipeline, st: State, f: string, level: Level,
                                              configs: map<FStage, Config>, st': State)
    requires Contracted(p, st, f, level, configs, st')
    ensures Structured(p, st'.groups, st'.children)
  {
    StepKeepsStages(p, st, f, level, configs, st');
    StepKeepsGroups(p, st, f, level, configs, st');
    StepKeepsCover(p, st, f, level, configs, st');
    StepKeepsGraph(p, st, f, level, configs, st');
    forall x, c ensures EdgeOk(p, st'.groups, st'.children, x, c) {
      StepKeepsEdge(p, st, f, level, configs, st', x, c);
    }
  }

  lemma {:induction false} StepKeepsPurity(p: Pipeline, st: State, f: string, configs: map<FStage, Config>, st': State)
    requires Contracted(p, st, f, Inline, configs, st')
    ensures OnlyPureMerged(p, st'.groups)
  {
    ConsumersAreOthers(p, st, f);
    forall x | x in st'.groups
      ensures PureMembers(p, st'.groups, x)
    {
      assert PureMembers(p, st.groups, x);
      forall y | y in st'.groups[x].members && y != x
        ensures IsPure(p, y.func)
      {
        if y !in st.groups[x].members { MemberGainOk(p, st, f, Inline, configs, st', y); }
      }
    }
  }

  /** After a step the ledger still holds the true analysis of every group. */
  lemma {:induction false} StepKeepsLedger(p: Pipeline, m: CostModel, st: State, f: string, level: Level, st': State)
    requires Step(p, m, st, f, level, st')
    ensures LedgerOk(m, st'.groups, st'.costs)
  {
    ConsumersAreOthers(p, st, f);
    forall x | x in st'.groups
      ensures Recorded(m, st'.groups, st'.costs, x)
    {
      assert Recorded(m, st.groups, st.costs, x);
      if x in st.children[Final(p, f)] { MergedIsAsEvaluated(p, m, st.groups, Choice(f, x), level); }
    }
  }

  lemma {:induction false} EvaluateFrame(p: Pipeline, m: CostModel, groups: Groups, groups': Groups, k: Choice,
                                         level: Level)
    requires Evaluable(p, groups, k) && Evaluable(p, groups', k)
    requires groups[k.cons] == groups'[k.cons]
    requires forall s :: 0 <= s < NumStages(p, k.prod) ==> groups[FStage(k.prod, s)] == groups'[FStage(k.prod, s)]
    ensures Evaluate(p, m, groups, k, level) == Evaluate(p, m, groups', k, level)
  {
    StagesFrame(groups, groups', k.prod, NumStages(p, k.prod), groups[k.cons]);
  }

  lemma {:induction false} StagesFrame(groups: Groups, groups': Groups, f: string, k: nat, acc: Group)
    requires forall s :: 0 <= s < k ==> FStage(f, s) in groups && FStage(f, s) in groups'
    requires forall s :: 0 <= s < k ==> groups[FStage(f, s)] == groups'[FStage(f, s)]
    ensures MergeStages(groups, f, k, acc) == MergeStages(groups', f, k, acc)
    ensures NamesOfStages(groups, f, k) == NamesOfStages(groups', f, k)
  {
    if k > 0 { StagesFrame(groups, groups', f, k - 1, acc); }
  }

  /** The entries that survive the selective invalidation are still right. */
  lemma {:induction false} StepKeepsCache(p: Pipeline, m: CostModel, st: State, f: string, level: Level, st': State)
    requires Step(p, m, st, f, level, st')
    ensures CacheOk(p, m, st'.groups, st'.cache, level)
  {
    ConsumersAreOthers(p, st, f);
    var consumers := st.children[Final(p, f)];
    forall k | k in st'.cache && Evaluable(p, st'.groups, k)
      ensures Fresh(p, m, st'.groups, st'.cache, level, k)
    {
      assert Fresh(p, m, st.groups, st.cache, level, k);
      assert !Stale(k, consumers);
      forall s | 0 <= s < NumStages(p, k.prod)
        ensures FStage(k.prod, s) in st.groups && st.groups[FStage(k.prod, s)] == st'.groups[FStage(k.prod, s)]
      {
        assert FStage(k.prod, s) in st'.groups;
        assert FStage(k.prod, s) !in consumers;
      }
      assert k.cons in st.groups && k.cons !in consumers;
      EvaluateFrame(p, m, st.groups, st'.groups, k, level);
    }
  }

  /** The whole invariant, for every step at either level. */
  lemma {:induction false} StepKeepsInv(p: Pipeline, m: CostModel, st: State, f: string, level: Level, st': State)
    requires Step(p, m, st, f, level, st')
    ensures Inv(p, m, st', level)
  {
    StepKeepsStructure(p, st, f, level, ConfigsOf(p, m, st, f, level), st');
    StepKeepsLedger(p, m, st, f, level, st');
    StepKeepsCache(p, m, st, f, level, st');
    if level.Inline? { StepKeepsPurity(p, st, f, ConfigsOf(p, m, st, f, level), st'); }
  }

  // ---- the cost accounting ----

  /** The groups whose cost a merge of f replaces. */
  function Replaced(p: Pipeline, f: string, consumers: set<FStage>): set<FStage>
  {
    StagesOf(p, f) + consumers
  }

  function Analyses(configs: map<FStage, Config>): Ledger { map c | c in configs :: configs[c].analysis }

  /** estimate_benefit of merging f into all its consumers. */
  ghost function Benefit(p: Pipeline, m: CostModel, costs: Ledger, f: string, configs: map<FStage, Config>): Option<int>
    requires Replaced(p, f, configs.Keys) <= costs.Keys
  {
    if && (forall c :: c in configs ==>
      Defined(configs[c].analysis) && configs[c].analysis.parallelism.value >= m.parallelism)
       && (forall x :: x in Replaced(p, f, configs.Keys) ==> Defined(costs[x]))
       && INT64_MAX >= m.parallelism
    then Some(Total(costs, Replaced(p, f, configs.Keys)) - Total(Analyses(configs), configs.Keys))
    else None
  }

  lemma {:induction false} TotalAfter(costs: Ledger, costs': Ledger, gone: set<FStage>, configs: map<FStage, Config>)
    requires gone <= costs.Keys && configs.Keys <= costs.Keys && gone !! configs.Keys
    requires costs'.Keys == costs.Keys - gone
    requires forall x :: x in costs' ==> costs'[x] == if x in configs then configs[x].analysis else costs[x]
    ensures Total(costs', costs'.Keys)
         == Total(costs, costs.Keys) - (Total(costs, gone + configs.Keys) - Total(Analyses(configs), configs.Keys))
  {
    var replaced := gone + configs.Keys;
    var rest := costs.Keys - replaced;
    assert costs.Keys == replaced + rest;
    TotalUnion(costs, replaced, rest);
    assert costs'.Keys == configs.Keys + rest;
    TotalUnion(costs', configs.Keys, rest);
    TotalSame(costs, costs', rest);
    TotalSame(Analyses(configs), costs', configs.Keys);
  }

  /** A step changes the total cost of the pipeline by exactly the estimated benefit. */
  lemma {:induction false} StepCost(p: Pipeline, m: CostModel, st: State, f: string, level: Level, st': State)
    requires Step(p, m, st, f, level, st')
    ensures
      var configs := ConfigsOf(p, m, st, f, level);
      && Replaced(p, f, configs.Keys) <= st.costs.Keys
      && var benefit := Benefit(p, m, st.costs, f, configs);
         benefit.Some? ==> Total(st'.costs, st'.costs.Keys) == Total(st.costs, st.costs.Keys) - benefit.value
  {
    ConsumersAreOthers(p, st, f);
    StagesAreLive(p, st, f);
    LiveAfter(p, st, f, level, ConfigsOf(p, m, st, f, level), st');
    StepKeepsLedger(p, m, st, f, level, st');
    TotalAfter(st.costs, st'.costs, StagesOf(p, f), ConfigsOf(p, m, st, f, level));
  }

  /** A step removes the producer's groups and adds none. */
  lemma {:induction false} StepShrinks(p: Pipeline, m: CostModel, st: State, f: string, level: Level, st': State)
    requires Step(p, m, st, f, level, st')
    ensures st'.groups.Keys < st.groups.Keys
  {
    LiveAfter(p, st, f, level, ConfigsOf(p, m, st, f, level), st');
    assert Final(p, f) in st.groups && Final(p, f) !in st'.groups;
  }
}
