/**
 * The grouping algorithm itself: src/AutoSchedule.cpp, struct Partitioner, with its maps
 * changed in place.  Each method is tied to the functions of module Grouping; the loop of
 * RunGrouping keeps the whole invariant, pays for every merge out of the cost ledger and
 * ends when no candidate is worth merging.
 */
module Partitioning {
  import opened Wrappers
  import opened Grouping

  // ---- the initial graph ----

  function Singleton(x: FStage): Group { Group(x, [x], {}, map[]) }

  predicate NoEmptySets(children: Children) { forall x :: x in children ==> children[x] != {} }

  function AddEdge(children: Children, x: FStage, c: FStage): (r: Children)
    ensures forall a, b :: HasEdge(r, a, b) <==> HasEdge(children, a, b) || (a == x && b == c)
    ensures NoEmptySets(children) ==> NoEmptySets(r)
  {
    var r := children[x := (if x in children then children[x] else {}) + {c}];
    assert forall a :: a in r <==> a == x || a in children;
    r
  }

  /** c uses what x computes: it calls x's function, or is the next stage of it. */
  predicate Feeds(p: Pipeline, x: FStage, c: FStage)
  {
    && IsStage(p, c) && IsStage(p, x)
    && if x.func == c.func then c.stage == x.stage + 1
       else x.stage == NumStages(p, x.func) - 1 && x.func in p.env[c.func].calls[c.stage]
  }

  ghost predicate IsInitial(p: Pipeline, groups: Groups, children: Children)
  {
    && WellFormed(p)
    && (forall x :: x in groups <==> IsStage(p, x))
    && (forall x :: x in groups ==> groups[x] == Singleton(x))
    && (forall a, b :: HasEdge(children, a, b) <==> Feeds(p, a, b))
    && NoEmptySets(children)
  }

  lemma {:induction false} InitialStagesOk(p: Pipeline, groups: Groups)
    requires WellFormed(p)
    requires forall x :: x in groups <==> IsStage(p, x)
    requires forall x :: x in groups ==> groups[x] == Singleton(x)
    ensures AllStagesOk(p, groups) && AllCovered(p, groups)
  {
    forall f | f in p.outputs ensures Live(groups, f) { assert FuncOk(p, f); }
    forall x | x in groups ensures StageOk(p, groups, x) { }
    forall s | IsStage(p, s) ensures Covered(groups, s) { assert s in groups && s in groups[s].members; }
  }

  lemma {:induction false} InitialGroupsOk(p: Pipeline, groups: Groups, children: Children)
    requires IsInitial(p, groups, children)
    ensures AllGroupsOk(p, groups) && OnlyPureMerged(p, groups)
  {
    forall x | x in groups ensures GroupOk(p, groups, x) && PureMembers(p, groups, x) { }
  }

  lemma {:induction false} InitialNodeOk(p: Pipeline, groups: Groups, children: Children, x: FStage)
    requires IsInitial(p, groups, children) && x in children
    ensures NodeOk(p, groups, children, x)
  {
    var c0 :| c0 in children[x];
    assert HasEdge(children, x, c0);
    forall c | c in children[x]
      ensures c in groups && Before(p, x, c)
    {
      assert HasEdge(children, x, c);
      assert FuncOk(p, c.func);
    }
  }

  lemma {:induction false} InitialStateIsStructured(p: Pipeline, groups: Groups, children: Children)
    requires IsInitial(p, groups, children)
    ensures Structured(p, groups, children) && OnlyPureMerged(p, groups)
  {
    InitialStagesOk(p, groups);
    InitialGroupsOk(p, groups, children);
    forall x | x in children ensures NodeOk(p, groups, children, x) { InitialNodeOk(p, groups, children, x); }
    forall x, c ensures EdgeOk(p, groups, children, x, c) { InitialEdgeOk(p, groups, children, x, c); }
  }

  lemma {:induction false} InitialEdgeOk(p: Pipeline, groups: Groups, children: Children, x: FStage, c: FStage)
    requires IsInitial(p, groups, children)
    ensures EdgeOk(p, groups, children, x, c)
  {
    assert HasEdge(children, x, c) <==> Feeds(p, x, c);
    if c in groups {
      assert groups[c].members == [c];
      assert Needs(p, groups[c], x.func) <==> CallsFrom(p, c, x.func);
    }
  }

  /** The groups differ in their tile sizes only. */
  ghost predicate Retiled(groups: Groups, groups': Groups)
  {
    && groups'.Keys == groups.Keys
    && forall x :: x in groups ==> groups'[x].(tileSizes := groups[x].tileSizes) == groups[x]
  }

  lemma {:induction false} RetilingKeepsGroups(p: Pipeline, groups: Groups, groups': Groups)
    requires AllGroupsOk(p, groups) && OnlyPureMerged(p, groups) && Retiled(groups, groups')
    ensures AllGroupsOk(p, groups') && OnlyPureMerged(p, groups')
  {
    forall x | x in groups' ensures GroupOk(p, groups', x) { assert GroupOk(p, groups, x); }
    forall x | x in groups' ensures PureMembers(p, groups', x) { assert PureMembers(p, groups, x); }
  }

  lemma {:induction false} RetilingKeepsGraph(p: Pipeline, groups: Groups, groups': Groups, children: Children)
    requires AllStagesOk(p, groups) && AllCovered(p, groups) && AllNodesOk(p, groups, children)
    requires AllEdgesOk(p, groups, children) && Retiled(groups, groups')
    ensures AllStagesOk(p, groups') && AllCovered(p, groups') && AllNodesOk(p, groups', children)
    ensures AllEdgesOk(p, groups', children)
  {
    forall x, c ensures EdgeOk(p, groups', children, x, c) {
      assert EdgeOk(p, groups, children, x, c);
      assert c in groups ==> groups'[c].members == groups[c].members;
    }
    forall f | f in p.outputs ensures Live(groups', f) { assert Live(groups, f); }
    forall x | x in groups' ensures StageOk(p, groups', x) { assert StageOk(p, groups, x); }
    forall s | IsStage(p, s)
      ensures Covered(groups', s)
    {
      assert Covered(groups, s);
      var x :| x in groups && s in groups[x].members;
      assert s in groups'[x].members;
    }
    forall x | x in children ensures NodeOk(p, groups', children, x) { assert NodeOk(p, groups, children, x); }
  }

  lemma {:induction false} OpenedLedger(p: Pipeline, m: CostModel, groups: Groups, groups': Groups,
                                        children: Children, costs: Ledger, level: Level)
    requires Structured(p, groups, children) && OnlyPureMerged(p, groups) && Retiled(groups, groups')
    requires costs.Keys == groups'.Keys && forall x :: x in costs ==> costs[x] == Analyze(m, groups'[x])
    ensures Inv(p, m, State(groups', children, costs, map[]), level)
  {
    RetilingKeepsGroups(p, groups, groups');
    RetilingKeepsGraph(p, groups, groups', children);
  }

  // ---- groupings ----

  type Grouped = seq<(Choice, Config)>

  function Consumers(grouping: Grouped): set<FStage> { set e | e in grouping :: e.0.cons }

  /** The grouping lists the consumers in `done`, once each, with their configurations. */
  ghost predicate Lists(grouping: Grouped, f: string, configs: map<FStage, Config>, done: set<FStage>)
  {
    && (forall i :: 0 <= i < |grouping| ==> EntryOk(grouping[i], f, configs))
    && (forall i, j :: 0 <= i < j < |grouping| ==> grouping[i].0.cons != grouping[j].0.cons)
    && Consumers(grouping) == done
  }

  predicate EntryOk(e: (Choice, Config), f: string, configs: map<FStage, Config>)
  {
    e.0.prod == f && e.0.cons in configs && e.1 == configs[e.0.cons]
  }

  ghost predicate IsGrouping(grouping: Grouped, f: string, configs: map<FStage, Config>)
  {
    Lists(grouping, f, configs, configs.Keys)
  }

  lemma {:induction false} ConsumersSnoc(grouping: Grouped, e: (Choice, Config))
    ensures Consumers(grouping + [e]) == Consumers(grouping) + {e.0.cons}
  {
  }

  lemma {:induction false} ListsOneMore(grouping: Grouped, f: string, configs: map<FStage, Config>, done: set<FStage>,
                                        c: FStage)
    requires Lists(grouping, f, configs, done) && c in configs && c !in done
    ensures Lists(grouping + [(Choice(f, c), configs[c])], f, configs, done + {c})
  {
    ConsumersSnoc(grouping, (Choice(f, c), configs[c]));
    forall i | 0 <= i < |grouping| ensures grouping[i].0.cons != c { assert grouping[i].0.cons in Consumers(grouping); }
  }

  lemma {:induction false} ListsPrefix(grouping: Grouped, f: string, configs: map<FStage, Config>, i: nat)
    requires IsGrouping(grouping, f, configs) && i < |grouping|
    ensures EntryOk(grouping[i], f, configs)
    ensures grouping[i].0.cons !in Consumers(grouping[..i])
    ensures Consumers(grouping[..i + 1]) == Consumers(grouping[..i]) + {grouping[i].0.cons} <= configs.Keys
  {
    assert grouping[..i + 1] == grouping[..i] + [grouping[i]];
    ConsumersSnoc(grouping[..i], grouping[i]);
  }

  /** The groups after merging f into the consumers in `done`. */
  ghost function MergedInto(p: Pipeline, groups: Groups, f: string, configs: map<FStage, Config>, level: Level,
                            done: set<FStage>): Groups
    requires done <= configs.Keys
    requires forall c :: c in configs ==> Evaluable(p, groups, Choice(f, c))
  {
    map x | x in groups :: if x in done then Merged(p, groups, Choice(f, x), configs[x], level) else groups[x]
  }

  ghost function PaidFor(costs: Ledger, configs: map<FStage, Config>, done: set<FStage>): Ledger
    requires done <= configs.Keys
  {
    map x | x in costs :: if x in done then configs[x].analysis else costs[x]
  }

  lemma {:induction false} PaidOneMore(costs: Ledger, configs: map<FStage, Config>, done: set<FStage>, c: FStage)
    requires done <= configs.Keys <= costs.Keys && c in configs
    ensures PaidFor(costs, configs, done)[c := configs[c].analysis] == PaidFor(costs, configs, done + {c})
  {
  }

  lemma {:induction false} MergedOneMore(p: Pipeline, groups: Groups, f: string, configs: map<FStage, Config>,
                                         level: Level, done: set<FStage>, c: FStage)
    requires done <= configs.Keys && c in configs && c !in done
    requires forall x :: x in configs ==> x.func != f && Evaluable(p, groups, Choice(f, x))
    ensures
      var now := MergedInto(p, groups, f, configs, level, done);
      && Evaluable(p, now, Choice(f, c))
      && now[c := Merged(p, now, Choice(f, c), configs[c], level)]
        == MergedInto(p, groups, f, configs, level, done + {c})
  {
    var now := MergedInto(p, groups, f, configs, level, done);
    assert Evaluable(p, groups, Choice(f, c));
    assert forall s :: FStage(f, s) !in done;
    MergedFrame(p, groups, now, Choice(f, c), configs[c], level);
  }

  /** Merging looks only at the producer's groups and the one consumer. */
  lemma {:induction false} MergedFrame(p: Pipeline, groups: Groups, groups': Groups, choice: Choice, config: Config,
                                       level: Level)
    requires Evaluable(p, groups, choice) && Evaluable(p, groups', choice)
    requires groups[choice.cons] == groups'[choice.cons]
    requires forall s :: 0 <= s < NumStages(p, choice.prod) ==>
      groups[FStage(choice.prod, s)] == groups'[FStage(choice.prod, s)]
    ensures Merged(p, groups, choice, config, level) == Merged(p, groups', choice, config, level)
  {
    StagesOfFrame(groups, groups', choice.prod, NumStages(p, choice.prod));
  }

  lemma {:induction false} StagesOfFrame(groups: Groups, groups': Groups, f: string, k: nat)
    requires forall s :: 0 <= s < k ==> FStage(f, s) in groups && FStage(f, s) in groups'
    requires forall s :: 0 <= s < k ==> groups[FStage(f, s)] == groups'[FStage(f, s)]
    ensures MembersOfStages(groups, f, k) == MembersOfStages(groups', f, k)
    ensures NamesOfStages(groups, f, k) == NamesOfStages(groups', f, k)
    ensures InlinedOfStages(groups, f, k) == InlinedOfStages(groups', f, k)
  {
    if k > 0 { StagesOfFrame(groups, groups', f, k - 1); }
  }

  lemma {:induction false} GroupingNotEmpty(grouping: Grouped, f: string, configs: map<FStage, Config>)
    requires IsGrouping(grouping, f, configs) && configs.Keys != {}
    ensures grouping != [] && grouping[0].0.prod == f
  {
    assert Consumers([]) == {};
  }

  lemma {:induction false} CandidateIsPriced(p: Pipeline, m: CostModel, st: State, level: Level, f: string)
    requires Structured(p, st.groups, st.children) && st.costs.Keys == st.groups.Keys && Final(p, f) in st.children
    ensures Replaced(p, f, ConfigsOf(p, m, st, f, level).Keys) <= st.costs.Keys
    ensures ConfigsOf(p, m, st, f, level).Keys != {}
  {
    ConsumersAreOthers(p, st, f);
    StagesAreLive(p, st, f);
  }

  ghost predicate Priceable(p: Pipeline, st: State, f: string)
  {
    Structured(p, st.groups, st.children) && st.costs.Keys == st.groups.Keys && Final(p, f) in st.children
  }

  /** What merging f now would gain, with everything evaluated afresh. */
  ghost function Gain(p: Pipeline, m: CostModel, st: State, level: Level, f: string): Option<int>
  {
    if Priceable(p, st, f) then
      CandidateIsPriced(p, m, st, level, f);
      Benefit(p, m, st.costs, f, ConfigsOf(p, m, st, f, level))
    else None
  }

  ghost function Gains(p: Pipeline, m: CostModel, st: State, level: Level, fs: seq<string>): seq<Option<int>>
  {
    if fs == [] then [] else Gains(p, m, st, level, fs[..|fs| - 1]) + [Gain(p, m, st, level, fs[|fs| - 1])]
  }

  predicate AllAtMost(gains: seq<Option<int>>, bound: int) { forall i :: 0 <= i < |gains| ==> AtMost(gains[i], bound) }

  predicate AllBelow(gains: seq<Option<int>>, bound: int) {
    forall i :: 0 <= i < |gains| && gains[i].Some? ==> gains[i].value < bound
  }

  /** The candidate is the first in the list to gain that much. */
  ghost predicate FirstToGain(p: Pipeline, m: CostModel, st: State, level: Level, cands: seq<string>, f: string,
                              gain: int) {
    exists i :: 0 <= i < |cands| && cands[i] == f && AllBelow(Gains(p, m, st, level, cands[..i]), gain)
  }

  /** One more candidate looked at. */
  lemma {:induction false} GainsStep(p: Pipeline, m: CostModel, st: State, level: Level, fs: seq<string>, i: nat,
                                     was: int, now: int)
    requires i < |fs| && AllAtMost(Gains(p, m, st, level, fs[..i]), was)
    requires was <= now && AtMost(Gain(p, m, st, level, fs[i]), now)
    ensures AllAtMost(Gains(p, m, st, level, fs[..i + 1]), now)
  {
    assert fs[..i + 1][..i] == fs[..i];
  }

  lemma {:induction false} GainIsBounded(p: Pipeline, m: CostModel, st: State, level: Level, fs: seq<string>,
                                         f: string, bound: int)
    requires AllAtMost(Gains(p, m, st, level, fs), bound) && f in fs
    ensures AtMost(Gain(p, m, st, level, f), bound)
    decreases |fs|
  {
    var most := fs[..|fs| - 1];
    var gains := Gains(p, m, st, level, fs);
    if f == fs[|fs| - 1] {
      assert gains[|gains| - 1] == Gain(p, m, st, level, f);
    } else {
      assert forall i :: 0 <= i < |gains| - 1 ==> Gains(p, m, st, level, most)[i] == gains[i];
      GainIsBounded(p, m, st, level, most, f, bound);
    }
  }

  predicate AtMost(gain: Option<int>, bound: int) { gain.Some? ==> gain.value <= bound }

  /** The grouping is f's, evaluated afresh. */
  ghost predicate IsGroupingOf(p: Pipeline, m: CostModel, st: State, level: Level, grouping: Grouped, f: string)
  {
    Priceable(p, st, f) && IsGrouping(grouping, f, ConfigsOf(p, m, st, f, level))
  }

  // ---- taking a producer out of the graph, one stage at a time ----

  function FirstStages(f: string, k: nat): (r: set<FStage>)
    ensures forall x :: x in r <==> x.func == f && x.stage < k
  {
    set s | 0 <= s < k :: FStage(f, s)
  }

  /** The map with the first k stages of f taken out. */
  function Without<T>(m: map<FStage, T>, f: string, k: nat): map<FStage, T>
  {
    map x | x in m && x !in FirstStages(f, k) :: m[x]
  }

  lemma {:induction false} WithoutOneMore<T>(m: map<FStage, T>, f: string, k: nat)
    ensures Without(m, f, k) - {FStage(f, k)} == Without(m, f, k + 1)
  {
  }

  lemma {:induction false} WithoutAll<T>(p: Pipeline, m: map<FStage, T>, f: string)
    requires forall x :: x in m ==> IsStage(p, x)
    ensures Without(m, f, NumStages(p, f)) == map x | x in m && x.func != f :: m[x]
  {
  }

  function DropStage(children: Children, x: FStage, consumers: set<FStage>): Children
  {
    map y | y in children && y != x :: if x in children[y] then children[y] - {x} + consumers else children[y]
  }

  /** The children map with the first k stages of f taken out. */
  function Dropped(children: Children, f: string, k: nat, consumers: set<FStage>): Children
  {
    map y | y in children && y !in FirstStages(f, k) ::
      if children[y] !! FirstStages(f, k) then children[y] else children[y] - FirstStages(f, k) + consumers
  }

  lemma {:induction false} DropOneMore(children: Children, f: string, k: nat, consumers: set<FStage>)
    requires forall c :: c in consumers ==> c.func != f
    ensures DropStage(Dropped(children, f, k, consumers), FStage(f, k), consumers)
      == Dropped(children, f, k + 1, consumers)
  {
    var a := DropStage(Dropped(children, f, k, consumers), FStage(f, k), consumers);
    var b := Dropped(children, f, k + 1, consumers);
    assert FirstStages(f, k + 1) == FirstStages(f, k) + {FStage(f, k)};
    forall y | y in b
      ensures a[y] == b[y]
    {
      assert a[y] == b[y];
    }
    assert a.Keys == b.Keys;
  }

  lemma {:induction false} DroppedNone(children: Children, f: string, consumers: set<FStage>)
    ensures Dropped(children, f, 0, consumers) == children
  {
  }

  lemma {:induction false} DroppedAll(p: Pipeline, children: Children, f: string, consumers: set<FStage>)
    requires forall x :: x in children ==> IsStage(p, x)
    ensures Dropped(children, f, NumStages(p, f), consumers) == Rewired(p, children, f, consumers)
  {
    assert FirstStages(f, NumStages(p, f)) == StagesOf(p, f);
  }

  lemma {:induction false} StagesOnly(p: Pipeline, m: CostModel, st: State, level: Level)
    requires Inv(p, m, st, level)
    ensures forall x :: x in st.children || x in st.groups || x in st.costs ==> IsStage(p, x)
  {
    forall x | x in st.children || x in st.groups || x in st.costs
      ensures IsStage(p, x)
    {
      if x in st.children { assert NodeOk(p, st.groups, st.children, x); }
      assert StageOk(p, st.groups, x);
    }
  }

  /** What the second half of a round relies on. */
  lemma {:induction false} ReadyToContract(p: Pipeline, m: CostModel, st: State, f: string, level: Level)
    requires Inv(p, m, st, level) && Candidate(p, st.groups, st.children, level, f)
    ensures Final(p, f) in st.children && st.groups.Keys == st.costs.Keys
    ensures var consumers := st.children[Final(p, f)];
      && ConfigsOf(p, m, st, f, level).Keys == consumers <= st.groups.Keys
      && forall c :: c in consumers ==> c.func != f && Evaluable(p, st.groups, Choice(f, c))
    ensures forall x :: x in st.children || x in st.groups ==> IsStage(p, x)
  {
    ConsumersAreOthers(p, st, f);
    StagesOnly(p, m, st, level);
  }

  lemma {:induction false} IsStep(p: Pipeline, m: CostModel, st: State, f: string, level: Level, st': State)
    requires Inv(p, m, st, level) && Candidate(p, st.groups, st.children, level, f)
    requires Final(p, f) in st.children && ConfigsOf(p, m, st, f, level).Keys == st.children[Final(p, f)]
    requires (ReadyToContract(p, m, st, f, level);
              st' == Contract(p, st, f, st.children[Final(p, f)], ConfigsOf(p, m, st, f, level), level))
    ensures Step(p, m, st, f, level, st')
  {
  }

  /** Merging everywhere and then dropping the producer is the contraction. */
  lemma {:induction false} Assembled(p: Pipeline, st: State, f: string, level: Level, configs: map<FStage, Config>,
                                     groups: Groups, costs: Ledger)
    requires st.costs.Keys == st.groups.Keys && configs.Keys <= st.groups.Keys
    requires forall c :: c in configs ==> Evaluable(p, st.groups, Choice(f, c))
    requires
      var merged := MergedInto(p, st.groups, f, configs, level, configs.Keys);
      groups == map x | x in merged && x.func != f :: merged[x]
    requires
      var paid := PaidFor(st.costs, configs, configs.Keys);
      costs == map x | x in paid && x.func != f :: paid[x]
    ensures groups == Contract(p, st, f, configs.Keys, configs, level).groups
    ensures costs == Contract(p, st, f, configs.Keys, configs, level).costs
  {
  }

  // ---- the partitioner ----

  class Partitioner {
    const p: Pipeline
    const m: CostModel
    var groups: Groups
    var children: Children
    var groupCosts: Ledger
    var groupingCache: Cache

    ghost function St(): State
      reads this
    {
      State(groups, children, groupCosts, groupingCache)
    }

    /** The state without the cache, which decides nothing. */
    ghost function Core(): State
      reads `groups, `children, `groupCosts
    {
      State(groups, children, groupCosts, map[])
    }

    /** One group per stage of a function with bounds, and the graph of who uses whom. */
    constructor (p: Pipeline, m: CostModel, bounded: set<string>)
      requires WellFormed(p)
      ensures this.p == p && this.m == m
      ensures forall x :: x in groups <==> IsStage(p, x) && x.func in bounded
      ensures forall x :: x in groups ==> groups[x] == Singleton(x)
      ensures forall a, b :: HasEdge(children, a, b) <==> Feeds(p, a, b)
      ensures p.env.Keys <= bounded ==> Structured(p, groups, children) && OnlyPureMerged(p, groups)
      ensures groupCosts == map[] && groupingCache == map[]
    {
      var gs: Groups := map[];
      var todo := p.env.Keys;
      while todo != {}
        invariant todo <= p.env.Keys
        invariant forall x :: x in gs <==> IsStage(p, x) && x.func in bounded && x.func !in todo
        invariant forall x :: x in gs ==> gs[x] == Singleton(x)
        decreases todo
      {
        var f :| f in todo;
        if f in bounded {
          for s := 0 to NumStages(p, f)
            invariant forall x :: x in gs <==>
              (IsStage(p, x) && x.func in bounded && x.func !in todo) || (x.func == f && x.stage < s)
            invariant forall x :: x in gs ==> gs[x] == Singleton(x)
          {
            gs := gs[FStage(f, s) := Singleton(FStage(f, s))];
          }
        }
        todo := todo - {f};
      }
      var cs := ConnectStages(p);
      this.p, this.m := p, m;
      groups, children, groupCosts, groupingCache := gs, cs, map[], map[];
      new;
      if p.env.Keys <= bounded {
        assert IsInitial(p, groups, children);
        InitialStateIsStructured(p, groups, children);
      }
    }

    /** The second half of the constructor: find the consumers of each function. */
    static method ConnectStages(p: Pipeline) returns (cs: Children)
      requires WellFormed(p)
      ensures forall a, b :: HasEdge(cs, a, b) <==> Feeds(p, a, b)
      ensures NoEmptySets(cs)
    {
      cs := map[];
      var todo := p.env.Keys;
      while todo != {}
        invariant todo <= p.env.Keys && NoEmptySets(cs)
        invariant forall a, b :: HasEdge(cs, a, b) <==> Feeds(p, a, b) && b.func !in todo
        decreases todo
      {
        var f :| f in todo;
        for s := 0 to NumStages(p, f)
          invariant NoEmptySets(cs)
          invariant forall a, b :: HasEdge(cs, a, b) <==>
            Feeds(p, a, b) && (b.func !in todo || (b.func == f && b.stage < s))
        {
          cs := ConnectStage(p, FStage(f, s), cs);
        }
        todo := todo - {f};
      }
    }

    static method ConnectStage(p: Pipeline, cons: FStage, before: Children) returns (cs: Children)
      requires WellFormed(p) && IsStage(p, cons) && NoEmptySets(before)
      ensures forall a, b :: HasEdge(cs, a, b) <==> HasEdge(before, a, b) || (b == cons && Feeds(p, a, b))
      ensures NoEmptySets(cs)
    {
      cs := before;
      var parents := p.env[cons.func].calls[cons.stage];
      var rest := parents;
      while rest != {}
        invariant rest <= parents && NoEmptySets(cs)
        invariant forall a, b :: HasEdge(cs, a, b) <==>
          HasEdge(before, a, b) || (b == cons && Feeds(p, a, b) && a.func != cons.func && a.func !in rest)
        decreases rest
      {
        var c :| c in rest;
        if c != cons.func && c in p.env {
          assert FuncOk(p, c);
          cs := AddEdge(cs, Final(p, c), cons);
        }
        rest := rest - {c};
      }
      if cons.stage > 0 {
        cs := AddEdge(cs, FStage(cons.func, cons.stage - 1), cons);
      }
    }

    /** find_best_tile_config */
    method FindBestTileConfig(g: Group) returns (best: Config)
      ensures best == BestTile(m, g)
    {
      best := Config(map[], Analyze(m, g.(tileSizes := map[])));
      if best.analysis.cost.None? {
        return;
      }
      var configs := m.tileConfigs(g.output);
      ghost var all := configs;
      ghost var none := best;
      while configs != []
        invariant BestFrom(m, g, configs, best) == BestFrom(m, g, all, none)
        decreases |configs|
      {
        var a := Analyze(m, g.(tileSizes := configs[0]));
        var benefit := PairBenefit(m, best.analysis, a, false, true);
        if benefit.Some? && benefit.value > 0 {
          best := Config(configs[0], a);
        }
        configs := configs[1..];
      }
    }

    /** Give every group its best tiling and open the ledger. */
    method InitializeGroups()
      requires Structured(p, groups, children) && OnlyPureMerged(p, groups) && groupCosts == map[]
      modifies this
      ensures children == old(children) && groups.Keys == old(groups.Keys)
      ensures forall x :: x in groups ==>
        groups[x] == old(groups)[x].(tileSizes := BestTile(m, old(groups)[x]).tileSizes)
      ensures groupingCache == map[]
      ensures forall level :: Inv(p, m, St(), level)
    {
      TileGroups();
      groupingCache := map[];
      forall level ensures Inv(p, m, St(), level) {
        OpenedLedger(p, m, old(groups), groups, children, groupCosts, level);
      }
    }

    /** The loop over all groups. */
    method TileGroups()
      requires groupCosts == map[]
      modifies this`groups, this`groupCosts
      ensures Retiled(old(groups), groups) && groupCosts.Keys == groups.Keys
      ensures forall x :: x in groupCosts ==>
        groupCosts[x] == Analyze(m, groups[x]) && groups[x].tileSizes == BestTile(m, old(groups)[x]).tileSizes
    {
      var todo := groups.Keys;
      while todo != {}
        invariant todo <= groups.Keys
        invariant groupCosts.Keys == groups.Keys - todo
        invariant Retiled(old(groups), groups)
        invariant forall x :: x in todo ==> groups[x] == old(groups)[x]
        invariant forall x :: x in groupCosts ==>
          groupCosts[x] == Analyze(m, groups[x]) && groups[x].tileSizes == BestTile(m, old(groups)[x]).tileSizes
        decreases todo
      {
        var x :| x in todo;
        var best := FindBestTileConfig(groups[x]);
        BestTileIsAnalyzed(m, groups[x]);
        groups := groups[x := groups[x].(tileSizes := best.tileSizes)];
        groupCosts := groupCosts[x := best.analysis];
        todo := todo - {x};
      }
    }

    /** evaluate_choice */
    method EvaluateChoice(choice: Choice, level: Level) returns (config: Config)
      requires Evaluable(p, groups, choice)
      ensures config == Evaluate(p, m, groups, choice, level)
    {
      var n := NumStages(p, choice.prod);
      var cons := groups[choice.cons];
      var group := cons;
      for s := 0 to n
        invariant group == MergeStages(groups, choice.prod, s, cons)
      {
        group := MergePair(groups[FStage(choice.prod, s)], group);
      }
      if level == Inline {
        var tiles := m.unitTiles(cons.output);
        var names: set<string> := {};
        for s := 0 to n
          invariant names == NamesOfStages(groups, choice.prod, s)
        {
          names := names + Names(groups[FStage(choice.prod, s)].members);
        }
        group := group.(tileSizes := tiles, inlined := group.inlined + names + cons.inlined);
        config := Config(tiles, Analyze(m, group));
      } else {
        config := FindBestTileConfig(group);
      }
    }

    /** get_pipeline_cost */
    method GetPipelineCost() returns (total: Option<Cost>)
      requires groups.Keys == groupCosts.Keys
      ensures total.Some? <==> forall x :: x in groupCosts ==> groupCosts[x].cost.Some?
      ensures total.Some? ==> total.value.arith + total.value.memory == Total(groupCosts, groupCosts.Keys)
    {
      var arith, memory := 0, 0;
      var todo := groups.Keys;
      ghost var done: set<FStage> := {};
      while todo != {}
        invariant done + todo == groups.Keys && done !! todo
        invariant forall x :: x in done ==> groupCosts[x].cost.Some?
        invariant arith + memory == Total(groupCosts, done)
        decreases todo
      {
        var x :| x in todo;
        if groupCosts[x].cost.None? {
          return None;
        }
        arith, memory := arith + groupCosts[x].cost.value.arith, memory + groupCosts[x].cost.value.memory;
        TotalRemove(groupCosts, done + {x}, x);
        assert done + {x} - {x} == done;
        todo, done := todo - {x}, done + {x};
      }
      assert done == groupCosts.Keys;
      total := Some(Cost(arith, memory));
    }

    /** Sum the analyses of a set of groups, as both halves of estimate_benefit do. */
    method SumAnalyses(costs: Ledger, stages: set<FStage>) returns (sum: Analysis)
      requires stages <= costs.Keys
      ensures Defined(sum) <==> forall x :: x in stages ==> Defined(costs[x])
      ensures sum.cost.Some? <==> Defined(sum)
      ensures sum.parallelism.Some? <==> Defined(sum)
      ensures Defined(sum) ==> Weight(sum) == Total(costs, stages)
      ensures Defined(sum) ==> (sum.parallelism.value >= m.parallelism <==>
                INT64_MAX >= m.parallelism && forall x :: x in stages ==> costs[x].parallelism.value >= m.parallelism)
    {
      sum := Analysis(Some(Cost(0, 0)), Some(INT64_MAX));
      var todo := stages;
      ghost var done: set<FStage> := {};
      while todo != {}
        invariant done + todo == stages && done !! todo
        invariant Defined(sum) && Weight(sum) == Total(costs, done)
        invariant forall x :: x in done ==> Defined(costs[x])
        invariant sum.parallelism.value >= m.parallelism <==>
          INT64_MAX >= m.parallelism && forall x :: x in done ==> costs[x].parallelism.value >= m.parallelism
        decreases todo
      {
        var x :| x in todo;
        if !(costs[x].cost.Some? && costs[x].parallelism.Some?) {
          return Analysis(None, None);
        }
        var least := if costs[x].parallelism.value < sum.parallelism.value then costs[x].parallelism
          else sum.parallelism;
        sum := Analysis(Some(Cost(sum.cost.value.arith + costs[x].cost.value.arith,
                                  sum.cost.value.memory + costs[x].cost.value.memory)), least);
        TotalRemove(costs, done + {x}, x);
        assert done + {x} - {x} == done;
        todo, done := todo - {x}, done + {x};
      }
      assert done == stages;
    }

    /** The groups a grouping replaces, and the analyses that replace them. */
    method Affected(grouping: Grouped, ghost f: string, ghost configs: map<FStage, Config>)
      returns (oldGroups: set<FStage>, news: Ledger)
      requires IsGrouping(grouping, f, configs) && configs.Keys != {}
      ensures oldGroups == Replaced(p, f, configs.Keys)
      ensures news == Analyses(configs)
    {
      oldGroups, news := {}, map[];
      for i := 0 to |grouping|
        invariant oldGroups == (if i == 0 then {} else StagesOf(p, f)) + Consumers(grouping[..i])
        invariant news.Keys == Consumers(grouping[..i]) <= configs.Keys
        invariant forall c :: c in news ==> news[c] == configs[c].analysis
      {
        var choice := grouping[i].0;
        ListsPrefix(grouping, f, configs, i);
        oldGroups := oldGroups + StagesOf(p, choice.prod) + {choice.cons};
        news := news[choice.cons := grouping[i].1.analysis];
      }
      assert grouping[..|grouping|] == grouping;
      GroupingNotEmpty(grouping, f, configs);
    }

    /** estimate_benefit of a whole grouping. */
    method EstimateBenefit(grouping: Grouped, ghost f: string,
                           ghost configs: map<FStage, Config>) returns (benefit: Option<int>)
      requires IsGrouping(grouping, f, configs) && configs.Keys != {}
      requires Replaced(p, f, configs.Keys) <= groupCosts.Keys
      ensures benefit == Benefit(p, m, groupCosts, f, configs)
    {
      var oldGroups, news := Affected(grouping, f, configs);
      assert news.Keys == configs.Keys && forall c :: c in configs ==> news[c] == configs[c].analysis;
      var after := SumAnalyses(news, news.Keys);
      var before := SumAnalyses(groupCosts, oldGroups);
      benefit := PairBenefit(m, before, after, false, true);
    }

    /** The candidates of one round of `group`. */
    method CollectCandidates(level: Level) returns (cand: seq<string>)
      requires Structured(p, groups, children)
      ensures forall f :: f in cand <==> Candidate(p, groups, children, level, f)
      ensures forall i :: 0 <= i < |cand| ==> Candidate(p, groups, children, level, cand[i])
    {
      cand := [];
      var todo := groups.Keys;
      while todo != {}
        invariant todo <= groups.Keys
        invariant forall f :: f in cand <==>
          Candidate(p, groups, children, level, f) && Final(p, f) !in todo
        decreases todo
      {
        var g :| g in todo;
        if g.func !in p.outputs && g.stage == NumStages(p, g.func) - 1 && g in children {
          var names := FuncsOf(children[g]);
          if level == FastMem {
            if |names| == 1 {
              cand := cand + [g.func];
            }
          } else if IsPure(p, g.func) {
            cand := cand + [g.func];
          }
        }
        todo := todo - {g};
      }
    }

    /** The configurations for one candidate, out of the cache where possible. */
    method GroupingFor(f: string, level: Level) returns (grouping: Grouped)
      requires Structured(p, groups, children) && Final(p, f) in children
      requires CacheOk(p, m, groups, groupingCache, level)
      modifies `groupingCache
      ensures CacheOk(p, m, groups, groupingCache, level)
      ensures IsGrouping(grouping, f, ConfigsOf(p, m, Core(), f, level))
    {
      ConsumersAreOthers(p, Core(), f);
      grouping := GroupingOver(f, children[Final(p, f)], level);
    }

    method GroupingOver(f: string, consumers: set<FStage>, level: Level) returns (grouping: Grouped)
      requires forall c :: c in consumers ==> Evaluable(p, groups, Choice(f, c))
      requires CacheOk(p, m, groups, groupingCache, level)
      modifies `groupingCache
      ensures CacheOk(p, m, groups, groupingCache, level)
      ensures IsGrouping(grouping, f, Configs(p, m, groups, consumers, f, level))
    {
      ghost var configs := Configs(p, m, groups, consumers, f, level);
      grouping := [];
      var todo := consumers;
      while todo != {}
        invariant todo <= consumers && CacheOk(p, m, groups, groupingCache, level)
        invariant Lists(grouping, f, configs, consumers - todo)
        decreases todo
      {
        var c :| c in todo;
        var config := Lookup(Choice(f, c), level);
        ListsOneMore(grouping, f, configs, consumers - todo, c);
        assert consumers - todo + {c} == consumers - (todo - {c});
        grouping := grouping + [(Choice(f, c), config)];
        todo := todo - {c};
      }
      assert consumers - todo == configs.Keys;
    }

    /** One evaluation, cached. */
    method Lookup(choice: Choice, level: Level) returns (config: Config)
      requires Evaluable(p, groups, choice) && CacheOk(p, m, groups, groupingCache, level)
      modifies `groupingCache
      ensures CacheOk(p, m, groups, groupingCache, level)
      ensures config == Evaluate(p, m, groups, choice, level)
    {
      if choice in groupingCache {
        config := groupingCache[choice];
        assert Fresh(p, m, groups, groupingCache, level, choice);
      } else {
        config := EvaluateChoice(choice, level);
        groupingCache := groupingCache[choice := config];
        forall k | k in groupingCache
          ensures Fresh(p, m, groups, groupingCache, level, k)
        {
          if k != choice { assert Fresh(p, m, groups, old(groupingCache), level, k); }
        }
      }
    }

    /**
     * choose_candidate_grouping.  The cache only saves work: the choice is the one an uncached
     * search would make, the first candidate of the greatest positive gain.
     */
    method ChooseCandidateGrouping(cands: seq<string>, level: Level) returns (best: Grouped, ghost gain: int)
      requires Inv(p, m, St(), level)
      requires forall i :: 0 <= i < |cands| ==> Final(p, cands[i]) in children
      modifies `groupingCache
      ensures Inv(p, m, St(), level)
      ensures forall i :: 0 <= i < |cands| ==> Final(p, cands[i]) in children
      ensures gain >= 0 && (best == [] <==> gain == 0)
      ensures AllAtMost(Gains(p, m, Core(), level, cands), gain)
      ensures best != [] ==>
        && best[0].0.prod in cands
        && IsGroupingOf(p, m, Core(), level, best, best[0].0.prod)
        && Gain(p, m, Core(), level, best[0].0.prod) == Some(gain)
        && FirstToGain(p, m, Core(), level, cands, best[0].0.prod, gain)
    {
      best := [];
      var bestBenefit := 0;
      ghost var core := Core();
      for i := 0 to |cands|
        invariant CacheOk(p, m, groups, groupingCache, level)
        invariant bestBenefit >= 0 && (best == [] <==> bestBenefit == 0)
        invariant Core() == core
        invariant AllAtMost(Gains(p, m, core, level, cands[..i]), bestBenefit)
        invariant best != [] ==>
          && best[0].0.prod in cands
          && IsGroupingOf(p, m, core, level, best, best[0].0.prod)
          && Gain(p, m, core, level, best[0].0.prod) == Some(bestBenefit)
          && FirstToGain(p, m, core, level, cands, best[0].0.prod, bestBenefit)
      {
        var grouping, benefit := Price(cands[i], level);
        ghost var was := bestBenefit;
        if benefit.Some? && bestBenefit < benefit.value {
          best, bestBenefit := grouping, benefit.value;
          assert cands[i] == best[0].0.prod && AllBelow(Gains(p, m, core, level, cands[..i]), bestBenefit);
        }
        GainsStep(p, m, core, level, cands, i, was, bestBenefit);
      }
      gain := bestBenefit;
      assert cands[..|cands|] == cands;
    }

    /** One candidate: its grouping and what it would gain. */
    method Price(f: string, level: Level) returns (grouping: Grouped, benefit: Option<int>)
      requires Structured(p, groups, children) && Final(p, f) in children && groups.Keys == groupCosts.Keys
      requires CacheOk(p, m, groups, groupingCache, level)
      modifies `groupingCache
      ensures CacheOk(p, m, groups, groupingCache, level)
      ensures grouping != [] && grouping[0].0.prod == f
      ensures benefit == Gain(p, m, Core(), level, f)
      ensures IsGroupingOf(p, m, Core(), level, grouping, f)
    {
      grouping := GroupingFor(f, level);
      ghost var configs := ConfigsOf(p, m, Core(), f, level);
      CandidateIsPriced(p, m, Core(), level, f);
      benefit := EstimateBenefit(grouping, f, configs);
      GroupingNotEmpty(grouping, f, configs);
    }

    /** merge_groups */
    method MergeGroups(choice: Choice, config: Config, level: Level)
      requires Evaluable(p, groups, choice)
      modifies `groups, `groupCosts
      ensures groups == old(groups)[choice.cons := Merged(p, old(groups), choice, config, level)]
      ensures groupCosts == old(groupCosts)[choice.cons := config.analysis]
    {
      var child := groups[choice.cons];
      var members, inlined := child.members, child.inlined;
      var n := NumStages(p, choice.prod);
      for s := 0 to n
        invariant members == child.members + MembersOfStages(groups, choice.prod, s)
        invariant inlined == child.inlined +
          (if level.Inline? then NamesOfStages(groups, choice.prod, s) else InlinedOfStages(groups, choice.prod, s))
      {
        var cand := groups[FStage(choice.prod, s)];
        members := members + cand.members;
        inlined := inlined + (if level == Inline then Names(cand.members) else cand.inlined);
      }
      groups := groups[choice.cons := Group(child.output, members, inlined, config.tileSizes)];
      groupCosts := groupCosts[choice.cons := config.analysis];
    }

    /** Forget the cached evaluations that involve a group about to change. */
    method InvalidateCache(consumers: set<FStage>)
      modifies `groupingCache
      ensures groupingCache == Invalidated(old(groupingCache), consumers)
    {
      var invalid: set<Choice> := {};
      var todo := consumers;
      while todo != {}
        invariant todo <= consumers
        invariant forall k :: k in invalid <==> k in groupingCache && Stale(k, consumers - todo)
        decreases todo
      {
        var c :| c in todo;
        invalid := invalid + set k | k in groupingCache && (k.prod == c.func || k.cons == c);
        todo := todo - {c};
      }
      assert consumers - todo == consumers;
      groupingCache := groupingCache - invalid;
    }

    /** Merge the producer into every consumer of the grouping. */
    method MergeAll(grouping: Grouped, level: Level, ghost f: string, ghost configs: map<FStage, Config>)
      requires IsGrouping(grouping, f, configs) && groups.Keys == groupCosts.Keys
      requires forall c :: c in configs ==> c.func != f && Evaluable(p, groups, Choice(f, c))
      modifies `groups, `groupCosts
      ensures groups == MergedInto(p, old(groups), f, configs, level, configs.Keys)
      ensures groupCosts == PaidFor(old(groupCosts), configs, configs.Keys)
    {
      ghost var g0, c0 := groups, groupCosts;
      for i := 0 to |grouping|
        invariant Consumers(grouping[..i]) <= configs.Keys
        invariant groups == MergedInto(p, g0, f, configs, level, Consumers(grouping[..i]))
        invariant groupCosts == PaidFor(c0, configs, Consumers(grouping[..i]))
      {
        var choice := grouping[i].0;
        ghost var done := Consumers(grouping[..i]);
        ListsPrefix(grouping, f, configs, i);
        assert choice == Choice(f, choice.cons);
        MergedOneMore(p, g0, f, configs, level, done, choice.cons);
        PaidOneMore(c0, configs, done, choice.cons);
        MergeGroups(choice, grouping[i].1, level);
      }
      assert grouping[..|grouping|] == grouping;
    }

    /** Drop the producer's stages from the maps and point its producers at its consumers. */
    method EraseProducer(f: string, consumers: set<FStage>)
      requires (forall c :: c in consumers ==> c.func != f)
      requires forall x :: x in children || x in groups || x in groupCosts ==> IsStage(p, x)
      modifies `groups, `groupCosts, `children
      ensures groups == map x | x in old(groups) && x.func != f :: old(groups)[x]
      ensures groupCosts == map x | x in old(groupCosts) && x.func != f :: old(groupCosts)[x]
      ensures children == Rewired(p, old(children), f, consumers)
    {
      ghost var g0, l0, c0 := groups, groupCosts, children;
      DroppedNone(c0, f, consumers);
      var n := NumStages(p, f);
      for s := 0 to n
        invariant groups == Without(g0, f, s) && groupCosts == Without(l0, f, s)
        invariant children == Dropped(c0, f, s, consumers)
      {
        var x := FStage(f, s);
        DropOneMore(c0, f, s, consumers);
        WithoutOneMore(g0, f, s);
        WithoutOneMore(l0, f, s);
        groups, groupCosts := groups - {x}, groupCosts - {x};
        children := DropStage(children, x, consumers);
      }
      DroppedAll(p, c0, f, consumers);
      WithoutAll(p, g0, f);
      WithoutAll(p, l0, f);
    }

    /** One round of `group`.  Returns false when there is nothing left to merge. */
    method GroupOnce(level: Level) returns (merged: bool, ghost gain: int)
      requires Inv(p, m, St(), level)
      modifies this
      ensures Inv(p, m, St(), level)
      ensures !merged ==> groups == old(groups) && children == old(children) && groupCosts == old(groupCosts)
      ensures !merged ==> forall f :: Candidate(p, groups, children, level, f) ==>
        AtMost(Gain(p, m, Core(), level, f), 0)
      ensures merged ==>
        gain > 0 && Total(groupCosts, groupCosts.Keys) == old(Total(groupCosts, groupCosts.Keys)) - gain
      ensures merged ==> groups.Keys < old(groups.Keys)
    {
      var cands := CollectCandidates(level);
      var best;
      best, gain := ChooseCandidateGrouping(cands, level);
      if best == [] {
        forall f | Candidate(p, groups, children, level, f)
          ensures AtMost(Gain(p, m, Core(), level, f), 0)
        {
          GainIsBounded(p, m, Core(), level, cands, f, 0);
        }
        return false, 0;
      }
      MergeProducer(best, best[0].0.prod, level, gain);
      merged := true;
    }

    /** A round with a candidate that gains: the invariant survives and the gain is paid out. */
    method MergeProducer(grouping: Grouped, f: string, level: Level, ghost gain: int)
      requires Inv(p, m, St(), level) && Candidate(p, groups, children, level, f)
      requires IsGroupingOf(p, m, Core(), level, grouping, f) && Gain(p, m, Core(), level, f) == Some(gain)
      modifies this
      ensures Inv(p, m, St(), level) && groups.Keys < old(groups.Keys)
      ensures Total(groupCosts, groupCosts.Keys) == old(Total(groupCosts, groupCosts.Keys)) - gain
    {
      ghost var before := St();
      assert ConfigsOf(p, m, Core(), f, level) == ConfigsOf(p, m, before, f, level);
      ContractProducer(grouping, f, level);
      StepKeepsInv(p, m, before, f, level, St());
      StepCost(p, m, before, f, level, St());
      StepShrinks(p, m, before, f, level, St());
    }

    /** The second half of a round: invalidate, merge, erase. */
    method ContractProducer(grouping: Grouped, f: string, level: Level)
      requires Inv(p, m, St(), level) && Candidate(p, groups, children, level, f)
      requires IsGrouping(grouping, f, ConfigsOf(p, m, St(), f, level))
      modifies this
      ensures Step(p, m, old(St()), f, level, St())
    {
      var consumers := children[Final(p, f)];
      ghost var before := St();
      ghost var configs := ConfigsOf(p, m, before, f, level);
      ReadyToContract(p, m, before, f, level);
      AbsorbProducer(grouping, f, level, consumers, before, configs);
      IsStep(p, m, before, f, level, St());
    }

    /** Drop stale cache entries, merge the producer into its consumers, and take it out. */
    method AbsorbProducer(grouping: Grouped, f: string, level: Level, consumers: set<FStage>, ghost before: State,
                          ghost configs: map<FStage, Config>)
      requires St() == before && IsGrouping(grouping, f, configs)
      requires configs.Keys == consumers <= groups.Keys == groupCosts.Keys
      requires forall c :: c in consumers ==> c.func != f && Evaluable(p, groups, Choice(f, c))
      requires forall x :: x in children || x in groups ==> IsStage(p, x)
      modifies this
      ensures St() == Contract(p, before, f, consumers, configs, level)
    {
      InvalidateCache(consumers);
      MergeAll(grouping, level, f, configs);
      EraseProducer(f, consumers);
      Assembled(p, before, f, level, configs, groups, groupCosts);
    }

    /**
     * group: merge until nothing is gained.  Every merge removes a group and at least one unit of
     * cost, so there are at most as many merges as there were groups.
     */
    method RunGrouping(level: Level) returns (merges: nat)
      requires Inv(p, m, St(), level)
      modifies this
      ensures Inv(p, m, St(), level)
      ensures groups.Keys <= old(groups.Keys)
      ensures |groups.Keys| + merges <= |old(groups.Keys)|
      ensures Total(groupCosts, groupCosts.Keys) + merges <= old(Total(groupCosts, groupCosts.Keys))
      ensures forall f :: Candidate(p, groups, children, level, f) ==> AtMost(Gain(p, m, Core(), level, f), 0)
    {
      merges := 0;
      var fixpoint := false;
      while !fixpoint
        invariant Inv(p, m, St(), level)
        invariant groups.Keys <= old(groups.Keys)
        invariant |groups.Keys| + merges <= |old(groups.Keys)|
        invariant Total(groupCosts, groupCosts.Keys) + merges <= old(Total(groupCosts, groupCosts.Keys))
        invariant fixpoint ==>
          forall f :: Candidate(p, groups, children, level, f) ==> AtMost(Gain(p, m, Core(), level, f), 0)
        decreases groups.Keys, !fixpoint
      {
        ghost var keys := groups.Keys;
        var merged, gain := GroupOnce(level);
        if merged {
          FewerKeys(groups.Keys, keys);
          merges := merges + 1;
        } else {
          fixpoint := true;
        }
      }
    }

    /** The two passes, with the cache cleared between them as the evaluations depend on the level. */
    method Partition()
      requires Structured(p, groups, children) && OnlyPureMerged(p, groups) && groupCosts == map[]
      modifies this
      ensures Inv(p, m, St(), FastMem)
      ensures forall f :: Candidate(p, groups, children, FastMem, f) ==> AtMost(Gain(p, m, Core(), FastMem, f), 0)
    {
      InitializeGroups();
      var inlined := RunGrouping(Inline);
      groupingCache := map[];
      var tiled := RunGrouping(FastMem);
    }
  }

  lemma {:induction false} FewerKeys(s: set<FStage>, t: set<FStage>)
    requires s < t
    ensures |s| < |t|
  {
    var x :| x in t && x !in s;
    assert s <= t - {x};
    SubsetSize(s, t - {x});
  }

  lemma {:induction false} SubsetSize(s: set<FStage>, t: set<FStage>)
    requires s <= t
    ensures |s| <= |t|
    decreases s
  {
    if s != {} {
      var x :| x in s;
      SubsetSize(s - {x}, t - {x});
    }
  }
}
