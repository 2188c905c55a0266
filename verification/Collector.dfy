/**
 gcAction.go: the garbage collector. Each cycle counts how long every idle node has been idle, tops a pool
 up to its allowance of free nodes, and drains the idle nodes beyond that allowance, each once.
 */
module Collector {
  import opened Ids

  datatype GCInfo = GCInfo(pool: string, seen: nat, collecting: bool)

  /** One pool as the cycle reads it under the pool's lock: its nodes, and allocation -> node. */
  datatype Snapshot = Snapshot(nodes: set<Id>, allocs: map<Id, Id>)

  /** The allowance expression over total and busy nodes, if one is configured. */
  type Allowance = Option<(int, int) -> int>

  datatype Config = Config(ciclesToGc: int, allowance: Allowance)

  type Tracked = map<Id, GCInfo>

  function Idle(p: Snapshot): set<Id> {
    p.nodes - p.allocs.Values
  }

  /** Nodes of the pool and, should an allocation name one outside it, that one too. */
  function BusyCount(p: Snapshot): nat {
    |p.allocs.Values|
  }

  function Allowed(cfg: Config, p: Snapshot): int {
    match cfg.allowance
    case Some(f) => f(|p.nodes|, BusyCount(p))
    case None => 0
  }

  /** How many nodes the pool is short of its allowance. */
  function Shortage(cfg: Config, p: Snapshot): int {
    if cfg.allowance.Some? then Allowed(cfg, p) - (|p.nodes| - BusyCount(p)) else 0
  }

  function AllIdle(pools: map<string, Snapshot>): set<Id> {
    set p, n | p in pools && n in Idle(pools[p]) :: n
  }

  ghost predicate DisjointPools(pools: map<string, Snapshot>) {
    forall p, q :: p in pools && q in pools && p != q ==> pools[p].nodes !! pools[q].nodes
  }

  /** The counters after every idle node of every pool has been observed once more. */
  ghost predicate Observed(t: Tracked, pools: map<string, Snapshot>, obs: Tracked) {
    && obs.Keys == AllIdle(pools)
    && forall n :: n in obs ==>
         && obs[n].pool in pools && n in Idle(pools[obs[n].pool])
         && obs[n].seen == (if n in t then t[n].seen else 0) + 1
         && obs[n].collecting == (n in t && t[n].collecting)
  }

  /** Idle for long enough and not being drained already. */
  predicate IsEligible(info: GCInfo, cfg: Config) {
    info.seen >= cfg.ciclesToGc && !info.collecting
  }

  function Eligible(obs: Tracked, cfg: Config, p: string): set<Id> {
    set n | n in obs && obs[n].pool == p && IsEligible(obs[n], cfg)
  }

  function DrainedIn(drained: map<string, set<Id>>, p: string): set<Id> {
    if p in drained then drained[p] else {}
  }

  /** The node is appended to the list of its pool. */
  function OneMore(drained: map<string, set<Id>>, p: string, n: Id): map<string, set<Id>> {
    drained[p := DrainedIn(drained, p) + {n}]
  }

  /** The counters once the drained nodes are marked. */
  function Marked(obs: Tracked, drained: map<string, set<Id>>): Tracked {
    map n | n in obs :: obs[n].(collecting := obs[n].collecting || n in DrainedIn(drained, obs[n].pool))
  }

  /** What a cycle did to each pool. */
  datatype Cycle = Cycle(pools: map<string, Snapshot>, warmed: map<string, int>, drained: map<string, set<Id>>)

  /** One cycle, whatever order the maps are iterated in, by way of the counters after observation. */
  ghost predicate CycleVia(cfg: Config, t: Tracked, c: Cycle, obs: Tracked, t': Tracked) {
    && Observed(t, c.pools, obs)
    && t' == Marked(obs, c.drained)
    && (forall p :: p in c.warmed <==> p in c.pools && Shortage(cfg, c.pools[p]) > 0)
    && (forall p :: p in c.warmed ==> c.warmed[p] == Shortage(cfg, c.pools[p]))
    && (forall p :: p in c.drained ==> p in c.pools)
    && (forall p :: p in c.pools ==> RightlyDrained(obs, cfg, p, c.pools[p], DrainedIn(c.drained, p)))
  }

  /** Of the eligible nodes, exactly those beyond the allowance are drained. */
  ghost predicate RightlyDrained(obs: Tracked, cfg: Config, p: string, pool: Snapshot, drained: set<Id>) {
    && drained <= Eligible(obs, cfg, p)
    && |drained| == Max(0, |Eligible(obs, cfg, p)| - Max(0, Allowed(cfg, pool)))
  }

  ghost predicate CycleStep(cfg: Config, t: Tracked, c: Cycle, t': Tracked) {
    exists obs :: CycleVia(cfg, t, c, obs, t')
  }

  /** The nodes of a pool with no allocation counted yet. */
  method CountNodes(nodes: set<Id>) returns (byNode: map<Id, nat>, total: nat)
    ensures byNode == (map n | n in nodes :: 0) && total == |nodes|
  {
    byNode, total := map[], 0;
    var todo := nodes;
    while todo != {}
      invariant todo <= nodes && total == |nodes| - |todo|
      invariant byNode == map n | n in nodes - todo :: 0
    {
      var n :| n in todo;
      todo := todo - {n};
      byNode := byNode[n := 0];
      total := total + 1;
    }
  }

  /** How many allocations each node carries: the code's allocsByNodes. */
  method CountAllocs(p: Snapshot) returns (byNode: map<Id, nat>, total: nat)
    ensures byNode.Keys == p.nodes + p.allocs.Values && total == |p.nodes|
    ensures forall n :: n in byNode ==> (byNode[n] == 0 <==> n !in p.allocs.Values)
  {
    byNode, total := CountNodes(p.nodes);
    var todo := p.allocs.Keys;
    ghost var seen: set<Id> := {};
    while todo != {}
      invariant todo <= p.allocs.Keys && seen <= p.allocs.Values
      invariant forall a :: a in p.allocs && a !in todo ==> p.allocs[a] in seen
      invariant forall n :: n in byNode <==> n in p.nodes || n in seen
      invariant forall n :: n in byNode ==> (byNode[n] == 0 <==> n !in seen)
    {
      var a :| a in todo;
      var n := p.allocs[a];
      byNode := byNode[n := (if n in byNode then byNode[n] else 0) + 1];
      seen := seen + {n};
      todo := todo - {a};
    }
    AllSeen(p.allocs, seen);
  }

  lemma AllSeen(allocs: map<Id, Id>, seen: set<Id>)
    requires seen <= allocs.Values && forall a :: a in allocs ==> allocs[a] in seen
    ensures seen == allocs.Values
  {
  }

  /** The nodes counted with no allocation. */
  function Zeros(byNode: map<Id, nat>): set<Id> {
    set n | n in byNode && byNode[n] == 0
  }

  /** An idle node seen once more. */
  function SeenAgain(t: Tracked, n: Id, pool: string): GCInfo {
    if n in t then GCInfo(pool, t[n].seen + 1, t[n].collecting) else GCInfo(pool, 1, false)
  }

  /** The counters after the nodes of the set have been seen idle once more. */
  function Observe(t: Tracked, nodes: set<Id>, pool: string): Tracked {
    t + map n | n in nodes :: SeenAgain(t, n, pool)
  }

  lemma ObserveIs(t: Tracked, t': Tracked, nodes: set<Id>, pool: string)
    requires forall n :: n in t' <==> n in t || n in nodes
    requires forall n :: n in t' ==> t'[n] == if n in nodes then SeenAgain(t, n, pool) else t[n]
    ensures t' == Observe(t, nodes, pool)
  {
  }

  /** The pools that are not to do any more have been observed; everything else is as it was. */
  ghost predicate ObservedPart(t: Tracked, pools: map<string, Snapshot>, todo: set<string>, current: set<Id>,
                               t': Tracked)
  {
    && (forall p, n :: p in pools && p !in todo && n in Idle(pools[p]) ==> n in current)
    && (forall n :: n in current ==>
          n in t' && t'[n].pool in pools && t'[n].pool !in todo && n in Idle(pools[t'[n].pool])
          && t'[n] == SeenAgain(t, n, t'[n].pool))
    && (forall n :: n !in current ==> (n in t' <==> n in t))
    && (forall n :: n !in current && n in t ==> t'[n] == t[n])
  }

  /** The allowances and warm-ups of the pools that are not to do any more. */
  ghost predicate Budgeted(cfg: Config, pools: map<string, Snapshot>, todo: set<string>, allowed: map<string, int>,
                           warmed: map<string, int>)
  {
    && (forall p :: p in pools && p !in todo ==> (if p in allowed then allowed[p] else 0) == Allowed(cfg, pools[p]))
    && (forall p :: p in allowed ==> cfg.allowance.Some?)
    && (forall p :: p in warmed <==> p in pools && p !in todo && Shortage(cfg, pools[p]) > 0)
    && (forall p :: p in warmed ==> warmed[p] == Shortage(cfg, pools[p]))
  }

  lemma ObserveAt(t: Tracked, nodes: set<Id>, pool: string)
    ensures forall n :: n in Observe(t, nodes, pool) <==> n in t || n in nodes
    ensures forall n :: n in Observe(t, nodes, pool) ==>
              Observe(t, nodes, pool)[n] == if n in nodes then SeenAgain(t, n, pool) else t[n]
  {
  }

  lemma NotYetSeen(t: Tracked, pools: map<string, Snapshot>, todo: set<string>, current: set<Id>, before: Tracked,
                   name: string)
    requires DisjointPools(pools) && name in todo && name in pools
    requires ObservedPart(t, pools, todo, current, before)
    ensures forall n :: n in Idle(pools[name]) ==>
              n !in current && (n in before <==> n in t) && (n in t ==> before[n] == t[n])
  {
  }

  lemma ObservedExtends(t: Tracked, pools: map<string, Snapshot>, todo: set<string>, current: set<Id>,
                        before: Tracked, name: string)
    requires DisjointPools(pools) && name in todo && name in pools
    requires ObservedPart(t, pools, todo, current, before)
    ensures ObservedPart(t, pools, todo - {name}, current + Idle(pools[name]), Observe(before, Idle(pools[name]), name))
  {
    ObserveAt(before, Idle(pools[name]), name);
    NotYetSeen(t, pools, todo, current, before, name);
    hide Idle, Observe, SeenAgain;
  }

  lemma NothingObserved(cfg: Config, t: Tracked, pools: map<string, Snapshot>)
    ensures ObservedPart(t, pools, pools.Keys, {}, t) && Budgeted(cfg, pools, pools.Keys, map[], map[])
  {
  }

  /** Evaluate the allowance of one observed pool and start its warm-up when nodes are missing. */
  method BudgetPool(cfg: Config, ghost pools: map<string, Snapshot>, ghost todo: set<string>, name: string,
                    total: nat, busy: nat,
                    allowed: map<string, int>, warmed: map<string, int>)
    returns (allowed': map<string, int>, warmed': map<string, int>)
    requires name in todo && name in pools && total == |pools[name].nodes| && busy == BusyCount(pools[name])
    requires Budgeted(cfg, pools, todo, allowed, warmed)
    ensures Budgeted(cfg, pools, todo - {name}, allowed', warmed')
  {
    hide BusyCount;
    allowed', warmed' := allowed, warmed;
    if cfg.allowance.Some? {
      var free := cfg.allowance.value(total, busy);
      allowed' := allowed'[name := free];
      var toLaunch := free - (total as int - busy as int);
      if toLaunch > 0 {
        warmed' := warmed'[name := toLaunch];
      }
    }
  }

  /** A Go map read: a missing allowance is zero. */
  function Get(m: map<string, int>, p: string): int {
    if p in m then m[p] else 0
  }

  ghost predicate IsMarked(obs: Tracked, drained: map<string, set<Id>>, t: Tracked) {
    && (forall n :: n in t <==> n in obs)
    && (forall n :: n in obs ==>
          t[n] == obs[n].(collecting := obs[n].collecting || n in DrainedIn(drained, obs[n].pool)))
  }

  /**
   Half way through the drain loop: of the pool's eligible nodes already visited, the allowance has spared
   as many as it has shrunk, the others are drained, and draining only starts when it is used up.
   */
  ghost predicate Balance(obs: Tracked, cfg: Config, p: string, todo: set<Id>, drained: set<Id>, allowed: int,
                          left: int)
  {
    && drained <= Eligible(obs, cfg, p) - todo
    && |Eligible(obs, cfg, p) - todo| == |drained| + Max(0, allowed) - Max(0, left)
    && (drained != {} ==> left <= 0)
    && left <= allowed && (allowed <= 0 ==> left == allowed)
  }

  lemma BalanceSkips(obs: Tracked, cfg: Config, p: string, todo: set<Id>, drained: set<Id>, allowed: int, left: int,
                     n: Id)
    requires Balance(obs, cfg, p, todo, drained, allowed, left) && n !in Eligible(obs, cfg, p)
    ensures Balance(obs, cfg, p, todo - {n}, drained, allowed, left)
  {
    assert Eligible(obs, cfg, p) - (todo - {n}) == Eligible(obs, cfg, p) - todo;
  }

  lemma BalanceVisits(obs: Tracked, cfg: Config, p: string, todo: set<Id>, drained: set<Id>, allowed: int, left: int,
                      n: Id)
    requires Balance(obs, cfg, p, todo, drained, allowed, left) && n in Eligible(obs, cfg, p) && n in todo
    ensures left > 0 ==> Balance(obs, cfg, p, todo - {n}, drained, allowed, left - 1)
    ensures left <= 0 ==> Balance(obs, cfg, p, todo - {n}, drained + {n}, allowed, left)
  {
    hide Eligible;
    assert Eligible(obs, cfg, p) - (todo - {n}) == (Eligible(obs, cfg, p) - todo) + {n};
  }

  /** At the end the pool has drained exactly what is eligible beyond its allowance. */
  lemma BalanceEnds(obs: Tracked, cfg: Config, p: string, drained: set<Id>, allowed: int, left: int)
    requires Balance(obs, cfg, p, {}, drained, allowed, left)
    ensures drained <= Eligible(obs, cfg, p)
    ensures |drained| == Max(0, |Eligible(obs, cfg, p)| - Max(0, allowed))
  {
  }

  ghost predicate Balanced(obs: Tracked, cfg: Config, pools: map<string, Snapshot>, todo: set<Id>,
                           drained: map<string, set<Id>>,
                           allowed: map<string, int>, left: map<string, int>)
  {
    && (forall p :: p in drained ==> p in pools)
    && (forall p :: p in pools ==> Balance(obs, cfg, p, todo, DrainedIn(drained, p), Get(allowed, p), Get(left, p)))
  }

  lemma NothingDrained(obs: Tracked, cfg: Config, pools: map<string, Snapshot>, todo: set<Id>,
                       allowed: map<string, int>)
    requires todo == obs.Keys
    ensures IsMarked(obs, map[], obs) && Balanced(obs, cfg, pools, todo, map[], allowed, allowed)
  {
  }

  lemma EligibleAt(obs: Tracked, cfg: Config, p: string, n: Id)
    requires n in obs
    ensures n in Eligible(obs, cfg, p) <==> obs[n].pool == p && IsEligible(obs[n], cfg)
  {
  }

  lemma BalancedSkips(obs: Tracked, cfg: Config, pools: map<string, Snapshot>, todo: set<Id>,
                      drained: map<string, set<Id>>,
                       allowed: map<string, int>, left: map<string, int>, n: Id)
    requires Balanced(obs, cfg, pools, todo, drained, allowed, left)
    requires n in todo && n in obs && obs[n].pool in pools && !IsEligible(obs[n], cfg)
    ensures Balanced(obs, cfg, pools, todo - {n}, drained, allowed, left)
  {
    hide Eligible, Balance;
    forall p | p in pools
      ensures Balance(obs, cfg, p, todo - {n}, DrainedIn(drained, p), Get(allowed, p), Get(left, p))
    {
      EligibleAt(obs, cfg, p, n);
      BalanceSkips(obs, cfg, p, todo, DrainedIn(drained, p), Get(allowed, p), Get(left, p), n);
    }
  }

  /** A node the allowance still spares. */
  lemma BalancedSpares(obs: Tracked, cfg: Config, pools: map<string, Snapshot>, todo: set<Id>,
                       drained: map<string, set<Id>>,
                       allowed: map<string, int>, left: map<string, int>, n: Id)
    requires Balanced(obs, cfg, pools, todo, drained, allowed, left)
    requires n in todo && n in obs && obs[n].pool in pools && IsEligible(obs[n], cfg) && Get(left, obs[n].pool) > 0
    ensures Balanced(obs, cfg, pools, todo - {n}, drained, allowed, left[obs[n].pool := Get(left, obs[n].pool) - 1])
  {
    hide Eligible, Balance;
    forall p | p in pools
      ensures Balance(obs, cfg, p, todo - {n}, DrainedIn(drained, p), Get(allowed, p),
                      Get(left[obs[n].pool := Get(left, obs[n].pool) - 1], p))
    {
      EligibleAt(obs, cfg, p, n);
      if n in Eligible(obs, cfg, p) {
        BalanceVisits(obs, cfg, p, todo, DrainedIn(drained, p), Get(allowed, p), Get(left, p), n);
      } else {
        BalanceSkips(obs, cfg, p, todo, DrainedIn(drained, p), Get(allowed, p), Get(left, p), n);
      }
    }
  }

  /** A node beyond the allowance. */
  lemma BalancedDrains(obs: Tracked, cfg: Config, pools: map<string, Snapshot>, todo: set<Id>,
                       drained: map<string, set<Id>>,
                       allowed: map<string, int>, left: map<string, int>, n: Id)
    requires Balanced(obs, cfg, pools, todo, drained, allowed, left)
    requires n in todo && n in obs && obs[n].pool in pools && IsEligible(obs[n], cfg) && Get(left, obs[n].pool) <= 0
    ensures Balanced(obs, cfg, pools, todo - {n}, OneMore(drained, obs[n].pool, n), allowed, left)
  {
    hide Eligible, Balance;
    forall p | p in pools
      ensures Balance(obs, cfg, p, todo - {n}, DrainedIn(OneMore(drained, obs[n].pool, n), p),
                      Get(allowed, p), Get(left, p))
    {
      EligibleAt(obs, cfg, p, n);
      if n in Eligible(obs, cfg, p) {
        BalanceVisits(obs, cfg, p, todo, DrainedIn(drained, p), Get(allowed, p), Get(left, p), n);
      } else {
        BalanceSkips(obs, cfg, p, todo, DrainedIn(drained, p), Get(allowed, p), Get(left, p), n);
      }
    }
  }

  lemma MarkOneMore(obs: Tracked, drained: map<string, set<Id>>, t: Tracked, n: Id)
    requires IsMarked(obs, drained, t) && n in obs && t[n] == obs[n]
    ensures IsMarked(obs, OneMore(drained, obs[n].pool, n), t[n := obs[n].(collecting := true)])
  {
  }

  lemma ForgottenIsObserved(t: Tracked, pools: map<string, Snapshot>, current: set<Id>, seen: Tracked, obs: Tracked)
    requires ObservedPart(t, pools, {}, current, seen)
    requires forall n :: n in obs <==> n in seen && n in current
    requires forall n :: n in obs ==> obs[n] == seen[n]
    ensures Observed(t, pools, obs)
  {
  }

  lemma AllRightlyDrained(cfg: Config, pools: map<string, Snapshot>, obs: Tracked, allowed: map<string, int>,
                          warmed: map<string, int>, drained: map<string, set<Id>>, left: map<string, int>)
    requires Budgeted(cfg, pools, {}, allowed, warmed) && Balanced(obs, cfg, pools, {}, drained, allowed, left)
    ensures forall p :: p in pools ==> RightlyDrained(obs, cfg, p, pools[p], DrainedIn(drained, p))
  {
  }

  lemma MarkedIs(obs: Tracked, drained: map<string, set<Id>>, t: Tracked)
    requires IsMarked(obs, drained, t)
    ensures t == Marked(obs, drained)
  {
  }

  lemma DrainSettles(cfg: Config, t: Tracked, pools: map<string, Snapshot>, obs: Tracked, allowed: map<string, int>,
                     warmed: map<string, int>, drained: map<string, set<Id>>, left: map<string, int>, t': Tracked)
    requires Observed(t, pools, obs) && Budgeted(cfg, pools, {}, allowed, warmed)
    requires IsMarked(obs, drained, t') && Balanced(obs, cfg, pools, {}, drained, allowed, left)
    ensures CycleStep(cfg, t, Cycle(pools, warmed, drained), t')
  {
    hide Observed, Marked, IsMarked, Balance, RightlyDrained, Shortage, Allowed, DrainedIn;
    MarkedIs(obs, drained, t');
    AllRightlyDrained(cfg, pools, obs, allowed, warmed, drained, left);
    assert CycleVia(cfg, t, Cycle(pools, warmed, drained), obs, t');
  }

  class GarbageCollector {
    var nodesToGC: Tracked

    constructor ()
      ensures nodesToGC == map[]
    {
      nodesToGC := map[];
    }

    /** The loop over the counted nodes of one pool. */
    method ObserveCounted(name: string, byNode: map<Id, nat>) returns (busy: nat)
      modifies this
      ensures nodesToGC == Observe(old(nodesToGC), Zeros(byNode), name)
      ensures busy == |byNode.Keys - Zeros(byNode)|
    {
      ghost var t, idle, busySeen: set<Id> := nodesToGC, Zeros(byNode), {};
      assert forall n :: n in byNode ==> (n in idle <==> byNode[n] == 0);
      hide Observe, Zeros;
      var todo := byNode.Keys;
      busy := 0;
      while todo != {}
        invariant forall n :: n in todo ==> n in byNode
        invariant forall n :: n in nodesToGC <==> n in t || (n in idle && n !in todo)
        invariant forall n :: n in nodesToGC ==>
                    nodesToGC[n] == if n in idle && n !in todo then SeenAgain(t, n, name) else t[n]
        invariant forall n :: n in busySeen <==> n in byNode && n !in idle && n !in todo
        invariant busy == |busySeen|
      {
        var n :| n in todo;
        if byNode[n] == 0 {
          var info := if n in nodesToGC then nodesToGC[n] else GCInfo("", 0, false);
          nodesToGC := nodesToGC[n := GCInfo(name, info.seen + 1, info.collecting)];
        } else {
          busy := busy + 1;
          busySeen := busySeen + {n};
        }
        todo := todo - {n};
      }
      ObserveIs(t, nodesToGC, idle, name);
      assert busySeen == byNode.Keys - idle;
    }

    /** Count the idle nodes of one pool once more. */
    method ObservePool(name: string, p: Snapshot) returns (total: nat, busy: nat)
      modifies this
      ensures nodesToGC == Observe(old(nodesToGC), Idle(p), name)
      ensures total == |p.nodes| && busy == BusyCount(p)
    {
      var byNode;
      byNode, total := CountAllocs(p);
      assert Zeros(byNode) == Idle(p) && byNode.Keys - Zeros(byNode) == p.allocs.Values;
      busy := ObserveCounted(name, byNode);
    }

    /** The first loop over the pools: count idle nodes, evaluate the allowances, start warm-ups. */
    method ObserveAll(cfg: Config, pools: map<string, Snapshot>)
      returns (current: set<Id>, allowed: map<string, int>, warmed: map<string, int>)
      requires DisjointPools(pools)
      modifies this
      ensures ObservedPart(old(nodesToGC), pools, {}, current, nodesToGC)
      ensures Budgeted(cfg, pools, {}, allowed, warmed)
    {
      hide Idle, BusyCount, Observe, ObservedPart, Budgeted;
      ghost var t := nodesToGC;
      current, allowed, warmed := {}, map[], map[];
      NothingObserved(cfg, t, pools);
      var todo := pools.Keys;
      while todo != {}
        invariant todo <= pools.Keys
        invariant ObservedPart(t, pools, todo, current, nodesToGC)
        invariant Budgeted(cfg, pools, todo, allowed, warmed)
      {
        var name :| name in todo;
        var p := pools[name];
        ghost var before := nodesToGC;
        var total, busy := ObservePool(name, p);
        ObservedExtends(t, pools, todo, current, before, name);
        current := current + Idle(p);
        allowed, warmed := BudgetPool(cfg, pools, todo, name, total, busy, allowed, warmed);
        todo := todo - {name};
      }
    }

    /** Forget the nodes that were not idle in this cycle. */
    method Forget(current: set<Id>)
      modifies this
      ensures forall n :: n in nodesToGC <==> n in old(nodesToGC) && n in current
      ensures forall n :: n in nodesToGC ==> nodesToGC[n] == old(nodesToGC)[n]
    {
      var cleanup, todo: set<Id> := {}, nodesToGC.Keys;
      while todo != {}
        invariant forall n :: n in cleanup <==> n in nodesToGC && n !in current && n !in todo
      {
        var n :| n in todo;
        if n !in current {
          cleanup := cleanup + {n};
        }
        todo := todo - {n};
      }
      nodesToGC := nodesToGC - cleanup;
    }

    /** Drain the eligible nodes that no pool's allowance spares. */
    method DrainIdle(cfg: Config, ghost pools: map<string, Snapshot>, allowed: map<string, int>)
      returns (drained: map<string, set<Id>>, left: map<string, int>)
      requires forall n :: n in nodesToGC ==> nodesToGC[n].pool in pools
      modifies this
      ensures IsMarked(old(nodesToGC), drained, nodesToGC)
      ensures Balanced(old(nodesToGC), cfg, pools, {}, drained, allowed, left)
    {
      hide IsMarked, Balanced, DrainedIn;
      ghost var obs := nodesToGC;
      drained, left := map[], allowed;
      var todo := nodesToGC.Keys;
      NothingDrained(obs, cfg, pools, todo, allowed);
      while todo != {}
        invariant forall n :: n in todo ==> n in obs && n in nodesToGC && nodesToGC[n] == obs[n]
        invariant IsMarked(obs, drained, nodesToGC)
        invariant Balanced(obs, cfg, pools, todo, drained, allowed, left)
      {
        var n :| n in todo;
        var info := nodesToGC[n];
        if info.seen >= cfg.ciclesToGc && !info.collecting {
          if Get(left, info.pool) > 0 {
            BalancedSpares(obs, cfg, pools, todo, drained, allowed, left, n);
            left := left[info.pool := left[info.pool] - 1];
          } else {
            BalancedDrains(obs, cfg, pools, todo, drained, allowed, left, n);
            MarkOneMore(obs, drained, nodesToGC, n);
            drained := OneMore(drained, info.pool, n);
            nodesToGC := nodesToGC[n := info.(collecting := true)];
          }
        } else {
          BalancedSkips(obs, cfg, pools, todo, drained, allowed, left, n);
        }
        todo := todo - {n};
      }
    }

    /** One garbage collection cycle over the pools. */
    method RunCycle(cfg: Config, pools: map<string, Snapshot>) returns (warmed: map<string, int>,
                    drained: map<string, set<Id>>)
      requires DisjointPools(pools)
      modifies this
      ensures CycleStep(cfg, old(nodesToGC), Cycle(pools, warmed, drained), nodesToGC)
    {
      ghost var t := nodesToGC;
      var current, allowed, left;
      current, allowed, warmed := ObserveAll(cfg, pools);
      ghost var seen := nodesToGC;
      Forget(current);
      ghost var obs := nodesToGC;
      ForgottenIsObserved(t, pools, current, seen, obs);
      drained, left := DrainIdle(cfg, pools, allowed);
      DrainSettles(cfg, t, pools, obs, allowed, warmed, drained, left, nodesToGC);
    }
  }
}
