/**
 scalingAction.go: a worker turns one scaling event into a plan per pool, estimating one unallocated task
 group after the other and offering the nodes planned so far to the next estimate.
 */
module ScalingWorker {
  import opened Ids
  import opened Cluster
  import opened BinPacking

  /** The part of a pool the estimate reads: the size of a new node and what is already planned. */
  datatype PoolView = PoolView(template: Res, nodes: seq<Node>, allocs: seq<Alloc>)

  datatype Plan = Plan(en: seq<Node>, ea: seq<Alloc>)

  datatype GroupSpec = GroupSpec(name: string, size: Res)

  /** A task group's unallocated copies and the pool chosen for it. */
  datatype Demand = Demand(pool: string, count: int)

  /** The plan fits on top of what the pool has planned, and every new node is there for some copy. */
  ghost predicate Sound(v: PoolView, p: Plan) {
    && DistinctNodes(v.nodes + p.en) && DistinctAllocs(v.allocs + p.ea)
    && (forall i :: 0 <= i < |p.en| ==> p.en[i].capacity == v.template && Hosts(p.en[i], p.ea))
    && (forall i :: 0 <= i < |p.ea| ==> p.ea[i].nodeId in NodeIds(v.nodes + p.en))
    && NoOvercommit(v.nodes + p.en, p.ea, v.allocs + p.ea)
  }

  /** How many copies of the group the plan holds. */
  function Placed(ea: seq<Alloc>, group: TaskGroup): nat {
    if ea == [] then 0 else Placed(ea[..|ea| - 1], group) + if ea[|ea| - 1].group == group then 1 else 0
  }

  lemma {:induction false} PlacedConcat(a: seq<Alloc>, b: seq<Alloc>, group: TaskGroup)
    ensures Placed(a + b, group) == Placed(a, group) + Placed(b, group)
  {
    if b == [] {
      assert a + b == a;
    } else {
      assert (a + b)[..|a + b| - 1] == a + b[..|b| - 1];
      PlacedConcat(a, b[..|b| - 1], group);
    }
  }

  lemma {:induction false} PlacedUniform(ea: seq<Alloc>, own: TaskGroup, group: TaskGroup)
    requires forall i :: 0 <= i < |ea| ==> ea[i].group == own
    ensures Placed(ea, group) == if group == own then |ea| else 0
  {
    if ea != [] {
      PlacedUniform(ea[..|ea| - 1], own, group);
    }
  }

  /** Allocations elsewhere leave the node as it was. */
  lemma {:induction false} FreeUnhosted(node: Node, plan: seq<Alloc>, ea: seq<Alloc>)
    requires !Hosts(node, ea)
    ensures Free(node, plan + ea) == Free(node, plan)
  {
    if ea == [] {
      assert plan + ea == plan;
    } else {
      var front := ea[..|ea| - 1];
      assert plan + ea == (plan + front) + [ea[|ea| - 1]];
      FreeAppend(node, plan + front, ea[|ea| - 1]);
      FreeUnhosted(node, plan, front);
    }
  }

  lemma HostsConcat(node: Node, a: seq<Alloc>, b: seq<Alloc>)
    ensures Hosts(node, a + b) <==> Hosts(node, a) || Hosts(node, b)
  {
    if Hosts(node, a) {
      var i :| 0 <= i < |a| && a[i].nodeId == node.id;
      assert (a + b)[i].nodeId == node.id;
    }
    if Hosts(node, b) {
      var i :| 0 <= i < |b| && b[i].nodeId == node.id;
      assert (a + b)[|a| + i].nodeId == node.id;
    }
  }

  lemma CapacityExtends(nodes: seq<Node>, en: seq<Node>, plan: seq<Alloc>, ea0: seq<Alloc>, ea: seq<Alloc>)
    requires NoOvercommit(nodes, ea0, plan)
    requires forall i :: 0 <= i < |en| ==> Hosts(en[i], ea)
    requires NoOvercommit(nodes + en, ea, plan + ea)
    ensures NoOvercommit(nodes + en, ea0 + ea, plan + ea)
  {
    forall j | 0 <= j < |nodes + en| && Hosts((nodes + en)[j], ea0 + ea)
      ensures WithinCapacity((nodes + en)[j], plan + ea)
    {
      var node := (nodes + en)[j];
      HostsConcat(node, ea0, ea);
      if !Hosts(node, ea) {
        assert node == nodes[j];
        FreeUnhosted(node, plan, ea);
        FreeIsRest(node, plan);
        FreeIsRest(node, plan + ea);
      }
    }
  }

  /** One more estimate on top of a sound plan keeps it sound. */
  lemma SoundExtends(v: PoolView, p: Plan, en: seq<Node>, ea: seq<Alloc>)
    requires Sound(v, p)
    requires DistinctNodes(v.nodes + p.en + en) && DistinctAllocs(v.allocs + p.ea + ea)
    requires forall i :: 0 <= i < |en| ==> en[i].capacity == v.template && Hosts(en[i], ea)
    requires forall i :: 0 <= i < |ea| ==> ea[i].nodeId in NodeIds(v.nodes + p.en + en)
    requires NoOvercommit(v.nodes + p.en + en, ea, v.allocs + p.ea + ea)
    ensures Sound(v, Plan(p.en + en, p.ea + ea))
  {
    var nodes, allocs := v.nodes + p.en, v.allocs + p.ea;
    assert v.nodes + (p.en + en) == nodes + en && v.allocs + (p.ea + ea) == allocs + ea;
    CapacityExtends(nodes, en, allocs, p.ea, ea);
    forall i | 0 <= i < |p.en + en| ensures Hosts((p.en + en)[i], p.ea + ea) {
      HostsConcat((p.en + en)[i], p.ea, ea);
    }
    forall id | id in NodeIds(nodes) ensures id in NodeIds(nodes + en) {
      var i :| 0 <= i < |nodes| && nodes[i].id == id;
      assert (nodes + en)[i].id == id;
    }
  }

  lemma EmptyPlanIsSound(v: PoolView)
    requires DistinctNodes(v.nodes) && DistinctAllocs(v.allocs)
    ensures Sound(v, Plan([], []))
  {
  }

  /** With nothing planned before, a sound plan's nodes are exactly the nodes its copies sit on. */
  lemma SoundIsClosed(v: PoolView, p: Plan)
    requires Sound(v, p) && v.nodes == []
    ensures NodeIds(p.en) == HostIds(p.ea)
  {
  }

  /** The task group with the name, or the last one when there is none. */
  method FindGroup(groups: seq<GroupSpec>, name: string) returns (tg: GroupSpec)
    requires groups != []
    ensures tg in groups
    ensures (exists g :: g in groups && g.name == name) ==> tg.name == name
  {
    tg := groups[0];
    for i := 0 to |groups|
      invariant tg in groups && forall j :: 0 <= j < i ==> groups[j].name != name
    {
      tg := groups[i];
      if tg.name == name {
        return;
      }
    }
  }

  /** The event can be estimated: its groups exist, each fits an empty node of its pool. */
  ghost predicate Estimable(pools: map<string, PoolView>, groups: seq<GroupSpec>, demands: map<string, Demand>) {
    && (forall n :: n in demands ==> demands[n].pool in pools && exists g :: g in groups && g.name == n)
    && (forall g, n :: g in groups && n in demands && g.name == n ==>
          Proper(g.size) && Fits(g.size, pools[demands[n].pool].template))
    && (forall q :: q in pools ==> DistinctNodes(pools[q].nodes) && DistinctAllocs(pools[q].allocs))
  }

  /** The copies of the demanded groups are where they belong, apart from the groups still to do. */
  ghost predicate PlacedRight(plans: map<string, Plan>, ns: string, job: string, demands: map<string, Demand>,
                              todo: set<string>)
  {
    && (forall n :: n in demands && n !in todo ==> demands[n].pool in plans)
    && forall n, q :: n in demands && q in plans ==>
         Placed(plans[q].ea, TaskGroup(ns, job, n))
           == if n !in todo && q == demands[n].pool then Max(0, demands[n].count) else 0
  }

  lemma PlacedExtends(plans: map<string, Plan>, ns: string, job: string, demands: map<string, Demand>,
                      todo: set<string>,
                      n: string, p: Plan, en: seq<Node>, ea: seq<Alloc>)
    requires PlacedRight(plans, ns, job, demands, todo) && n in todo && n in demands
    requires p == if demands[n].pool in plans then plans[demands[n].pool] else Plan([], [])
    requires |ea| == Max(0, demands[n].count) && forall i :: 0 <= i < |ea| ==> ea[i].group == TaskGroup(ns, job, n)
    ensures PlacedRight(plans[demands[n].pool := Plan(p.en + en, p.ea + ea)], ns, job, demands, todo - {n})
  {
    forall m: string
      ensures Placed(p.ea + ea, TaskGroup(ns, job, m))
           == Placed(p.ea, TaskGroup(ns, job, m)) + if m == n then |ea| else 0
    {
      PlacedConcat(p.ea, ea, TaskGroup(ns, job, m));
      PlacedUniform(ea, TaskGroup(ns, job, n), TaskGroup(ns, job, m));
    }
  }

  // ---- Every estimate is minimal ----

  /** One estimate of the fold: the task group, its unallocated copies, and what the estimate added. */
  datatype Estimate = Estimate(tg: GroupSpec, count: int, en: seq<Node>, ea: seq<Alloc>)

  function PlanOf(ests: seq<Estimate>): Plan {
    if ests == [] then Plan([], [])
    else
      var front, last := PlanOf(ests[..|ests| - 1]), ests[|ests| - 1];
      Plan(front.en + last.en, front.ea + last.ea)
  }

  /** On top of the pool and of what the event has planned so far, no fewer new nodes would do. */
  ghost predicate Minimal(v: PoolView, before: Plan, e: Estimate) {
    && Proper(e.tg.size) && Fits(e.tg.size, v.template)
    && |e.en|
       == Needed(e.count, Slack(e.tg.size, v.nodes + before.en, v.allocs + before.ea), Copies(e.tg.size, v.template))
  }

  ghost predicate EachMinimal(v: PoolView, ests: seq<Estimate>) {
    forall i :: 0 <= i < |ests| ==> Minimal(v, PlanOf(ests[..i]), ests[i])
  }

  lemma MinimalSnoc(v: PoolView, ests: seq<Estimate>, e: Estimate)
    requires EachMinimal(v, ests) && Minimal(v, PlanOf(ests), e)
    ensures EachMinimal(v, ests + [e])
    ensures PlanOf(ests + [e]) == Plan(PlanOf(ests).en + e.en, PlanOf(ests).ea + e.ea)
  {
    hide Minimal;
    var more := ests + [e];
    assert more[..|ests|] == ests;
    forall i | 0 <= i < |more| ensures Minimal(v, PlanOf(more[..i]), more[i]) {
      assert i < |ests| ==> more[..i] == ests[..i];
    }
  }

  /** Each estimate is for a demand on its pool that is not still to do. */
  ghost predicate Listed(ests: map<string, seq<Estimate>>, groups: seq<GroupSpec>, demands: map<string, Demand>,
                         todo: set<string>)
  {
    forall q, i :: q in ests && 0 <= i < |ests[q]| ==>
      var e := ests[q][i];
      e.tg in groups && e.tg.name in demands && e.tg.name !in todo && demands[e.tg.name] == Demand(q, e.count)
  }

  ghost predicate NoneTwice(ests: map<string, seq<Estimate>>) {
    forall q, i, j :: q in ests && 0 <= i < j < |ests[q]| ==> ests[q][i].tg.name != ests[q][j].tg.name
  }

  ghost predicate NoneMissing(ests: map<string, seq<Estimate>>, demands: map<string, Demand>, todo: set<string>) {
    forall n :: n in demands && n !in todo ==> demands[n].pool in ests && Estimates(ests[demands[n].pool], n)
  }

  /** The estimates of the pools: each for a demand on its pool, no demand twice, none missing but those to do. */
  ghost predicate Covers(ests: map<string, seq<Estimate>>, groups: seq<GroupSpec>, demands: map<string, Demand>,
                         todo: set<string>)
  {
    Listed(ests, groups, demands, todo) && NoneTwice(ests) && NoneMissing(ests, demands, todo)
  }

  ghost predicate Estimates(ests: seq<Estimate>, name: string) {
    exists i :: 0 <= i < |ests| && ests[i].tg.name == name
  }

  function Get(ests: map<string, seq<Estimate>>, q: string): seq<Estimate> {
    if q in ests then ests[q] else []
  }

  lemma CoversExtends(ests: map<string, seq<Estimate>>, groups: seq<GroupSpec>, demands: map<string, Demand>,
                      todo: set<string>,
                      e: Estimate, q: string)
    requires Covers(ests, groups, demands, todo)
    requires e.tg in groups && e.tg.name in demands && e.tg.name in todo && demands[e.tg.name] == Demand(q, e.count)
    ensures Covers(ests[q := Get(ests, q) + [e]], groups, demands, todo - {e.tg.name})
  {
    ListedExtends(ests, groups, demands, todo, e, q);
    NoneMissingExtends(ests, demands, todo, e, q);
  }

  lemma ListedExtends(ests: map<string, seq<Estimate>>, groups: seq<GroupSpec>, demands: map<string, Demand>,
                      todo: set<string>, e: Estimate, q: string)
    requires Listed(ests, groups, demands, todo) && NoneTwice(ests)
    requires e.tg in groups && e.tg.name in demands && e.tg.name in todo && demands[e.tg.name] == Demand(q, e.count)
    ensures Listed(ests[q := Get(ests, q) + [e]], groups, demands, todo - {e.tg.name})
    ensures NoneTwice(ests[q := Get(ests, q) + [e]])
  {
  }

  lemma NoneMissingExtends(ests: map<string, seq<Estimate>>, demands: map<string, Demand>, todo: set<string>,
                           e: Estimate, q: string)
    requires NoneMissing(ests, demands, todo) && e.tg.name in demands && demands[e.tg.name].pool == q
    ensures NoneMissing(ests[q := Get(ests, q) + [e]], demands, todo - {e.tg.name})
  {
    var more := ests[q := Get(ests, q) + [e]];
    EstimatesAppend(Get(ests, q), e, e.tg.name);
    forall n | n in demands && n !in todo - {e.tg.name}
      ensures demands[n].pool in more && Estimates(more[demands[n].pool], n)
    {
      if n in todo {
        assert n == e.tg.name;
      } else {
        EstimatesAppend(ests[demands[n].pool], e, n);
      }
    }
  }

  lemma EstimatesAppend(es: seq<Estimate>, e: Estimate, n: string)
    ensures Estimates(es + [e], n) <==> Estimates(es, n) || e.tg.name == n
  {
    assert (es + [e])[|es|] == e;
    if Estimates(es, n) {
      var i :| 0 <= i < |es| && es[i].tg.name == n;
      assert (es + [e])[i].tg.name == n;
    }
  }

  /** The plans are the estimates put together, and each estimate was minimal when it was made. */
  ghost predicate Estimated(pools: map<string, PoolView>, plans: map<string, Plan>, ests: map<string, seq<Estimate>>) {
    && ests.Keys == plans.Keys <= pools.Keys
    && forall q :: q in plans ==> plans[q] == PlanOf(ests[q]) && EachMinimal(pools[q], ests[q])
  }

  lemma NoEstimates(v: PoolView)
    ensures EachMinimal(v, []) && PlanOf([]) == Plan([], [])
  {
  }

  lemma EstimatedExtends(pools: map<string, PoolView>, plans: map<string, Plan>, ests: map<string, seq<Estimate>>,
                         q: string,
                         p: Plan, e: Estimate)
    requires Estimated(pools, plans, ests) && q in pools
    requires p == (if q in plans then plans[q] else Plan([], [])) && Minimal(pools[q], p, e)
    ensures Estimated(pools, plans[q := Plan(p.en + e.en, p.ea + e.ea)], ests[q := Get(ests, q) + [e]])
  {
    hide Minimal, EachMinimal, PlanOf;
    NoEstimates(pools[q]);
    MinimalSnoc(pools[q], Get(ests, q), e);
  }

  lemma OneEstimate(ests: map<string, seq<Estimate>>, groups: seq<GroupSpec>, demands: map<string, Demand>, n: string)
    requires Covers(ests, groups, demands, {})
    requires n in demands && forall m :: m in demands && m != n ==> demands[m].pool != demands[n].pool
    ensures demands[n].pool in ests && |ests[demands[n].pool]| == 1
    ensures var e := ests[demands[n].pool][0]; e.tg in groups && e.tg.name == n && e.count == demands[n].count
  {
    var es := ests[demands[n].pool];
    assert Estimates(es, n);
    forall j | 0 <= j < |es| ensures es[j].tg.name == n {
      assert demands[es[j].tg.name].pool == demands[n].pool;
    }
    assert es[0].tg.name == es[|es| - 1].tg.name;
  }

  lemma OneIsMinimal(v: PoolView, e: Estimate)
    requires EachMinimal(v, [e])
    ensures PlanOf([e]).en == e.en && Minimal(v, Plan([], []), e)
  {
    var es := [e];
    assert es[..0] == [];
    assert Minimal(v, PlanOf(es[..0]), es[0]);
  }

  /** A pool that only one task group wants gets exactly the nodes needed beyond what it has planned. */
  lemma SingleDemandIsMinimal(v: PoolView, groups: seq<GroupSpec>, demands: map<string, Demand>,
                              ests: map<string, seq<Estimate>>, n: string) returns (tg: GroupSpec)
    requires Covers(ests, groups, demands, {})
    requires n in demands && forall m :: m in demands && m != n ==> demands[m].pool != demands[n].pool
    ensures tg in groups && tg.name == n && demands[n].pool in ests
    ensures EachMinimal(v, ests[demands[n].pool]) ==>
              && Proper(tg.size) && Fits(tg.size, v.template)
              && |PlanOf(ests[demands[n].pool]).en|
                 == Needed(demands[n].count, Slack(tg.size, v.nodes, v.allocs), Copies(tg.size, v.template))
  {
    OneEstimate(ests, groups, demands, n);
    hide Covers, EachMinimal, PlanOf, Needed, Slack, Copies;
    var es := ests[demands[n].pool];
    tg := es[0].tg;
    if EachMinimal(v, es) {
      assert es == [es[0]];
      OneIsMinimal(v, es[0]);
      assert v.nodes + [] == v.nodes && v.allocs + [] == v.allocs;
    }
  }

  // ---- The fold ----

  function PlanFor(plans: map<string, Plan>, q: string): Plan {
    if q in plans then plans[q] else Plan([], [])
  }

  /** The plans so far, apart from the groups still to do. */
  ghost predicate Folded(pools: map<string, PoolView>, ns: string, job: string, groups: seq<GroupSpec>,
                         demands: map<string, Demand>,
                         todo: set<string>, plans: map<string, Plan>, ests: map<string, seq<Estimate>>)
  {
    && (forall q :: q in plans ==> q in pools && Sound(pools[q], plans[q]))
    && PlacedRight(plans, ns, job, demands, todo)
    && Estimated(pools, plans, ests) && Covers(ests, groups, demands, todo)
  }

  lemma NothingFolded(pools: map<string, PoolView>, ns: string, job: string, groups: seq<GroupSpec>,
                      demands: map<string, Demand>)
    ensures Folded(pools, ns, job, groups, demands, demands.Keys, map[], map[])
  {
  }

  lemma PlanForIsSound(pools: map<string, PoolView>, ns: string, job: string, groups: seq<GroupSpec>,
                       demands: map<string, Demand>,
                       todo: set<string>, plans: map<string, Plan>, ests: map<string, seq<Estimate>>, q: string)
    requires Estimable(pools, groups, demands) && Folded(pools, ns, job, groups, demands, todo, plans, ests)
    requires q in pools
    ensures Sound(pools[q], PlanFor(plans, q))
  {
    EmptyPlanIsSound(pools[q]);
  }

  lemma FoldExtends(pools: map<string, PoolView>, ns: string, job: string, groups: seq<GroupSpec>,
                    demands: map<string, Demand>,
                    todo: set<string>, plans: map<string, Plan>, ests: map<string, seq<Estimate>>, p: Plan,
                    e: Estimate, q: string)
    requires Folded(pools, ns, job, groups, demands, todo, plans, ests)
    requires e.tg in groups && e.tg.name in todo && e.tg.name in demands && demands[e.tg.name] == Demand(q, e.count)
    requires q in pools && p == PlanFor(plans, q) && Minimal(pools[q], p, e)
    requires Sound(pools[q], Plan(p.en + e.en, p.ea + e.ea))
    requires |e.ea| == Max(0, e.count) && forall i :: 0 <= i < |e.ea| ==> e.ea[i].group == TaskGroup(ns, job, e.tg.name)
    ensures Folded(pools, ns, job, groups, demands, todo - {e.tg.name},
                   plans[q := Plan(p.en + e.en, p.ea + e.ea)], ests[q := Get(ests, q) + [e]])
  {
    hide Sound, PlacedRight, Minimal, Estimated, Covers, Get;
    PlacedExtends(plans, ns, job, demands, todo, e.tg.name, p, e.en, e.ea);
    EstimatedExtends(pools, plans, ests, q, p, e);
    CoversExtends(ests, groups, demands, todo, e, q);
  }

  /**
   The plans of one event: sound for every pool it touches, and exactly the demanded copies of every task
   group, in the pool chosen for it and nowhere else. Each plan is put together from one estimate per demand
   on its pool, every one of them minimal on top of those before it.
   */
  method PlanEvent(pools: map<string, PoolView>, ns: string, job: string, groups: seq<GroupSpec>,
                   demands: map<string, Demand>)
    returns (plans: map<string, Plan>, ghost ests: map<string, seq<Estimate>>)
    requires Estimable(pools, groups, demands)
    ensures forall q :: q in plans ==> q in pools && Sound(pools[q], plans[q])
    ensures PlacedRight(plans, ns, job, demands, {})
    ensures Estimated(pools, plans, ests) && Covers(ests, groups, demands, {})
  {
    plans, ests := map[], map[];
    var todo := demands.Keys;
    NothingFolded(pools, ns, job, groups, demands);
    while todo != {}
      invariant todo <= demands.Keys
      invariant Folded(pools, ns, job, groups, demands, todo, plans, ests)
    {
      hide Folded, NoOvercommit, Hosts, Copies, Free, Slack, Needed, NodeIds, DistinctNodes, DistinctAllocs;
      var n :| n in todo;
      var d := demands[n];
      var v := pools[d.pool];
      var tg := FindGroup(groups, n);
      PlanForIsSound(pools, ns, job, groups, demands, todo, plans, ests, d.pool);
      var p := PlanFor(plans, d.pool);
      var group := TaskGroup(ns, job, tg.name);
      var en, ea := EstimateRequiredNodes(v.nodes + p.en, v.allocs + p.ea, v.template, group, tg.size, d.count);
      SoundExtends(v, p, en, ea);
      ghost var e := Estimate(tg, d.count, en, ea);
      FoldExtends(pools, ns, job, groups, demands, todo, plans, ests, p, e, d.pool);
      plans := plans[d.pool := Plan(p.en + en, p.ea + ea)];
      ests := ests[d.pool := Get(ests, d.pool) + [e]];
      todo := todo - {n};
    }
  }
}
