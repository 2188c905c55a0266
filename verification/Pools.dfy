/**
 pool.go: a pool's real nodes and allocations, and the planned ("ephemeral") ones that Update adds, that
 real allocations consume and that cleanup takes away again. Each event is one atomic step here.
 */
module Pools {
  import opened Ids
  import opened Cluster
  import opened Lists
  import opened ScalingWorker

  datatype PoolState = PoolState(
    nodes: map<Id, Id>,    // node id -> instance id
    allocs: map<Id, Id>,   // allocation id -> node id
    en: seq<Node>,         // ephemeralnomadNodes
    ea: seq<Alloc>)        // ephemeralnomadAllocs

  datatype NodeEvent = NodeEvent(id: Id, instance: Id, down: bool)

  datatype AllocEvent = AllocEvent(id: Id, group: TaskGroup, nodeId: Id, desiredRun: bool, active: bool)

  const NODE_KEY: Node -> Id := (n: Node) => n.id
  const ALLOC_KEY: Alloc -> Id := (a: Alloc) => a.id

  // ---- What the events do ----

  predicate AcceptsNode(p: PoolState, ev: NodeEvent, providerSays: bool) {
    ev.id in p.nodes || providerSays
  }

  function OnNode(p: PoolState, ev: NodeEvent): PoolState {
    if ev.down then
      p.(nodes := p.nodes - {ev.id}, allocs := map a | a in p.allocs && p.allocs[a] != ev.id :: p.allocs[a])
    else p.(nodes := p.nodes[ev.id := ev.instance])
  }

  predicate AcceptsAlloc(p: PoolState, ev: AllocEvent) {
    ev.nodeId in p.nodes
  }

  predicate Wanted(ev: AllocEvent) {
    ev.desiredRun && ev.active
  }

  /** The first planned allocation of the task group. */
  function FirstMatch(ea: seq<Alloc>, group: TaskGroup): (r: Option<nat>)
    ensures r.Some? ==> r.value < |ea| && ea[r.value].group == group
    ensures forall i :: 0 <= i < (if r.Some? then r.value else |ea|) ==> ea[i].group != group
  {
    if ea == [] then None
    else if ea[0].group == group then Some(0)
    else match FirstMatch(ea[1..], group)
         case Some(k) => Some(k + 1)
         case None => None
  }

  /** The planned allocations without the first one of the task group. */
  function Unmatched(ea: seq<Alloc>, group: TaskGroup): seq<Alloc> {
    match FirstMatch(ea, group)
    case Some(k) => ea[..k] + ea[k + 1..]
    case None => ea
  }

  /** The nodes without the first one outside the set. */
  function DropFirstOutside(en: seq<Node>, hosts: set<Id>): seq<Node> {
    if en == [] then []
    else if en[0].id !in hosts then en[1..]
    else [en[0]] + DropFirstOutside(en[1..], hosts)
  }

  lemma {:induction false} DropFirstOutsideNone(en: seq<Node>, hosts: set<Id>)
    requires forall i :: 0 <= i < |en| ==> en[i].id in hosts
    ensures DropFirstOutside(en, hosts) == en
  {
    if en != [] {
      DropFirstOutsideNone(en[1..], hosts);
    }
  }

  lemma {:induction false} DropFirstOutsideAt(en: seq<Node>, hosts: set<Id>, k: nat)
    requires k < |en| && en[k].id !in hosts
    requires forall i :: 0 <= i < k ==> en[i].id in hosts
    ensures DropFirstOutside(en, hosts) == en[..k] + en[k + 1..]
  {
    if k > 0 {
      assert en[1..][k - 1] == en[k];
      DropFirstOutsideAt(en[1..], hosts, k - 1);
      assert en[..k] == [en[0]] + en[1..][..k - 1];
    }
  }

  /** A real allocation of the task group takes the place of a planned one. */
  function Consume(p: PoolState, group: TaskGroup): PoolState {
    var ea := Unmatched(p.ea, group);
    p.(ea := ea, en := DropFirstOutside(p.en, HostIds(ea)))
  }

  /** What an allocation event does to the real allocations. */
  function Recorded(p: PoolState, ev: AllocEvent): PoolState {
    p.(allocs := if Wanted(ev) then p.allocs[ev.id := ev.nodeId] else p.allocs - {ev.id})
  }

  function OnAlloc(p: PoolState, ev: AllocEvent): PoolState {
    var q := Recorded(p, ev);
    if Wanted(ev) && ev.id !in p.allocs then Consume(q, ev.group) else q
  }

  /** Only an allocation that is wanted and was not there before uses up a reservation, and then just one. */
  lemma OnlyNewUseUp(p: PoolState, ev: AllocEvent)
    ensures var q := OnAlloc(p, ev);
            if ev.desiredRun && ev.active && ev.id !in p.allocs
            then q.en == Consume(p, ev.group).en && q.ea == Consume(p, ev.group).ea
                 && Fulfilled(p, ev) == UsedUp(p, ev.group)
            else q.en == p.en && q.ea == p.ea && Fulfilled(p, ev) == None
  {
  }

  /** The id of the planned allocation that one more real allocation of the task group replaces. */
  function UsedUp(p: PoolState, group: TaskGroup): Option<Id> {
    match FirstMatch(p.ea, group)
    case Some(k) => Some(p.ea[k].id)
    case None => None
  }

  /** The id of the planned allocation that the event fulfils, which the pool publishes. */
  function Fulfilled(p: PoolState, ev: AllocEvent): Option<Id> {
    if Wanted(ev) && ev.id !in p.allocs then UsedUp(p, ev.group) else None
  }

  /** The nodes are tried in order, and the first one outside the set goes. */
  lemma {:induction false} DropMeaning(en: seq<Node>, hosts: set<Id>) returns (m: nat)
    ensures m <= |en| && forall i :: 0 <= i < m ==> en[i].id in hosts
    ensures m < |en| ==> en[m].id !in hosts && DropFirstOutside(en, hosts) == en[..m] + en[m + 1..]
    ensures m == |en| ==> DropFirstOutside(en, hosts) == en
  {
    m := 0;
    if en != [] && en[0].id in hosts {
      var k := DropMeaning(en[1..], hosts);
      m := k + 1;
      assert k < |en[1..]| ==> [en[0]] + (en[1..][..k] + en[1..][k + 1..]) == en[..m] + en[m + 1..];
    }
  }

  /**
   A real allocation takes the place of the oldest planned one of its task group, which is published; of the
   planned nodes the first one goes that carries none of the others; nothing else changes.
   */
  lemma ConsumeMeaning(p: PoolState, group: TaskGroup) returns (k: nat, m: nat)
    ensures k <= |p.ea| && forall i :: 0 <= i < k ==> p.ea[i].group != group
    ensures k == |p.ea| ==> Consume(p, group).ea == p.ea && UsedUp(p, group) == None
    ensures k < |p.ea| ==>
              && p.ea[k].group == group && Consume(p, group).ea == p.ea[..k] + p.ea[k + 1..]
              && UsedUp(p, group) == Some(p.ea[k].id)
    ensures var q := Consume(p, group);
            && q.nodes == p.nodes && q.allocs == p.allocs
            && m <= |p.en| && (forall i :: 0 <= i < m ==> p.en[i].id in HostIds(q.ea))
            && (m == |p.en| ==> q.en == p.en)
            && (m < |p.en| ==> p.en[m].id !in HostIds(q.ea) && q.en == p.en[..m] + p.en[m + 1..])
  {
    k := match FirstMatch(p.ea, group) case Some(i) => i case None => |p.ea|;
    m := DropMeaning(p.en, HostIds(Consume(p, group).ea));
  }

  function AddPlan(p: PoolState, plan: Plan): PoolState {
    p.(en := p.en + plan.en, ea := p.ea + plan.ea)
  }

  function RemovePlan(p: PoolState, plan: Plan): PoolState {
    p.(en := RemoveEach(p.en, plan.en, NODE_KEY), ea := RemoveEach(p.ea, plan.ea, ALLOC_KEY))
  }

  /** Every allocation of the pool sits on a node of the pool. */
  ghost predicate Hosted(p: PoolState) {
    forall a :: a in p.allocs ==> p.allocs[a] in p.nodes
  }

  /** Events keep every allocation on a node of the pool. */
  lemma EventsKeepHosted(p: PoolState, nev: NodeEvent, aev: AllocEvent)
    requires Hosted(p)
    ensures Hosted(OnNode(p, nev))
    ensures AcceptsAlloc(p, aev) ==> Hosted(OnAlloc(p, aev))
  {
  }

  // ---- The pool itself ----

  class Pool {
    var nomadNodes: map<Id, Id>
    var nomadAllocs: map<Id, Id>
    var ephemeralnomadNodes: seq<Node>
    var ephemeralnomadAllocs: seq<Alloc>

    ghost function State(): PoolState
      reads this
    {
      PoolState(nomadNodes, nomadAllocs, ephemeralnomadNodes, ephemeralnomadAllocs)
    }

    constructor ()
      ensures State() == PoolState(map[], map[], [], [])
    {
      nomadNodes, nomadAllocs, ephemeralnomadNodes, ephemeralnomadAllocs := map[], map[], [], [];
    }

    method TryNomadNode(ev: NodeEvent, providerSays: bool) returns (accepted: bool)
      modifies this
      ensures accepted <==> ev.id in old(nomadNodes) || providerSays
      ensures accepted == AcceptsNode(old(State()), ev, providerSays)
      ensures State() == if accepted then OnNode(old(State()), ev) else old(State())
    {
      var alreadyInPool := ev.id in nomadNodes;
      if alreadyInPool || providerSays {
        if !ev.down {
          nomadNodes := nomadNodes[ev.id := ev.instance];
        } else {
          nomadNodes := nomadNodes - {ev.id};
          var allocsToRemove, todo: set<Id> := {}, nomadAllocs.Keys;
          while todo != {}
            invariant todo <= nomadAllocs.Keys
            invariant allocsToRemove == set a | a in nomadAllocs && a !in todo && nomadAllocs[a] == ev.id
          {
            var a :| a in todo;
            todo := todo - {a};
            if nomadAllocs[a] == ev.id {
              allocsToRemove := allocsToRemove + {a};
            }
          }
          nomadAllocs := nomadAllocs - allocsToRemove;
        }
        return true;
      }
      return false;
    }

    /** The search loop: the reservation to use up, and the nodes the other reservations sit on. */
    method FindReservation(group: TaskGroup) returns (found: int, hosts: set<Id>)
      ensures found == match FirstMatch(ephemeralnomadAllocs, group) case Some(k) => k case None => -1
      ensures hosts == HostIds(Unmatched(ephemeralnomadAllocs, group))
    {
      ghost var ea := ephemeralnomadAllocs;
      ghost var first := match FirstMatch(ea, group) case Some(k) => k case None => |ea|;
      found, hosts := -1, {};
      var i := 0;
      while i < |ephemeralnomadAllocs|
        invariant 0 <= i <= |ea|
        invariant found == if i <= first then -1 else first
        invariant hosts == set j | 0 <= j < i && j != first :: ea[j].nodeId
      {
        if found < 0 && ephemeralnomadAllocs[i].group == group {
          found := i;
        } else {
          hosts := hosts + {ephemeralnomadAllocs[i].nodeId};
        }
        i := i + 1;
      }
      UnmatchedHosts(ea, group);
    }

    /** Drop the first planned node that no reservation needs. */
    method DropIdleNode(hosts: set<Id>)
      modifies `ephemeralnomadNodes
      ensures ephemeralnomadNodes == DropFirstOutside(old(ephemeralnomadNodes), hosts)
    {
      var i := 0;
      while i < |ephemeralnomadNodes|
        invariant 0 <= i <= |ephemeralnomadNodes| && ephemeralnomadNodes == old(ephemeralnomadNodes)
        invariant forall j :: 0 <= j < i ==> ephemeralnomadNodes[j].id in hosts
      {
        if ephemeralnomadNodes[i].id !in hosts {
          DropFirstOutsideAt(ephemeralnomadNodes, hosts, i);
          ephemeralnomadNodes := ephemeralnomadNodes[..i] + ephemeralnomadNodes[i + 1..];
          return;
        }
        i := i + 1;
      }
      DropFirstOutsideNone(ephemeralnomadNodes, hosts);
    }

    method TryNomadAllocation(ev: AllocEvent) returns (accepted: bool, published: Option<Id>)
      modifies this
      ensures accepted <==> ev.nodeId in old(nomadNodes)
      ensures accepted == AcceptsAlloc(old(State()), ev)
      ensures State() == if accepted then OnAlloc(old(State()), ev) else old(State())
      ensures published == if accepted then Fulfilled(old(State()), ev) else None
    {
      published := None;
      if ev.nodeId !in nomadNodes {
        return false, None;
      }
      if ev.desiredRun && ev.active {
        var isExisting := ev.id in nomadAllocs;
        nomadAllocs := nomadAllocs[ev.id := ev.nodeId];
        if !isExisting {
          var found, hosts := FindReservation(ev.group);
          DropIdleNode(hosts);
          if found >= 0 {
            published := Some(ephemeralnomadAllocs[found].id);
            ephemeralnomadAllocs := ephemeralnomadAllocs[..found] + ephemeralnomadAllocs[found + 1..];
          }
        }
      } else {
        nomadAllocs := nomadAllocs - {ev.id};
      }
      accepted := true;
    }

    /** The two clean-up loops of Update. */
    method Cleanup(plan: Plan)
      modifies `ephemeralnomadNodes, `ephemeralnomadAllocs
      ensures State() == RemovePlan(old(State()), plan)
    {
      ephemeralnomadAllocs := DeleteEach(ephemeralnomadAllocs, plan.ea, ALLOC_KEY);
      ephemeralnomadNodes := DeleteEach(ephemeralnomadNodes, plan.en, NODE_KEY);
    }

    /** Update up to the point where it waits; on a failed provider call it takes the plan back and ends. */
    method StartUpdate(plan: Plan, providerOk: bool) returns (waitCount: nat)
      modifies `ephemeralnomadNodes, `ephemeralnomadAllocs
      ensures State() == if providerOk then AddPlan(old(State()), plan)
                         else RemovePlan(AddPlan(old(State()), plan), plan)
      ensures waitCount == |old(nomadNodes)| + |old(ephemeralnomadNodes)| + |plan.en|
    {
      ephemeralnomadNodes := ephemeralnomadNodes + plan.en;
      ephemeralnomadAllocs := ephemeralnomadAllocs + plan.ea;
      waitCount := |nomadNodes| + |ephemeralnomadNodes|;
      if !providerOk {
        Cleanup(plan);
      }
    }
  }

  lemma UnmatchedHosts(ea: seq<Alloc>, group: TaskGroup)
    ensures HostIds(Unmatched(ea, group)) ==
              set j | 0 <= j < |ea| && FirstMatch(ea, group) != Some(j) :: ea[j].nodeId
  {
    if FirstMatch(ea, group).Some? {
      HostsWithout(ea, FirstMatch(ea, group).value);
    }
  }

  lemma HostsWithout(ea: seq<Alloc>, k: nat)
    requires k < |ea|
    ensures HostIds(ea[..k] + ea[k + 1..]) == set j | 0 <= j < |ea| && j != k :: ea[j].nodeId
  {
    var r := ea[..k] + ea[k + 1..];
    assert forall i :: 0 <= i < |r| ==> r[i] == ea[if i < k then i else i + 1];
    forall j | 0 <= j < |ea| && j != k ensures ea[j].nodeId in HostIds(r) {
      assert r[if j < k then j else j - 1] == ea[j];
    }
  }

  /** Delete the first record with the id, if there is one. */
  method DeleteFirst<T(!new)>(list: seq<T>, id: Id, key: T -> Id) returns (r: seq<T>)
    ensures r == RemoveFirst(list, id, key)
  {
    var li := 0;
    while li < |list|
      invariant 0 <= li <= |list| && forall i :: 0 <= i < li ==> key(list[i]) != id
    {
      if key(list[li]) == id {
        RemoveFirstAt(list, id, key, li);
        return list[..li] + list[li + 1..];
      }
      li := li + 1;
    }
    RemoveFirstAt(list, id, key, |list|);
    r := list;
  }

  /** Delete records one by one, each time the first with the id. */
  method DeleteEach<T(!new)>(list: seq<T>, gone: seq<T>, key: T -> Id) returns (r: seq<T>)
    ensures r == RemoveEach(list, gone, key)
  {
    r := list;
    for i := 0 to |gone|
      invariant r == RemoveEach(list, gone[..i], key)
    {
      r := DeleteFirst(r, key(gone[i]), key);
      assert gone[..i + 1][..i] == gone[..i];
    }
    assert gone[..|gone|] == gone;
  }
}
