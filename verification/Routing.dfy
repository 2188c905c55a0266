/**
 main.go: every node and allocation event is offered to the pools, in the arbitrary order of a Go map, until
 one accepts it. Providers own disjoint instances, so a node belongs to one pool for good, and so does an
 allocation, which never changes its node.
 */
module Routing {
  import opened Ids
  import opened Pools
  import opened Collector
  import PoolHistory

  type Fleet = map<string, PoolState>

  /** The pool whose provider owns the node's instance, and the node an allocation was placed on. */
  datatype World = World(owner: Id -> string, host: Id -> Id)

  datatype Event =
    | NodeEvt(node: NodeEvent, says: set<string>)   // and the pools whose provider lists the instance
    | AllocEvt(alloc: AllocEvent)

  /** The environment: only the owner's provider lists an instance; an allocation keeps its node. */
  predicate Honest(w: World, e: Event) {
    match e
    case NodeEvt(node, says) => says <= {w.owner(node.id)}
    case AllocEvt(alloc) => alloc.nodeId == w.host(alloc.id)
  }

  predicate Accepts(p: PoolState, name: string, e: Event) {
    match e
    case NodeEvt(node, says) => AcceptsNode(p, node, name in says)
    case AllocEvt(alloc) => AcceptsAlloc(p, alloc)
  }

  function OnEvent(p: PoolState, e: Event): PoolState {
    match e
    case NodeEvt(node, _) => OnNode(p, node)
    case AllocEvt(alloc) => OnAlloc(p, alloc)
  }

  /** The event reaches every pool that accepts it: no order is involved. */
  function Routed(fleet: Fleet, e: Event): Fleet {
    map q | q in fleet :: if Accepts(fleet[q], q, e) then OnEvent(fleet[q], e) else fleet[q]
  }

  /** A pool's nodes are its own, and its allocations sit on its nodes. */
  ghost predicate Own(w: World, name: string, p: PoolState) {
    && (forall n :: n in p.nodes ==> w.owner(n) == name)
    && (forall a :: a in p.allocs ==> p.allocs[a] == w.host(a) && p.allocs[a] in p.nodes)
  }

  ghost predicate Inv(w: World, fleet: Fleet) {
    forall q :: q in fleet ==> Own(w, q, fleet[q])
  }

  /** At most one pool accepts an event. */
  lemma OneAccepts(w: World, fleet: Fleet, e: Event, p: string, q: string)
    requires Inv(w, fleet) && Honest(w, e) && p in fleet && q in fleet
    requires Accepts(fleet[p], p, e) && Accepts(fleet[q], q, e)
    ensures p == q
  {
  }

  /** So the first one to accept it is where it goes. */
  lemma RoutedTo(w: World, fleet: Fleet, e: Event, q: string)
    requires Inv(w, fleet) && Honest(w, e) && q in fleet && Accepts(fleet[q], q, e)
    ensures Routed(fleet, e) == fleet[q := OnEvent(fleet[q], e)]
  {
  }

  lemma RoutedNowhere(fleet: Fleet, e: Event)
    requires forall q :: q in fleet ==> !Accepts(fleet[q], q, e)
    ensures Routed(fleet, e) == fleet
  {
  }

  lemma EventKeepsOwn(w: World, name: string, p: PoolState, e: Event)
    requires Own(w, name, p) && Honest(w, e) && Accepts(p, name, e)
    ensures Own(w, name, OnEvent(p, e))
  {
  }

  lemma EventKeepsInv(w: World, fleet: Fleet, e: Event)
    requires Inv(w, fleet) && Honest(w, e)
    ensures Inv(w, Routed(fleet, e))
  {
    hide Own, OnEvent, Accepts, Honest;
    forall q | q in fleet ensures Own(w, q, Routed(fleet, e)[q]) {
      if Accepts(fleet[q], q, e) {
        EventKeepsOwn(w, q, fleet[q], e);
      }
    }
  }

  /** The fleet after a sequence of events. */
  function RoutedAll(fleet: Fleet, es: seq<Event>): Fleet {
    if es == [] then fleet else Routed(RoutedAll(fleet, es[..|es| - 1]), es[|es| - 1])
  }

  /**
   Whatever events arrive, the pools' node sets and allocation sets stay pairwise disjoint and every
   allocation's node is in its own pool: what the garbage collector relies on.
   */
  lemma {:induction false} EveryRun(w: World, fleet: Fleet, es: seq<Event>)
    requires Inv(w, fleet) && forall i :: 0 <= i < |es| ==> Honest(w, es[i])
    ensures Inv(w, RoutedAll(fleet, es)) && RoutedAll(fleet, es).Keys == fleet.Keys
    ensures forall p, q :: p in fleet && q in fleet && p != q ==>
              && RoutedAll(fleet, es)[p].nodes.Keys !! RoutedAll(fleet, es)[q].nodes.Keys
              && RoutedAll(fleet, es)[p].allocs.Keys !! RoutedAll(fleet, es)[q].allocs.Keys
  {
    if es != [] {
      EveryRun(w, fleet, es[..|es| - 1]);
      EventKeepsInv(w, RoutedAll(fleet, es[..|es| - 1]), es[|es| - 1]);
    }
    var r := RoutedAll(fleet, es);
    forall p, q | p in r && q in r && p != q
      ensures r[p].nodes.Keys !! r[q].nodes.Keys && r[p].allocs.Keys !! r[q].allocs.Keys
    {
      OwnAreDisjoint(w, r, p, q);
    }
  }

  lemma OwnAreDisjoint(w: World, fleet: Fleet, p: string, q: string)
    requires Inv(w, fleet) && p in fleet && q in fleet && p != q
    ensures fleet[p].nodes.Keys !! fleet[q].nodes.Keys && fleet[p].allocs.Keys !! fleet[q].allocs.Keys
  {
  }

  /** A pool as the garbage collector reads it. */
  function SnapshotOf(p: PoolState): Snapshot {
    Snapshot(p.nodes.Keys, p.allocs)
  }

  /** Snapshots of such a fleet are disjoint and show every allocation's node. */
  lemma SnapshotsAreSound(w: World, fleet: Fleet)
    requires Inv(w, fleet)
    ensures var snaps := map q | q in fleet :: SnapshotOf(fleet[q]);
            DisjointPools(snaps) && forall q :: q in snaps ==> snaps[q].allocs.Values <= snaps[q].nodes
  {
  }

  // ---- Each pool on its own ----

  /** An event as one pool is offered it. */
  function Heard(q: string, e: Event): PoolHistory.Event {
    match e
    case NodeEvt(node, says) => PoolHistory.NodeEvt(node, q in says)
    case AllocEvt(alloc) => PoolHistory.AllocEvt(alloc)
  }

  function HeardAll(q: string, es: seq<Event>): (r: seq<PoolHistory.Event>)
    ensures |r| == |es| && forall i :: 0 <= i < |es| ==> r[i] == Heard(q, es[i])
  {
    seq(|es|, i requires 0 <= i < |es| => Heard(q, es[i]))
  }

  /** A pool of the fleet holds what the events it was offered make it hold. */
  lemma {:induction false} PoolsHearAll(fleet: Fleet, es: seq<Event>, q: string)
    requires q in fleet
    ensures q in RoutedAll(fleet, es)
    ensures RoutedAll(fleet, es)[q] == PoolHistory.After(fleet[q], HeardAll(q, es))
  {
    if es != [] {
      var front := es[..|es| - 1];
      PoolsHearAll(fleet, front, q);
      assert HeardAll(q, es)[..|es| - 1] == HeardAll(q, front);
      OfferedIs(RoutedAll(fleet, front)[q], q, es[|es| - 1]);
      hide Accepts, OnEvent, PoolHistory.Offered;
    }
  }

  lemma OfferedIs(p: PoolState, q: string, e: Event)
    ensures PoolHistory.Offered(p, Heard(q, e)) == if Accepts(p, q, e) then OnEvent(p, e) else p
  {
  }

  /** From empty pools, the nodes and allocations of a pool are what the events since say they are. */
  lemma FleetIs(fleet: Fleet, es: seq<Event>, q: string, a: Id, n: Id)
    requires q in fleet && fleet[q] == PoolHistory.EMPTY
    ensures q in RoutedAll(fleet, es)
    ensures n in RoutedAll(fleet, es)[q].nodes <==> PoolHistory.NodePresent(HeardAll(q, es), |es|, n)
    ensures PoolHistory.On(RoutedAll(fleet, es)[q], a, n) <==> PoolHistory.AllocPresent(HeardAll(q, es), |es|, a, n)
  {
    hide RoutedAll, PoolHistory.After, PoolHistory.NodePresent, PoolHistory.AllocPresent, PoolHistory.On;
    PoolsHearAll(fleet, es, q);
    var heard := HeardAll(q, es);
    PoolHistory.NodesAre(heard, |es|, n);
    PoolHistory.AllocsAre(heard, |es|, a, n);
    assert heard[..|es|] == heard;
  }

  // ---- The loops of main.go ----

  ghost function FleetOf(pools: map<string, Pool>): Fleet
    reads pools.Values
  {
    map q | q in pools :: pools[q].State()
  }

  ghost predicate Separate(pools: map<string, Pool>) {
    forall p, q :: p in pools && q in pools && p != q ==> pools[p] != pools[q]
  }

  method Try(pool: Pool, name: string, e: Event) returns (accepted: bool)
    modifies pool
    ensures accepted == Accepts(old(pool.State()), name, e)
    ensures pool.State() == if accepted then OnEvent(old(pool.State()), e) else old(pool.State())
  {
    match e {
      case NodeEvt(node, says) => accepted := pool.TryNomadNode(node, name in says);
      case AllocEvt(alloc) =>
        var published;
        accepted, published := pool.TryNomadAllocation(alloc);
    }
  }

  /** Offer one event to the pools, in any order, until one accepts. */
  method Offer(pools: map<string, Pool>, e: Event, ghost w: World)
    requires Separate(pools) && Inv(w, FleetOf(pools)) && Honest(w, e)
    modifies pools.Values
    ensures FleetOf(pools) == Routed(old(FleetOf(pools)), e)
  {
    hide Inv, Honest, OnEvent, Accepts, Pool.State, Routed;
    ghost var before := FleetOf(pools);
    var todo := pools.Keys;
    while todo != {}
      invariant todo <= pools.Keys
      invariant FleetOf(pools) == before
      invariant forall q :: q in pools && q !in todo ==> !Accepts(before[q], q, e)
    {
      var q :| q in todo;
      var pool := pools[q];
      assert pool.State() == before[q];
      var accepted := Try(pool, q, e);
      if accepted {
        RoutedTo(w, before, e, q);
        assert FleetOf(pools) == before[q := OnEvent(before[q], e)];
        return;
      }
      assert FleetOf(pools) == before;
      todo := todo - {q};
    }
    RoutedNowhere(before, e);
  }

  /** processNodes and processAllocs: one event after the other, as they come. */
  method ProcessEvents(pools: map<string, Pool>, es: seq<Event>, ghost w: World)
    requires Separate(pools) && Inv(w, FleetOf(pools)) && forall i :: 0 <= i < |es| ==> Honest(w, es[i])
    modifies pools.Values
    ensures FleetOf(pools) == RoutedAll(old(FleetOf(pools)), es)
  {
    hide Inv, Honest, FleetOf, Routed;
    for i := 0 to |es|
      invariant FleetOf(pools) == RoutedAll(old(FleetOf(pools)), es[..i]) && Inv(w, FleetOf(pools))
    {
      EventKeepsInv(w, FleetOf(pools), es[i]);
      Offer(pools, es[i], w);
      assert es[..i + 1][..i] == es[..i];
    }
    assert es[..|es|] == es;
  }
}
