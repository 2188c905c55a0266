/**
 pool.go: what a pool holds, told from the events it has been offered and from nothing else. A node is in the
 pool since its provider vouched for it, until it is down; an allocation is on a node since it was reported
 wanted there, until the node is down or another report about the allocation came.
 */
module PoolHistory {
  import opened Ids
  import opened Pools

  datatype Event =
    | NodeEvt(node: NodeEvent, says: bool)   // and whether the provider knows the instance
    | AllocEvt(alloc: AllocEvent)

  const EMPTY := PoolState(map[], map[], [], [])

  /** tryNomadNode and tryNomadAllocation. */
  function Offered(p: PoolState, e: Event): PoolState {
    match e
    case NodeEvt(node, says) => if AcceptsNode(p, node, says) then OnNode(p, node) else p
    case AllocEvt(alloc) => if AcceptsAlloc(p, alloc) then OnAlloc(p, alloc) else p
  }

  function After(p: PoolState, es: seq<Event>): PoolState {
    if es == [] then p else Offered(After(p, es[..|es| - 1]), es[|es| - 1])
  }

  lemma AfterNext(p: PoolState, es: seq<Event>, k: nat)
    requires k < |es|
    ensures After(p, es[..k + 1]) == Offered(After(p, es[..k]), es[k])
  {
    assert es[..k + 1][..k] == es[..k];
  }

  // ---- Nodes ----

  predicate About(e: Event, n: Id) {
    e.NodeEvt? && e.node.id == n
  }

  /** The node is reported up and the provider vouches for its instance. */
  predicate Enters(e: Event, n: Id) {
    About(e, n) && !e.node.down && e.says
  }

  predicate GoesDown(e: Event, n: Id) {
    About(e, n) && e.node.down
  }

  /** Among the first k events the node entered, and it has not gone down since. */
  ghost predicate NodePresent(es: seq<Event>, k: nat, n: Id)
    requires k <= |es|
  {
    exists j :: 0 <= j < k && Enters(es[j], n) && forall i :: j < i < k ==> !GoesDown(es[i], n)
  }

  lemma PresentNext(es: seq<Event>, k: nat, n: Id)
    requires k < |es|
    ensures NodePresent(es, k + 1, n) <==> Enters(es[k], n) || (NodePresent(es, k, n) && !GoesDown(es[k], n))
  {
  }

  /** The nodes of a pool are exactly those that entered and have not gone down since. */
  lemma {:induction false} NodesAre(es: seq<Event>, k: nat, n: Id)
    requires k <= |es|
    ensures n in After(EMPTY, es[..k]).nodes <==> NodePresent(es, k, n)
  {
    hide NodePresent;
    if k > 0 {
      NodesAre(es, k - 1, n);
      AfterNext(EMPTY, es, k - 1);
      PresentNext(es, k - 1, n);
    } else {
      NonePresent(es, n);
    }
  }

  lemma NonePresent(es: seq<Event>, n: Id)
    ensures !NodePresent(es, 0, n) && forall a :: !AllocPresent(es, 0, a, n)
  {
  }

  /** A node is on the instance of its latest event. */
  lemma {:induction false} InstancesAre(es: seq<Event>, n: Id) returns (j: nat)
    requires n in After(EMPTY, es).nodes
    ensures j < |es| && About(es[j], n) && !es[j].node.down && forall i :: j < i < |es| ==> !About(es[i], n)
    ensures After(EMPTY, es).nodes[n] == es[j].node.instance
  {
    j := |es| - 1;
    if !About(es[j], n) {
      j := InstancesAre(es[..j], n);
    }
  }

  // ---- Allocations ----

  /** The k-th event reports the allocation wanted on the node, which is in the pool. */
  ghost predicate Starts(es: seq<Event>, k: nat, a: Id, n: Id)
    requires k < |es|
  {
    && es[k].AllocEvt? && es[k].alloc.id == a && es[k].alloc.nodeId == n
    && es[k].alloc.desiredRun && es[k].alloc.active
    && NodePresent(es, k, n)
  }

  /** The k-th event takes the node down, or is one more report about the allocation from a node of the pool. */
  ghost predicate Ends(es: seq<Event>, k: nat, a: Id, n: Id)
    requires k < |es|
  {
    || GoesDown(es[k], n)
    || (es[k].AllocEvt? && es[k].alloc.id == a && NodePresent(es, k, es[k].alloc.nodeId))
  }

  ghost predicate AllocPresent(es: seq<Event>, k: nat, a: Id, n: Id)
    requires k <= |es|
  {
    exists j :: 0 <= j < k && Starts(es, j, a, n) && forall i :: j < i < k ==> !Ends(es, i, a, n)
  }

  /** The allocation sits on the node. */
  predicate On(p: PoolState, a: Id, n: Id) {
    a in p.allocs && p.allocs[a] == n
  }

  lemma {:induction false} AfterHosted(es: seq<Event>)
    ensures Hosted(After(EMPTY, es))
  {
    if es != [] {
      AfterHosted(es[..|es| - 1]);
    }
  }

  /** The step on one allocation. */
  lemma AllocStep(p: PoolState, e: Event, a: Id, n: Id)
    requires Hosted(p)
    ensures On(Offered(p, e), a, n) <==>
              || (e.AllocEvt? && e.alloc.id == a && e.alloc.nodeId == n && n in p.nodes
                  && e.alloc.desiredRun && e.alloc.active)
              || (On(p, a, n) && !GoesDown(e, n) && !(e.AllocEvt? && e.alloc.id == a && e.alloc.nodeId in p.nodes))
  {
  }

  lemma AllocPresentNext(es: seq<Event>, k: nat, a: Id, n: Id)
    requires k < |es|
    ensures AllocPresent(es, k + 1, a, n) <==> Starts(es, k, a, n) || (AllocPresent(es, k, a, n) && !Ends(es, k, a, n))
  {
    hide Starts, Ends;
  }

  /**
   The allocations of a pool are exactly those reported wanted on a node of the pool, with no later report and
   the node not gone down since.
   */
  lemma {:induction false} AllocsAre(es: seq<Event>, k: nat, a: Id, n: Id)
    requires k <= |es|
    ensures On(After(EMPTY, es[..k]), a, n) <==> AllocPresent(es, k, a, n)
  {
    hide NodePresent, AllocPresent, Hosted, After, Offered, GoesDown, On;
    if k > 0 {
      var p := After(EMPTY, es[..k - 1]);
      AllocsAre(es, k - 1, a, n);
      AfterNext(EMPTY, es, k - 1);
      AfterHosted(es[..k - 1]);
      AllocStep(p, es[k - 1], a, n);
      AllocPresentNext(es, k - 1, a, n);
      NodesAre(es, k - 1, n);
      if es[k - 1].AllocEvt? {
        NodesAre(es, k - 1, es[k - 1].alloc.nodeId);
      }
    } else {
      NonePresent(es, n);
      NothingOn(es, a, n);
    }
  }

  lemma NothingOn(es: seq<Event>, a: Id, n: Id)
    ensures !On(After(EMPTY, es[..0]), a, n)
  {
  }
}
