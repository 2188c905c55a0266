/**
 pool.go and nodeprovider/karpenter.go over time: node events reach the pool and, through it, the provider;
 Update and WarmUp make the provider drop instances it believes to be gone; the garbage collector removes
 nodes. A node event is one step, and a node and its instance belong together for good.
 */
module Reconciliation {
  import opened Ids
  import opened Pools
  import opened Karpenter

  /** Which instance a node runs on; different nodes run on different instances. */
  datatype Sys = Sys(prov: Prov, pool: PoolState, lastUp: map<Id, bool>)  // history: was the node's latest event up?

  datatype Action =
    | NodeSays(ev: NodeEvent, registered: int, now: int, listed: seq<Id>)
    | Reconcile                       // the removal in UpdateNode, called with the pool's nodes
    | CollectNodes(nodes: set<Id>)    // RemoveNode for the collector
    | AllocSays(alloc: AllocEvent)

  ghost predicate OneToOne(instOf: Id -> Id) {
    forall m, n :: instOf(m) == instOf(n) ==> m == n
  }

  predicate Enabled(instOf: Id -> Id, s: Sys, a: Action) {
    match a
    case NodeSays(ev, _, _, _) => ev.instance == instOf(ev.id)
    case Reconcile => true
    case CollectNodes(nodes) => nodes <= s.pool.nodes.Keys
    case AllocSays(alloc) => AcceptsAlloc(s.pool, alloc)
  }

  /** The provider as it is after the pool asked about the node: it is asked only about unknown nodes. */
  function Asked(s: Sys, ev: NodeEvent, registered: int, now: int, listed: seq<Id>): Prov {
    if ev.id in s.pool.nodes then s.prov else Looked(s.prov, ev.instance, registered, now, listed)
  }

  /** tryNomadNode as one step. */
  function OnNodeEvent(s: Sys, ev: NodeEvent, registered: int, now: int, listed: seq<Id>): Sys {
    var prov := Asked(s, ev, registered, now, listed);
    var accepted := AcceptsNode(s.pool, ev, ev.instance in prov.state);
    Sys(prov, if accepted then OnNode(s.pool, ev) else s.pool, s.lastUp[ev.id := !ev.down])
  }

  /** The instances UpdateNode removes when the pool calls it. */
  function Removed(s: Sys): set<Id> {
    Vanished(s.prov.state, s.pool.nodes.Values)
  }

  function Apply(instOf: Id -> Id, s: Sys, a: Action): Sys
    requires Enabled(instOf, s, a)
  {
    match a
    case NodeSays(ev, registered, now, listed) => OnNodeEvent(s, ev, registered, now, listed)
    case Reconcile => s.(prov := s.prov.(state := s.prov.state - Removed(s)))
    case CollectNodes(nodes) =>
      s.(prov := s.prov.(state := s.prov.state - set n | n in nodes && n in s.pool.nodes :: s.pool.nodes[n]))
    case AllocSays(alloc) => s.(pool := OnAlloc(s.pool, alloc))
  }

  /**
   The latest event of a node in the pool was up; and an instance counts as seen only if its node has been
   heard of, and then the node is in the pool or its latest event was down.
   */
  ghost predicate Inv(instOf: Id -> Id, s: Sys) {
    && (forall n :: n in s.pool.nodes ==> s.pool.nodes[n] == instOf(n) && n in s.lastUp && s.lastUp[n])
    && (forall i :: i in s.prov.state && s.prov.state[i] ==>
          exists n :: instOf(n) == i && n in s.lastUp && (n in s.pool.nodes || !s.lastUp[n]))
  }

  lemma NodeEventKeepsInv(instOf: Id -> Id, s: Sys, ev: NodeEvent, registered: int, now: int, listed: seq<Id>)
    requires OneToOne(instOf) && Inv(instOf, s) && ev.instance == instOf(ev.id)
    ensures Inv(instOf, OnNodeEvent(s, ev, registered, now, listed))
  {
    var s' := OnNodeEvent(s, ev, registered, now, listed);
    forall i | i in s'.prov.state && s'.prov.state[i]
      ensures exists n :: instOf(n) == i && n in s'.lastUp && (n in s'.pool.nodes || !s'.lastUp[n])
    {
      LookedMeaning(s.prov, ev.instance, registered, now, listed);
      if i == ev.instance {
        assert instOf(ev.id) == i && ev.id in s'.lastUp;
        assert ev.id in s'.pool.nodes || !s'.lastUp[ev.id];
      } else {
        var n :| instOf(n) == i && n in s.lastUp && (n in s.pool.nodes || !s.lastUp[n]);
        assert n != ev.id;
        assert n in s'.lastUp && (n in s'.pool.nodes || !s'.lastUp[n]);
      }
    }
  }

  lemma StepKeepsInv(instOf: Id -> Id, s: Sys, a: Action)
    requires OneToOne(instOf) && Inv(instOf, s) && Enabled(instOf, s, a)
    ensures Inv(instOf, Apply(instOf, s, a))
  {
    match a
    case NodeSays(ev, registered, now, listed) => NodeEventKeepsInv(instOf, s, ev, registered, now, listed);
    case _ => assert Apply(instOf, s, a).pool.nodes == s.pool.nodes;
  }

  ghost predicate Run(instOf: Id -> Id, states: seq<Sys>, acts: seq<Action>) {
    && |states| == |acts| + 1
    && forall i :: 0 <= i < |acts| ==>
         Enabled(instOf, states[i], acts[i]) && states[i + 1] == Apply(instOf, states[i], acts[i])
  }

  /** A freshly started system: the provider has listed its instances, the pool has heard nothing. */
  predicate Fresh(s: Sys) {
    s.pool == PoolState(map[], map[], [], []) && forall i :: i in s.prov.state ==> !s.prov.state[i]
  }

  lemma {:induction false} EveryRun(instOf: Id -> Id, states: seq<Sys>, acts: seq<Action>, k: nat)
    requires OneToOne(instOf) && Run(instOf, states, acts) && Fresh(states[0]) && k < |states|
    ensures Inv(instOf, states[k])
    decreases k
  {
    if k > 0 {
      EveryRun(instOf, states, acts, k - 1);
      StepKeepsInv(instOf, states[k - 1], acts[k - 1]);
    }
  }

  lemma BackingIsKept(s: Sys)
    ensures forall n :: n in s.pool.nodes ==> s.pool.nodes[n] !in Removed(s)
  {
  }

  /**
   UpdateNode removes an instance only if the pool has seen its node and the node's latest event was down:
   never one that is still booting, never one that backs a node of the pool.
   */
  lemma ReconcileIsSafe(instOf: Id -> Id, states: seq<Sys>, acts: seq<Action>, k: nat, n: Id)
    requires OneToOne(instOf) && Run(instOf, states, acts) && Fresh(states[0]) && k < |states|
    requires instOf(n) in Removed(states[k])
    ensures states[k].prov.state[instOf(n)]
    ensures n in states[k].lastUp && !states[k].lastUp[n]
    ensures n !in states[k].pool.nodes
  {
    EveryRun(instOf, states, acts, k);
    var s := states[k];
    var m :| instOf(m) == instOf(n) && m in s.lastUp && (m in s.pool.nodes || !s.lastUp[m]);
    assert m == n;
    BackingIsKept(s);
  }

  // ---- What is known and what is seen ----

  predicate Known(s: Sys, i: Id) {
    i in s.prov.state
  }

  predicate Seen(s: Sys, i: Id) {
    Known(s, i) && s.prov.state[i]
  }

  /** Some node of the pool runs on the instance. */
  ghost predicate Backed(s: Sys, i: Id) {
    exists n :: n in s.pool.nodes && s.pool.nodes[n] == i
  }

  /** The pool asks about the instance, because it does not know the node. */
  predicate Asks(s: Sys, a: Action, i: Id) {
    a.NodeSays? && a.ev.instance == i && a.ev.id !in s.pool.nodes
  }

  /** The pool asks about a node that registered after the listing was last read, so it is read again. */
  predicate Refreshes(s: Sys, a: Action) {
    a.NodeSays? && a.ev.id !in s.pool.nodes && a.registered > s.prov.lastUpdate
  }

  /** The instance is removed: as vanished, or with its node by the collector. */
  ghost predicate TakesAway(s: Sys, a: Action, i: Id) {
    match a
    case Reconcile => Seen(s, i) && !Backed(s, i)
    case CollectNodes(nodes) => exists n :: n in nodes && n in s.pool.nodes && s.pool.nodes[n] == i
    case _ => false
  }

  /** The step reads no listing without the instance, and does not remove it. */
  ghost predicate Retains(s: Sys, a: Action, i: Id) {
    (Refreshes(s, a) ==> i in a.listed) && !TakesAway(s, a, i)
  }

  lemma KnownStep(instOf: Id -> Id, s: Sys, a: Action, i: Id)
    requires Enabled(instOf, s, a)
    ensures Known(Apply(instOf, s, a), i) <==>
              Lists(s, a, i) || (Known(s, i) && Retains(s, a, i))
  {
    if a.NodeSays? {
      LookedMeaning(s.prov, a.ev.instance, a.registered, a.now, a.listed);
    }
  }

  lemma SeenStep(instOf: Id -> Id, s: Sys, a: Action, i: Id)
    requires Enabled(instOf, s, a)
    ensures Seen(Apply(instOf, s, a), i) <==>
              Marks(s, a, Apply(instOf, s, a), i) || (Seen(s, i) && Retains(s, a, i))
  {
    if a.NodeSays? {
      LookedMeaning(s.prov, a.ev.instance, a.registered, a.now, a.listed);
    }
  }

  /** From the k-th to before the n-th step nothing takes the instance away. */
  ghost predicate KeptFrom(states: seq<Sys>, acts: seq<Action>, k: nat, n: nat, i: Id)
    requires k <= n <= |acts| <= |states|
  {
    forall j :: k <= j < n ==> Retains(states[j], acts[j], i)
  }

  /** The listing that the step reads names the instance. */
  predicate Lists(s: Sys, a: Action, i: Id) {
    Refreshes(s, a) && i in a.listed
  }

  /** The step asks about the instance and leaves it known. */
  predicate Marks(s: Sys, a: Action, s': Sys, i: Id) {
    Asks(s, a, i) && Known(s', i)
  }

  /** A listing read at some step named the instance, and every step since retains it. */
  ghost predicate ListedSince(states: seq<Sys>, acts: seq<Action>, n: nat, i: Id)
    requires n <= |acts| <= |states|
  {
    exists k :: 0 <= k < n && Lists(states[k], acts[k], i) && KeptFrom(states, acts, k + 1, n, i)
  }

  /** The pool asked about the instance while it was known, and every step since retains it. */
  ghost predicate SeenSince(states: seq<Sys>, acts: seq<Action>, n: nat, i: Id)
    requires n <= |acts| < |states|
  {
    exists k :: 0 <= k < n && Marks(states[k], acts[k], states[k + 1], i) && KeptFrom(states, acts, k + 1, n, i)
  }

  lemma ListedSinceNext(states: seq<Sys>, acts: seq<Action>, n: nat, i: Id)
    requires n < |acts| <= |states|
    ensures ListedSince(states, acts, n + 1, i) <==>
              Lists(states[n], acts[n], i) || (ListedSince(states, acts, n, i) && Retains(states[n], acts[n], i))
    ensures KeptFrom(states, acts, 0, n + 1, i) <==> KeptFrom(states, acts, 0, n, i) && Retains(states[n], acts[n], i)
  {
    hide Lists, Retains;
  }

  lemma SeenSinceNext(states: seq<Sys>, acts: seq<Action>, n: nat, i: Id)
    requires n < |acts| < |states|
    ensures SeenSince(states, acts, n + 1, i) <==>
              || Marks(states[n], acts[n], states[n + 1], i)
              || (SeenSince(states, acts, n, i) && Retains(states[n], acts[n], i))
  {
    hide Marks, Retains;
  }

  /** The provider knows exactly the instances it started with or was listed later, and nothing took away since. */
  lemma {:induction false} KnownIff(instOf: Id -> Id, states: seq<Sys>, acts: seq<Action>, n: nat, i: Id)
    requires Run(instOf, states, acts) && n < |states|
    ensures Known(states[n], i) <==>
              (Known(states[0], i) && KeptFrom(states, acts, 0, n, i)) || ListedSince(states, acts, n, i)
  {
    hide Known, Lists, Retains, Apply, Enabled;
    if n > 0 {
      KnownIff(instOf, states, acts, n - 1, i);
      KnownStep(instOf, states[n - 1], acts[n - 1], i);
      ListedSinceNext(states, acts, n - 1, i);
    }
  }

  /**
   An instance counts as seen exactly if the pool has asked about it while it was known, and since then every
   refresh listed it and nobody removed it.
   */
  lemma {:induction false} SeenIff(instOf: Id -> Id, states: seq<Sys>, acts: seq<Action>, n: nat, i: Id)
    requires Run(instOf, states, acts) && Fresh(states[0]) && n < |states|
    ensures Seen(states[n], i) <==> SeenSince(states, acts, n, i)
  {
    if n > 0 {
      hide Known, Seen, Marks, SeenSince, Retains, Apply, Enabled;
      SeenIff(instOf, states, acts, n - 1, i);
      SeenStep(instOf, states[n - 1], acts[n - 1], i);
      SeenSinceNext(states, acts, n - 1, i);
    }
  }

  /**
   Between any two states of a run an instance stays seen as long as every refresh still lists it and nobody
   removes it, and it only becomes seen by being asked about.
   */
  lemma {:induction false} SeenFlagsSurvive(instOf: Id -> Id, states: seq<Sys>, acts: seq<Action>, m: nat, n: nat,
                                            i: Id)
    requires Run(instOf, states, acts) && m <= n < |states|
    ensures Seen(states[m], i) && (forall k :: m <= k < n ==> Retains(states[k], acts[k], i)) ==> Seen(states[n], i)
    ensures Seen(states[n], i) && !Seen(states[m], i) ==> exists k :: m <= k < n && Asks(states[k], acts[k], i)
    decreases n
  {
    hide Apply, Enabled, Retains, Seen, Asks, Known;
    if m < n {
      SeenFlagsSurvive(instOf, states, acts, m, n - 1, i);
      SeenStep(instOf, states[n - 1], acts[n - 1], i);
    }
  }

  /** After UpdateNode's clean-up the seen instances are exactly those seen before that back a node of the pool. */
  lemma ReconcileIsComplete(instOf: Id -> Id, s: Sys, i: Id)
    ensures Seen(Apply(instOf, s, Reconcile), i) <==> Seen(s, i) && Backed(s, i)
    ensures Known(Apply(instOf, s, Reconcile), i) && !Seen(Apply(instOf, s, Reconcile), i) <==>
              Known(s, i) && !Seen(s, i)
    ensures Apply(instOf, s, Reconcile).pool == s.pool
  {
    SeenStep(instOf, s, Reconcile, i);
    KnownStep(instOf, s, Reconcile, i);
  }

  /** A node event leaves its node in the pool exactly if it is up and the node or its instance was known. */
  lemma JoinsIff(instOf: Id -> Id, s: Sys, a: Action, n: Id)
    requires Enabled(instOf, s, a) && a.NodeSays?
    ensures var s' := Apply(instOf, s, a);
            n in s'.pool.nodes <==>
              if n == a.ev.id then !a.ev.down && (n in s.pool.nodes || Known(s', a.ev.instance)) else n in s.pool.nodes
  {
  }
}
