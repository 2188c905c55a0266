/**
 pool.go and scalingAction.go: are the planned nodes of a pool exactly the ones its planned allocations sit
 on? They are as long as every Update in flight uses only nodes of its own plan, as with a single worker;
 and a plan that also uses another Update's node breaks it once that Update ends.
 */
module ReservedNodes {
  import opened Ids
  import opened Cluster
  import opened BinPacking
  import opened Lists
  import opened ScalingWorker
  import opened Pools
  import opened Reservations

  /** The planned nodes are exactly the nodes of the planned allocations. */
  ghost predicate Closed(p: PoolState) {
    NodeIds(p.en) == HostIds(p.ea)
  }

  /** The plan's copies sit on the plan's own nodes, and on all of them. */
  ghost predicate SelfContained(plan: Plan) {
    NodeIds(plan.en) == HostIds(plan.ea)
  }

  ghost predicate AllSelfContained(flights: seq<Plan>) {
    forall i :: 0 <= i < |flights| ==> SelfContained(flights[i])
  }

  // ---- Ids of nodes and hosts ----

  lemma NodeIn(en: seq<Node>, n: Node)
    requires n in en
    ensures n.id in NodeIds(en)
  {
  }

  lemma HostIn(ea: seq<Alloc>, a: Alloc)
    requires a in ea
    ensures a.nodeId in HostIds(ea)
  {
  }

  lemma NodeIdsConcat(a: seq<Node>, b: seq<Node>)
    ensures NodeIds(a + b) == NodeIds(a) + NodeIds(b)
  {
    assert forall i :: 0 <= i < |a| ==> (a + b)[i] == a[i];
    assert forall i :: 0 <= i < |b| ==> (a + b)[|a| + i] == b[i];
  }

  lemma HostIdsConcat(a: seq<Alloc>, b: seq<Alloc>)
    ensures HostIds(a + b) == HostIds(a) + HostIds(b)
  {
    assert forall i :: 0 <= i < |a| ==> (a + b)[i] == a[i];
    assert forall i :: 0 <= i < |b| ==> (a + b)[|a| + i] == b[i];
  }

  /** A sound plan's nodes are used by it; its copies sit there or on earlier planned nodes. */
  lemma PlanNodesUsed(v: PoolView, plan: Plan)
    requires Sound(v, plan)
    ensures NodeIds(plan.en) <= HostIds(plan.ea) <= NodeIds(v.nodes + plan.en)
  {
  }

  // ---- An allocation event ----

  /** Exactly the nodes of the set are left when at most one node is outside it. */
  lemma DropFirstOutsideLeaves(en: seq<Node>, hosts: set<Id>, x: Id)
    requires DistinctNodes(en) && NodeIds(en) == hosts + {x}
    ensures NodeIds(DropFirstOutside(en, hosts)) == hosts
  {
    assert forall i :: 0 <= i < |en| ==> en[i].id in NodeIds(en);
    if x in hosts {
      DropFirstOutsideNone(en, hosts);
    } else {
      assert x in NodeIds(en);
      var k :| 0 <= k < |en| && en[k].id == x;
      DropFirstOutsideAt(en, hosts, k);
      DropAtIds(en, k);
    }
  }

  lemma UnmatchedHostIds(ea: seq<Alloc>, group: TaskGroup)
    requires FirstMatch(ea, group).Some?
    ensures HostIds(ea) == HostIds(Unmatched(ea, group)) + {ea[FirstMatch(ea, group).value].nodeId}
  {
    UnmatchedHosts(ea, group);
  }

  /**
   A real allocation uses up at most one reservation, and the only planned node it drops is the one whose
   last reservation that was.
   */
  lemma ConsumeKeepsClosed(p: PoolState, group: TaskGroup)
    requires Closed(p) && DistinctNodes(p.en)
    ensures var q, m := Consume(p, group), FirstMatch(p.ea, group);
            && Closed(q)
            && |q.ea| == |p.ea| - (if m.Some? then 1 else 0)
            && (m.None? ==> NodeIds(q.en) == NodeIds(p.en))
            && (m.Some? ==> NodeIds(p.en) == NodeIds(q.en) + {p.ea[m.value].nodeId})
  {
    hide DropFirstOutside, NodeIds, HostIds;
    match FirstMatch(p.ea, group)
    case None => NothingOutside(p.en);
    case Some(m) =>
      UnmatchedHostIds(p.ea, group);
      DropFirstOutsideLeaves(p.en, HostIds(Unmatched(p.ea, group)), p.ea[m].nodeId);
  }

  lemma NothingOutside(en: seq<Node>)
    ensures DropFirstOutside(en, NodeIds(en)) == en
  {
    assert forall i :: 0 <= i < |en| ==> en[i].id in NodeIds(en);
    DropFirstOutsideNone(en, NodeIds(en));
  }

  lemma DropAtIds(en: seq<Node>, k: nat)
    requires k < |en| && DistinctNodes(en)
    ensures NodeIds(en[..k] + en[k + 1..]) == NodeIds(en) - {en[k].id}
  {
    var r := en[..k] + en[k + 1..];
    forall id | id in NodeIds(en) && id != en[k].id ensures id in NodeIds(r) {
      var i :| 0 <= i < |en| && en[i].id == id;
      assert r[if i < k then i else i - 1].id == id;
    }
  }

  // ---- The end of an Update ----

  /** Whatever some flight added is among the additions, and nothing else. */
  lemma {:induction false} AddedMember<T(!new)>(flights: seq<Plan>, part: Plan -> seq<T>, t: T)
    ensures t in Added(flights, part) <==> exists j :: 0 <= j < |flights| && t in part(flights[j])
  {
    if flights != [] {
      var front := flights[..|flights| - 1];
      AddedMember(front, part, t);
      assert forall j :: 0 <= j < |front| ==> front[j] == flights[j];
      if exists j :: 0 <= j < |front| && t in part(front[j]) {
        var j :| 0 <= j < |front| && t in part(front[j]);
        assert t in part(flights[j]);
      }
    }
  }

  /** Two flights share no record id. */
  lemma AddedDisjoint<T(!new)>(flights: seq<Plan>, part: Plan -> seq<T>, key: T -> Id, j: nat, k: nat, x: T, y: T)
    requires DistinctKeys(Added(flights, part), key) && j < k < |flights|
    requires x in part(flights[j]) && y in part(flights[k])
    ensures key(x) != key(y)
  {
    hide Added, DistinctKeys;
    var a, b := flights[..k], flights[k + 1..];
    assert flights == a + [flights[k]] + b;
    AddedSplit(a, flights[k], b, part);
    AddedMember(a, part, x);
    assert a[j] == flights[j];
    KeysApart(Added(a, part), part(flights[k]), Added(b, part), key, x, y);
  }

  lemma KeysApart<T(!new)>(a: seq<T>, b: seq<T>, c: seq<T>, key: T -> Id, x: T, y: T)
    requires DistinctKeys(a + b + c, key) && x in a && y in b
    ensures key(x) != key(y)
  {
    var i :| 0 <= i < |a| && a[i] == x;
    var j :| 0 <= j < |b| && b[j] == y;
    assert (a + b + c)[i] == x && (a + b + c)[|a| + j] == y;
  }

  lemma {:induction false} SubsequenceMember<T>(a: seq<T>, b: seq<T>, t: T)
    requires Subsequence(a, b) && t in a
    ensures t in b
    decreases |b|
  {
    if a[0] != b[0] {
      SubsequenceMember(a, b[1..], t);
    } else if t != a[0] {
      SubsequenceMember(a[1..], b[1..], t);
    }
  }

  lemma {:induction false} KeepMember<T(!new)>(list: seq<T>, gone: seq<T>, key: T -> Id, t: T)
    ensures t in Keep(list, gone, key) <==> t in list && !Has(gone, key(t), key)
  {
    if list != [] {
      KeepMember(list[1..], gone, key, t);
    }
  }

  /** An Update that ends takes away its own records and no others. */
  lemma Retired<T(!new)>(list: seq<T>, flights: seq<Plan>, part: Plan -> seq<T>, key: T -> Id, k: nat, t: T)
    requires Ledger(list, Added(flights, part), key) && k < |flights|
    ensures t in RemoveEach(list, part(flights[k]), key) <==> t in list && t !in part(flights[k])
  {
    var gone := part(flights[k]);
    SubsequenceDistinct(list, Added(flights, part), key);
    RemoveEachKeeps(list, gone, key);
    KeepMember(list, gone, key, t);
    if t in list && Has(gone, key(t), key) {
      var i :| 0 <= i < |gone| && key(gone[i]) == key(t);
      SubsequenceMember(list, Added(flights, part), t);
      AddedMember(flights, part, gone[i]);
      SameRecord(Added(flights, part), key, t, gone[i]);
    }
    if t in gone {
      var i :| 0 <= i < |gone| && gone[i] == t;
      assert Has(gone, key(t), key);
    }
  }

  lemma SameRecord<T(!new)>(list: seq<T>, key: T -> Id, t: T, u: T)
    requires DistinctKeys(list, key) && t in list && u in list && key(t) == key(u)
    ensures t == u
  {
  }

  /** A reservation sits on a node of the flight that made it. */
  lemma HostOfOwnFlight(s: Sys, k: nat, a: Alloc, n: Node)
    requires Inv(s) && AllSelfContained(s.flights) && k < |s.flights|
    requires a in s.pool.ea && n in s.flights[k].en && n.id == a.nodeId
    ensures a in s.flights[k].ea
  {
    SubsequenceMember(s.pool.ea, Added(s.flights, EA), a);
    AddedMember(s.flights, EA, a);
    var j :| 0 <= j < |s.flights| && a in EA(s.flights[j]);
    assert SelfContained(s.flights[j]);
    assert a.nodeId in HostIds(s.flights[j].ea);
    var m :| 0 <= m < |s.flights[j].en| && s.flights[j].en[m].id == a.nodeId;
    if j < k {
      AddedDisjoint(s.flights, EN, NODE_KEY, j, k, s.flights[j].en[m], n);
    } else if k < j {
      AddedDisjoint(s.flights, EN, NODE_KEY, k, j, n, s.flights[j].en[m]);
    }
  }

  lemma NodeStaysHosted(s: Sys, k: nat, n: Node)
    requires Inv(s) && AllSelfContained(s.flights) && Closed(s.pool) && k < |s.flights|
    requires n in Apply(s, EndUpdate(k)).pool.en
    ensures n.id in HostIds(Apply(s, EndUpdate(k)).pool.ea)
  {
    var f := s.flights[k];
    Retired(s.pool.en, s.flights, EN, NODE_KEY, k, n);
    NodeIn(s.pool.en, n);
    var i :| 0 <= i < |s.pool.ea| && s.pool.ea[i].nodeId == n.id;
    var a := s.pool.ea[i];
    Retired(s.pool.ea, s.flights, EA, ALLOC_KEY, k, a);
    if a in f.ea {
      HostIn(f.ea, a);
      assert SelfContained(f);
      var m :| 0 <= m < |f.en| && f.en[m].id == n.id;
      SameNode(s, k, n, f.en[m]);
    }
    HostIn(Apply(s, EndUpdate(k)).pool.ea, a);
  }

  /** A planned node with the id of one of a flight's nodes is that node. */
  lemma SameNode(s: Sys, k: nat, n: Node, m: Node)
    requires Inv(s) && k < |s.flights| && n in s.pool.en && m in s.flights[k].en && n.id == m.id
    ensures n == m
  {
    SubsequenceMember(s.pool.en, Added(s.flights, EN), n);
    AddedMember(s.flights, EN, m);
    assert m in EN(s.flights[k]);
    SameRecord(Added(s.flights, EN), NODE_KEY, n, m);
  }

  lemma HostStays(s: Sys, k: nat, a: Alloc)
    requires Inv(s) && AllSelfContained(s.flights) && Closed(s.pool) && k < |s.flights|
    requires a in Apply(s, EndUpdate(k)).pool.ea
    ensures a.nodeId in NodeIds(Apply(s, EndUpdate(k)).pool.en)
  {
    Retired(s.pool.ea, s.flights, EA, ALLOC_KEY, k, a);
    HostIn(s.pool.ea, a);
    var i :| 0 <= i < |s.pool.en| && s.pool.en[i].id == a.nodeId;
    var n := s.pool.en[i];
    Retired(s.pool.en, s.flights, EN, NODE_KEY, k, n);
    if n in s.flights[k].en {
      HostOfOwnFlight(s, k, a, n);
    }
    NodeIn(Apply(s, EndUpdate(k)).pool.en, n);
  }

  lemma EndKeepsClosed(s: Sys, k: nat)
    requires Inv(s) && AllSelfContained(s.flights) && Closed(s.pool) && k < |s.flights|
    ensures Closed(Apply(s, EndUpdate(k)).pool)
  {
    hide Inv, AllSelfContained, RemovePlan;
    var q := Apply(s, EndUpdate(k)).pool;
    forall i | 0 <= i < |q.en| ensures q.en[i].id in HostIds(q.ea) {
      NodeStaysHosted(s, k, q.en[i]);
    }
    forall i | 0 <= i < |q.ea| ensures q.ea[i].nodeId in NodeIds(q.en) {
      HostStays(s, k, q.ea[i]);
    }
  }

  // ---- All runs ----

  lemma StartKeepsClosed(p: PoolState, template: Res, plan: Plan)
    requires Closed(p)
    requires SelfContained(plan) || Sound(PoolView(template, p.en, p.ea), plan)
    ensures Closed(AddPlan(p, plan))
  {
    NodeIdsConcat(p.en, plan.en);
    HostIdsConcat(p.ea, plan.ea);
    if !SelfContained(plan) {
      PlanNodesUsed(PoolView(template, p.en, p.ea), plan);
    }
  }

  lemma UseKeepsClosed(s: Sys, group: TaskGroup)
    requires Inv(s) && Closed(s.pool)
    ensures Closed(Consume(s.pool, group))
  {
    SubsequenceDistinct(s.pool.en, Added(s.flights, EN), NODE_KEY);
    KeysAreIds(s.pool.en);
    ConsumeKeepsClosed(s.pool, group);
  }

  lemma KeysAreIds(en: seq<Node>)
    ensures DistinctKeys(en, NODE_KEY) <==> DistinctNodes(en)
  {
  }

  lemma StepKeepsClosed(s: Sys, a: Action)
    requires Inv(s) && Enabled(s, a) && AllSelfContained(s.flights) && Closed(s.pool)
    requires a.StartUpdate? ==> SelfContained(a.plan)
    ensures AllSelfContained(Apply(s, a).flights) && Closed(Apply(s, a).pool)
  {
    hide SelfContained, Ledger, Hosted, AddPlan, RemovePlan, Consume;
    match a
    case StartUpdate(plan) => StartKeepsClosed(s.pool, Res(0, 0, 0), plan);
    case FailUpdate(plan) => FailureRestores(s, plan);
    case EndUpdate(k) => EndKeepsClosed(s, k);
    case ReservationUsed(group) => UseKeepsClosed(s, group);
    case _ =>
  }

  /**
   With any number of workers: as long as every Update's plan sits on its own nodes only, in every reachable
   state the planned nodes are exactly the reserved ones.
   */
  lemma {:induction false} EverySelfContainedRun(states: seq<Sys>, acts: seq<Action>, k: nat)
    requires Run(states, acts) && k < |states|
    requires forall i :: 0 <= i < |acts| && acts[i].StartUpdate? ==> SelfContained(acts[i].plan)
    ensures AllSelfContained(states[k].flights) && Closed(states[k].pool)
    decreases k
  {
    if k > 0 {
      hide Apply, Enabled, Inv, SelfContained, Hosted;
      EverySelfContainedRun(states, acts, k - 1);
      EveryRun(states, acts, k - 1);
      StepKeepsClosed(states[k - 1], acts[k - 1]);
    }
  }

  /** An Update starts with a plan that was computed from what the pool has planned. */
  ghost predicate PlannedSoundly(s: Sys, template: Res, a: Action) {
    a.StartUpdate? ==> Sound(PoolView(template, s.pool.en, s.pool.ea), a.plan)
  }

  /** One worker: no other Update is in flight when one starts. */
  ghost predicate Solo(s: Sys, template: Res, a: Action) {
    PlannedSoundly(s, template, a) && (a.StartUpdate? ==> s.flights == [])
  }

  /** With one scaling worker, in every reachable state the planned nodes are exactly the reserved ones. */
  lemma EverySoloRun(states: seq<Sys>, acts: seq<Action>, template: Res, k: nat)
    requires Run(states, acts) && k < |states|
    requires forall i :: 0 <= i < |acts| ==> Solo(states[i], template, acts[i])
    ensures Closed(states[k].pool)
  {
    forall i | 0 <= i < |acts| && acts[i].StartUpdate? ensures SelfContained(acts[i].plan) {
      EveryRun(states, acts, i);
      assert Solo(states[i], template, acts[i]);
      SoundIsClosed(PoolView(template, states[i].pool.en, states[i].pool.ea), acts[i].plan);
    }
    EverySelfContainedRun(states, acts, k);
  }

  // ---- And otherwise ----

  /** The planned nodes are still the reserved ones once the k-th Update has ended. */
  ghost predicate ClosedAfterEnd(s: Sys, k: nat)
    requires k < |s.flights|
  {
    Closed(Apply(s, EndUpdate(k)).pool)
  }

  /** A copy that sits on another Update's node dangles when that Update ends. */
  lemma BorrowedNodeBreaks(s: Sys, plan: Plan, a: Alloc, n: Node) returns (k: nat)
    requires Inv(s) && Enabled(s, StartUpdate(plan))
    requires a in plan.ea && n in s.pool.en && n.id == a.nodeId && a.nodeId !in NodeIds(plan.en)
    ensures k < |s.flights| && !ClosedAfterEnd(Apply(s, StartUpdate(plan)), k)
  {
    var s1 := Apply(s, StartUpdate(plan));
    var last := |s.flights|;
    StepKeepsInv(s, StartUpdate(plan));
    SubsequenceMember(s.pool.en, Added(s.flights, EN), n);
    AddedMember(s.flights, EN, n);
    k :| 0 <= k < |s.flights| && n in EN(s.flights[k]);
    var q := Apply(s1, EndUpdate(k)).pool;
    assert s1.flights[last] == plan && s1.flights[k] == s.flights[k];
    if a in s.flights[k].ea {
      AddedDisjoint(s1.flights, EA, ALLOC_KEY, k, last, a, a);
    }
    Retired(s1.pool.ea, s1.flights, EA, ALLOC_KEY, k, a);
    HostIn(q.ea, a);
    if a.nodeId in NodeIds(q.en) {
      var i :| 0 <= i < |q.en| && q.en[i].id == a.nodeId;
      Retired(s1.pool.en, s1.flights, EN, NODE_KEY, k, q.en[i]);
      SameNode(s1, k, q.en[i], n);
    }
  }

  /** The plan's nodes are new: none is planned already. */
  lemma PlanNodesAreNew(s: Sys, plan: Plan)
    requires Inv(s) && Enabled(s, StartUpdate(plan))
    ensures NodeIds(s.pool.en) !! NodeIds(plan.en)
  {
    forall id | id in NodeIds(s.pool.en) ensures id !in NodeIds(plan.en) {
      var i :| 0 <= i < |s.pool.en| && s.pool.en[i].id == id;
      var n := s.pool.en[i];
      SubsequenceMember(s.pool.en, Added(s.flights, EN), n);
      var j :| 0 <= j < |Added(s.flights, EN)| && Added(s.flights, EN)[j] == n;
      assert NODE_KEY(Added(s.flights, EN)[j]) == id;
      NotBoth(Added(s.flights, EN), plan.en, id, NODE_KEY);
      assert forall m :: 0 <= m < |plan.en| ==> NODE_KEY(plan.en[m]) == plan.en[m].id;
    }
  }

  /**
   A plan that is not self-contained and yet leaves planned and reserved nodes the same when its Update
   starts has a copy on a node planned earlier.
   */
  lemma Borrowed(s: Sys, plan: Plan) returns (a: Alloc, n: Node)
    requires Inv(s) && Enabled(s, StartUpdate(plan)) && Closed(s.pool)
    requires Closed(Apply(s, StartUpdate(plan)).pool) && !SelfContained(plan)
    ensures a in plan.ea && n in s.pool.en && n.id == a.nodeId && a.nodeId !in NodeIds(plan.en)
  {
    PlanNodesAreNew(s, plan);
    NodeIdsConcat(s.pool.en, plan.en);
    HostIdsConcat(s.pool.ea, plan.ea);
    var id :| id in HostIds(plan.ea) && id !in NodeIds(plan.en);
    var i :| 0 <= i < |plan.ea| && plan.ea[i].nodeId == id;
    a := plan.ea[i];
    var j :| 0 <= j < |s.pool.en| && s.pool.en[j].id == id;
    n := s.pool.en[j];
  }

  /**
   The exact condition, for whatever plan an Update starts with, also one computed before other Updates ended
   or their nodes were dropped: planned and reserved nodes stay the same when it starts and whichever earlier
   Update ends next, if and only if the plan's copies sit on all of its own nodes and on no others.
   */
  lemma SelfContainedIff(s: Sys, plan: Plan)
    requires Inv(s) && Closed(s.pool) && AllSelfContained(s.flights) && Enabled(s, StartUpdate(plan))
    ensures SelfContained(plan) <==>
            && Closed(Apply(s, StartUpdate(plan)).pool)
            && forall k :: 0 <= k < |s.flights| ==> ClosedAfterEnd(Apply(s, StartUpdate(plan)), k)
  {
    hide Inv, Closed, SelfContained, Fresh;
    var s1 := Apply(s, StartUpdate(plan));
    if SelfContained(plan) {
      StepKeepsInv(s, StartUpdate(plan));
      StepKeepsClosed(s, StartUpdate(plan));
      forall k | 0 <= k < |s.flights| ensures ClosedAfterEnd(s1, k) {
        EndKeepsClosed(s1, k);
      }
    } else if Closed(s1.pool) {
      var a, n := Borrowed(s, plan);
      var k := BorrowedNodeBreaks(s, plan, a, n);
    }
  }

  /** A node with room for two copies, planned by one worker for one of them. */
  lemma FirstPlanSound(template: Res, n: Node, a1: Alloc)
    requires template == n.capacity == Res(2, 2, 2) && a1.size == Res(1, 1, 1) && a1.nodeId == n.id
    ensures Sound(PoolView(template, [], []), Plan([n], [a1]))
  {
    assert [] + [n] == [n] && [] + [a1] == [a1];
    LoadAppend(n, [], a1);
    assert [n][0].id in NodeIds([n]);
    assert [a1][0].nodeId == n.id;
    hide Load, NodeIds;
  }

  /** A second worker that plans the other copy on the same node. */
  lemma SecondPlanSound(template: Res, n: Node, a1: Alloc, a2: Alloc)
    requires n.capacity == Res(2, 2, 2) && a1.size == a2.size == Res(1, 1, 1)
    requires a1.nodeId == a2.nodeId == n.id && a1.id != a2.id
    ensures Sound(PoolView(template, [n], [a1]), Plan([], [a2]))
  {
    assert [n] + [] == [n] && [] + [a1] == [a1];
    LoadAppend(n, [], a1);
    LoadAppend(n, [a1], a2);
    assert [a1] + [a2] == [a1, a2];
    assert [n][0].id in NodeIds([n]);
    hide Load, NodeIds;
  }

  lemma AddedOne<T>(plan: Plan, part: Plan -> seq<T>)
    ensures Added([plan], part) == part(plan)
  {
  }

  /** The two plans have fresh ids, and the second borrows the first one's node. */
  lemma BothCanStart(n: Node, a1: Alloc, a2: Alloc)
    requires a1.id != a2.id && a2.nodeId == n.id
    ensures Fresh([], Plan([n], [a1])) && Fresh([Plan([n], [a1])], Plan([], [a2]))
    ensures !SelfContained(Plan([], [a2]))
  {
    var p1 := Plan([n], [a1]);
    AddedOne(p1, EN);
    AddedOne(p1, EA);
    SmallDistinct([], [n], NODE_KEY);
    SmallDistinct([], [a1], ALLOC_KEY);
    SmallDistinct([n], [], NODE_KEY);
    SmallDistinct([a1], [a2], ALLOC_KEY);
    HostIn([a2], a2);
  }

  lemma SmallDistinct<T(!new)>(a: seq<T>, b: seq<T>, key: T -> Id)
    requires |a| <= 1 && |b| <= 1 && (a != [] && b != [] ==> key(a[0]) != key(b[0]))
    ensures DistinctKeys(a + b, key)
  {
  }

  /**
   With a second worker the equality is not kept: its plan may sit on a node that the first worker's
   Update takes away when it ends.
   */
  lemma SecondWorkerCanDangle() returns (states: seq<Sys>, acts: seq<Action>, template: Res)
    ensures Run(states, acts)
    ensures forall i :: 0 <= i < |acts| ==> PlannedSoundly(states[i], template, acts[i])
    ensures !Closed(states[|acts|].pool)
  {
    hide Sound, Fresh, RemovePlan, SelfContained, Closed, Inv, OnNode, Added;
    var one, g := Res(1, 1, 1), TaskGroup("default", "job", "group");
    template := Res(2, 2, 2);
    var n := Node(Id(0), template);
    var a1, a2 := Alloc(Id(1), g, n.id, one), Alloc(Id(2), g, n.id, one);
    var p1, p2 := Plan([n], [a1]), Plan([], [a2]);
    FirstPlanSound(template, n, a1);
    SecondPlanSound(template, n, a1, a2);
    BothCanStart(n, a1, a2);
    var s1 := Sys(PoolState(map[], map[], [n], [a1]), [p1], false);
    var s2 := Sys(PoolState(map[], map[], [n], [a1, a2]), [p1, p2], false);
    assert Apply(START, StartUpdate(p1)) == s1 && Apply(s1, StartUpdate(p2)) == s2;
    hide AddPlan;
    EveryRun([START, s1], [StartUpdate(p1)], 1);
    var k := BorrowedNodeBreaks(s1, p2, a2, n);
    acts, states := [StartUpdate(p1), StartUpdate(p2), EndUpdate(k)], [START, s1, s2, Apply(s2, EndUpdate(k))];
  }
}
