/**
 pool.go, over time: any number of Update calls in flight on one pool, interleaved with node events,
 allocation events and RemoveNode. Update holds the read side of updrmvlock from its first to its last
 statement, RemoveNode the write side.
 */
module Reservations {
  import opened Ids
  import opened Cluster
  import opened BinPacking
  import opened Lists
  import opened ScalingWorker
  import opened Pools

  datatype Sys = Sys(pool: PoolState, flights: seq<Plan>, removing: bool)

  datatype Action =
    | StartUpdate(plan: Plan)
    | FailUpdate(plan: Plan)       // the provider call fails: the whole Update is one critical section
    | EndUpdate(k: nat)            // whichever way the wait ended
    | NodeArrives(node: NodeEvent)
    | AllocRecorded(alloc: AllocEvent)         // the first critical section of tryNomadAllocation
    | ReservationUsed(group: TaskGroup)        // and the second, for an allocation that was new
    | RemoveBegins
    | RemoveEnds

  const START := Sys(PoolState(map[], map[], [], []), [], false)

  const EN: Plan -> seq<Node> := (p: Plan) => p.en
  const EA: Plan -> seq<Alloc> := (p: Plan) => p.ea

  /** What the flights added, in the order they started. */
  ghost function Added<T>(flights: seq<Plan>, part: Plan -> seq<T>): seq<T> {
    if flights == [] then [] else Added(flights[..|flights| - 1], part) + part(flights[|flights| - 1])
  }

  /** The plan's identifiers are fresh. */
  ghost predicate Fresh(flights: seq<Plan>, plan: Plan) {
    && DistinctKeys(Added(flights, EN) + plan.en, NODE_KEY)
    && DistinctKeys(Added(flights, EA) + plan.ea, ALLOC_KEY)
  }

  ghost predicate Enabled(s: Sys, a: Action) {
    match a
    case StartUpdate(plan) => !s.removing && Fresh(s.flights, plan)
    case FailUpdate(plan) => !s.removing && Fresh(s.flights, plan)
    case EndUpdate(k) => k < |s.flights|
    case NodeArrives(_) => true
    case AllocRecorded(_) => true
    case ReservationUsed(_) => true
    case RemoveBegins => !s.removing && s.flights == []
    case RemoveEnds => s.removing
  }

  ghost function Apply(s: Sys, a: Action): Sys
    requires Enabled(s, a)
  {
    match a
    case StartUpdate(plan) => s.(pool := AddPlan(s.pool, plan), flights := s.flights + [plan])
    case FailUpdate(plan) => s.(pool := RemovePlan(AddPlan(s.pool, plan), plan))
    case EndUpdate(k) =>
      s.(pool := RemovePlan(s.pool, s.flights[k]), flights := s.flights[..k] + s.flights[k + 1..])
    case NodeArrives(ev) => s.(pool := OnNode(s.pool, ev))
    case AllocRecorded(ev) => s.(pool := Recorded(s.pool, ev))
    case ReservationUsed(group) => s.(pool := Consume(s.pool, group))
    case RemoveBegins => s.(removing := true)
    case RemoveEnds => s.(removing := false)
  }

  /** A list of planned records holds only what flights added, in order, each record at most once. */
  ghost predicate Ledger<T(!new)>(list: seq<T>, added: seq<T>, key: T -> Id) {
    DistinctKeys(added, key) && Subsequence(list, added)
  }

  ghost predicate Inv(s: Sys) {
    && Ledger(s.pool.en, Added(s.flights, EN), NODE_KEY)
    && Ledger(s.pool.ea, Added(s.flights, EA), ALLOC_KEY)
    && (s.removing ==> s.flights == [])
  }

  lemma {:induction false} AddedConcat<T>(a: seq<Plan>, b: seq<Plan>, part: Plan -> seq<T>)
    ensures Added(a + b, part) == Added(a, part) + Added(b, part)
    decreases |b|
  {
    if b == [] {
      assert a + b == a;
    } else {
      assert (a + b)[..|a + b| - 1] == a + b[..|b| - 1];
      AddedConcat(a, b[..|b| - 1], part);
    }
  }

  /** Distinct ids: no record of a or b shares its id with one of x. */
  lemma DisjointAround<T(!new)>(a: seq<T>, x: seq<T>, b: seq<T>, key: T -> Id)
    requires DistinctKeys(a + x + b, key)
    ensures forall i :: 0 <= i < |a| ==> !Has(x, key(a[i]), key)
    ensures forall i :: 0 <= i < |b| ==> !Has(x, key(b[i]), key)
  {
    var all := a + x + b;
    assert forall j :: 0 <= j < |x| ==> all[|a| + j] == x[j];
    assert forall i :: 0 <= i < |a| ==> all[i] == a[i];
    assert forall i :: 0 <= i < |b| ==> all[|a| + |x| + i] == b[i];
  }

  lemma KeepAround<T(!new)>(a: seq<T>, x: seq<T>, b: seq<T>, key: T -> Id)
    requires DistinctKeys(a + x + b, key)
    ensures Keep(a + x + b, x, key) == a + b
  {
    DisjointAround(a, x, b, key);
    assert forall i :: 0 <= i < |x| ==> Has(x, key(x[i]), key);
    hide *;
    KeepConcat(a + x, b, x, key);
    KeepConcat(a, x, x, key);
    KeepOthers(a, x, key);
    KeepOthers(b, x, key);
    KeepNothing(x, x, key);
    assert a + [] + b == a + b;
  }

  lemma DistinctAround<T(!new)>(a: seq<T>, x: seq<T>, b: seq<T>, key: T -> Id)
    requires DistinctKeys(a + x + b, key)
    ensures DistinctKeys(a + b, key)
  {
    var all := a + x + b;
    forall i, j | 0 <= i < j < |a + b| ensures key((a + b)[i]) != key((a + b)[j]) {
      assert all[if i < |a| then i else i + |x|] == (a + b)[i] && all[if j < |a| then j else j + |x|] == (a + b)[j];
    }
  }

  /** Taking a flight's records out leaves only records of the other flights. */
  lemma LedgerRetires<T(!new)>(list: seq<T>, a: seq<T>, x: seq<T>, b: seq<T>, key: T -> Id)
    requires Ledger(list, a + x + b, key)
    ensures Ledger(RemoveEach(list, x, key), a + b, key)
  {
    SubsequenceDistinct(list, a + x + b, key);
    RemoveEachKeeps(list, x, key);
    SubsequenceKeep(list, a + x + b, x, key);
    KeepAround(a, x, b, key);
    DistinctAround(a, x, b, key);
  }

  /** Adding a plan and taking it away again restores the list exactly. */
  lemma RollbackRestores<T(!new)>(list: seq<T>, added: seq<T>, x: seq<T>, key: T -> Id)
    requires Subsequence(list, added) && DistinctKeys(added + x, key)
    ensures RemoveEach(list + x, x, key) == list
  {
    SubsequenceAppend(list, added, x);
    SubsequenceDistinct(list + x, added + x, key);
    RemoveEachKeeps(list + x, x, key);
    assert list + x == list + x + [] && list + [] == list;
    KeepAround(list, x, [], key);
  }

  /** A failed provider call leaves both lists exactly as they were. */
  lemma FailureRestores(s: Sys, plan: Plan)
    requires Inv(s) && Enabled(s, FailUpdate(plan))
    ensures Apply(s, FailUpdate(plan)) == s
  {
    RollbackRestores(s.pool.en, Added(s.flights, EN), plan.en, NODE_KEY);
    RollbackRestores(s.pool.ea, Added(s.flights, EA), plan.ea, ALLOC_KEY);
  }

  lemma EndKeepsLedgers(s: Sys, k: nat)
    requires Inv(s) && k < |s.flights|
    ensures Inv(Apply(s, EndUpdate(k)))
  {
    var a, f, b := s.flights[..k], s.flights[k], s.flights[k + 1..];
    assert s.flights == a + [f] + b;
    AddedSplit(a, f, b, EN);
    AddedSplit(a, f, b, EA);
    LedgerRetires(s.pool.en, Added(a, EN), f.en, Added(b, EN), NODE_KEY);
    LedgerRetires(s.pool.ea, Added(a, EA), f.ea, Added(b, EA), ALLOC_KEY);
  }

  lemma AddedSplit<T>(a: seq<Plan>, f: Plan, b: seq<Plan>, part: Plan -> seq<T>)
    ensures Added(a + [f] + b, part) == Added(a, part) + part(f) + Added(b, part)
    ensures Added(a + b, part) == Added(a, part) + Added(b, part)
  {
    AddedConcat(a + [f], b, part);
    AddedConcat(a, b, part);
    assert (a + [f])[..|a|] == a;
  }

  lemma {:induction false} SubsequenceDropOutside(en: seq<Node>, all: seq<Node>, hosts: set<Id>)
    requires Subsequence(en, all)
    ensures Subsequence(DropFirstOutside(en, hosts), all)
    decreases |all|
  {
    if en != [] {
      if en[0].id !in hosts {
        SubsequenceTail(en, all);
      } else if en[0] == all[0] {
        SubsequenceDropOutside(en[1..], all[1..], hosts);
        var r := DropFirstOutside(en[1..], hosts);
        assert ([en[0]] + r)[1..] == r;
      } else {
        SubsequenceDropOutside(en, all[1..], hosts);
        SubsequenceCons(DropFirstOutside(en, hosts), all[1..], all[0]);
        assert [all[0]] + all[1..] == all;
      }
    }
  }

  lemma {:induction false} SubsequenceUnmatched(ea: seq<Alloc>, all: seq<Alloc>, group: TaskGroup)
    requires Subsequence(ea, all)
    ensures Subsequence(Unmatched(ea, group), all)
    decreases |all|
  {
    if ea != [] {
      if ea[0].group == group {
        SubsequenceTail(ea, all);
        assert Unmatched(ea, group) == ea[1..];
      } else if ea[0] == all[0] {
        SubsequenceUnmatched(ea[1..], all[1..], group);
        var r := Unmatched(ea[1..], group);
        assert Unmatched(ea, group) == [ea[0]] + r;
        assert ([ea[0]] + r)[1..] == r;
      } else {
        SubsequenceUnmatched(ea, all[1..], group);
        SubsequenceCons(Unmatched(ea, group), all[1..], all[0]);
        assert [all[0]] + all[1..] == all;
      }
    }
  }

  lemma StartKeepsLedgers(s: Sys, plan: Plan)
    requires Inv(s) && Enabled(s, StartUpdate(plan))
    ensures Inv(Apply(s, StartUpdate(plan)))
  {
    assert (s.flights + [plan])[..|s.flights|] == s.flights;
    SubsequenceAppend(s.pool.en, Added(s.flights, EN), plan.en);
    SubsequenceAppend(s.pool.ea, Added(s.flights, EA), plan.ea);
  }

  lemma ConsumeKeepsLedgers(s: Sys, group: TaskGroup)
    requires Inv(s)
    ensures Inv(Apply(s, ReservationUsed(group)))
  {
    hide DropFirstOutside, Unmatched, Subsequence, DistinctKeys;
    SubsequenceUnmatched(s.pool.ea, Added(s.flights, EA), group);
    SubsequenceDropOutside(s.pool.en, Added(s.flights, EN), HostIds(Unmatched(s.pool.ea, group)));
  }

  /** The two critical sections one right after the other are the atomic step of the pool. */
  lemma AllocIsTwoSteps(s: Sys, ev: AllocEvent)
    ensures var t := Apply(s, AllocRecorded(ev));
            s.(pool := OnAlloc(s.pool, ev))
            == if Wanted(ev) && ev.id !in s.pool.allocs then Apply(t, ReservationUsed(ev.group)) else t
  {
  }

  lemma StepKeepsInv(s: Sys, a: Action)
    requires Inv(s) && Enabled(s, a)
    ensures Inv(Apply(s, a))
  {
    match a
    case StartUpdate(plan) => StartKeepsLedgers(s, plan);
    case FailUpdate(plan) => FailureRestores(s, plan);
    case EndUpdate(k) => EndKeepsLedgers(s, k);
    case ReservationUsed(group) => ConsumeKeepsLedgers(s, group);
    case _ =>
  }

  ghost predicate Run(states: seq<Sys>, acts: seq<Action>) {
    && |states| == |acts| + 1 && states[0] == START
    && forall i :: 0 <= i < |acts| ==> Enabled(states[i], acts[i]) && states[i + 1] == Apply(states[i], acts[i])
  }

  /** The node of the allocation is still in the pool when the allocation is recorded. */
  predicate RecordsHosted(s: Sys, a: Action) {
    a.AllocRecorded? ==> AcceptsAlloc(s.pool, a.alloc)
  }

  /**
   Whatever the interleaving, each planned list is a subsequence of what the Updates in flight added; with
   none in flight, in particular throughout a RemoveNode, both are empty. And as long as no node disappears
   between the check and the record of an allocation, every allocation sits on a node of the pool.
   */
  lemma {:induction false} EveryRun(states: seq<Sys>, acts: seq<Action>, k: nat)
    requires Run(states, acts) && k < |states|
    ensures Inv(states[k])
    ensures states[k].flights == [] || states[k].removing ==> states[k].pool.en == [] && states[k].pool.ea == []
    ensures (forall i :: 0 <= i < k ==> RecordsHosted(states[i], acts[i])) ==> Hosted(states[k].pool)
    decreases k
  {
    if k > 0 {
      hide Apply, Enabled, Inv, Hosted, RecordsHosted;
      EveryRun(states, acts, k - 1);
      StepKeepsInv(states[k - 1], acts[k - 1]);
      if states[k].flights == [] || states[k].removing {
        EmptyWhenIdle(states[k]);
      }
      if forall i :: 0 <= i < k ==> RecordsHosted(states[i], acts[i]) {
        StepKeepsHosted(states[k - 1], acts[k - 1]);
      }
    }
  }

  lemma EmptyWhenIdle(s: Sys)
    requires Inv(s) && (s.flights == [] || s.removing)
    ensures s.pool.en == [] && s.pool.ea == []
  {
  }

  lemma StepKeepsHosted(s: Sys, a: Action)
    requires Enabled(s, a) && Hosted(s.pool) && RecordsHosted(s, a)
    ensures Hosted(Apply(s, a).pool)
  {
  }
}
