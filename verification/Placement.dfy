/**
 pool.go, why an Update may stop waiting: it counts the messages about its own planned allocations and stops
 at as many as it planned. Counting is enough because no planned allocation is announced twice.
 */
module Placement {
  import opened Ids
  import opened Cluster
  import opened Lists
  import opened ScalingWorker
  import opened Pools
  import opened Reservations
  import opened ReservedNodes

  // ---- The wait loop ----

  /** No message about one of these allocations is repeated; others may be. */
  ghost predicate OwnOnce(ea: seq<Alloc>, messages: seq<Id>) {
    forall i, j :: 0 <= i < j < |messages| && messages[i] == messages[j] ==> messages[i] !in AllocIds(ea)
  }

  /** The allocations, among these, that the messages announce. */
  ghost function Announced(ea: seq<Alloc>, messages: seq<Id>): set<Id> {
    set m | m in messages && m in AllocIds(ea)
  }

  method FindAlloc(ea: seq<Alloc>, id: Id) returns (k: int)
    ensures -1 <= k < |ea| && (k >= 0 <==> id in AllocIds(ea)) && (k >= 0 ==> ea[k].id == id)
  {
    for i := 0 to |ea|
      invariant forall j :: 0 <= j < i ==> ea[j].id != id
    {
      if ea[i].id == id {
        return i;
      }
    }
    k := -1;
  }

  lemma OneMoreAnnounced(ea: seq<Alloc>, messages: seq<Id>, i: nat)
    requires OwnOnce(ea, messages) && i < |messages|
    ensures messages[i] in AllocIds(ea) ==> |Announced(ea, messages[..i + 1])| == |Announced(ea, messages[..i])| + 1
    ensures messages[i] !in AllocIds(ea) ==> Announced(ea, messages[..i + 1]) == Announced(ea, messages[..i])
  {
    assert messages[..i + 1] == messages[..i] + [messages[i]];
    if messages[i] in AllocIds(ea) {
      assert messages[i] !in messages[..i];
      assert Announced(ea, messages[..i + 1]) == Announced(ea, messages[..i]) + {messages[i]};
    }
  }

  lemma {:induction false} AsManyIds(ea: seq<Alloc>)
    requires DistinctAllocs(ea)
    ensures |AllocIds(ea)| == |ea|
  {
    if ea != [] {
      var front, last := ea[..|ea| - 1], ea[|ea| - 1];
      AsManyIds(front);
      assert AllocIds(ea) == AllocIds(front) + {last.id};
    }
  }

  lemma AllOrSome(ea: seq<Alloc>, messages: seq<Id>)
    requires DistinctAllocs(ea)
    ensures |Announced(ea, messages)| <= |ea|
    ensures |Announced(ea, messages)| == |ea| <==> forall id :: id in AllocIds(ea) ==> id in messages
  {
    AsManyIds(ea);
    var rest := AllocIds(ea) - Announced(ea, messages);
    assert AllocIds(ea) == Announced(ea, messages) + rest;
    assert |AllocIds(ea)| == |Announced(ea, messages)| + |rest|;
  }

  /** The wait loop on its messages alone: it ends exactly when every planned allocation has been announced. */
  method WaitForAllocs(ea: seq<Alloc>, messages: seq<Id>) returns (all: bool)
    requires DistinctAllocs(ea) && OwnOnce(ea, messages)
    ensures all <==> ea != [] && forall id :: id in AllocIds(ea) ==> id in messages
  {
    hide OwnOnce, DistinctAllocs, Announced, AllocIds;
    var placed: seq<Alloc> := [];
    AllOrSome(ea, messages);
    NothingAnnounced(ea);
    for i := 0 to |messages|
      invariant |placed| == |Announced(ea, messages[..i])|
      invariant ea != [] ==> |placed| < |ea|
    {
      OneMoreAnnounced(ea, messages, i);
      AllOrSome(ea, messages[..i + 1]);
      var k := FindAlloc(ea, messages[i]);
      if k >= 0 {
        placed := placed + [ea[k]];
        if |placed| == |ea| {
          return true;
        }
      }
    }
    assert messages[..|messages|] == messages;
    all := false;
  }

  lemma NothingAnnounced(ea: seq<Alloc>)
    ensures Announced(ea, []) == {}
  {
  }

  // ---- What the pool announces while an Update is in flight ----

  /** The planned allocation a step announces. */
  ghost function Message(s: Sys, a: Action): Option<Id> {
    match a
    case ReservationUsed(group) => UsedUp(s.pool, group)
    case _ => None
  }

  ghost predicate Steps(states: seq<Sys>, acts: seq<Action>) {
    && |states| == |acts| + 1
    && forall i :: 0 <= i < |acts| ==> Enabled(states[i], acts[i]) && states[i + 1] == Apply(states[i], acts[i])
  }

  ghost function Messages(states: seq<Sys>, acts: seq<Action>): seq<Id>
    requires Steps(states, acts)
    decreases |acts|
  {
    if acts == [] then []
    else
      var n := |acts| - 1;
      Messages(states[..n + 1], acts[..n]) +
      match Message(states[n], acts[n]) case Some(id) => [id] case None => []
  }

  /** An announced allocation was planned, and is not any more. */
  lemma MessageUsesUp(s: Sys, a: Action, id: Id)
    requires Inv(s) && Enabled(s, a) && Message(s, a) == Some(id)
    ensures Has(s.pool.ea, id, ALLOC_KEY) && !Has(Apply(s, a).pool.ea, id, ALLOC_KEY)
  {
    var ea := s.pool.ea;
    var k := FirstMatch(ea, a.group).value;
    SubsequenceDistinct(ea, Added(s.flights, EA), ALLOC_KEY);
    assert ALLOC_KEY(ea[k]) == id;
    assert Apply(s, a).pool.ea == ea[..k] + ea[k + 1..];
  }

  /** A planned allocation that was used up does not come back while its Update is in flight. */
  lemma StepKeepsGone(s: Sys, a: Action, id: Id)
    requires Inv(s) && Enabled(s, a)
    requires Has(Added(s.flights, EA), id, ALLOC_KEY) && !Has(s.pool.ea, id, ALLOC_KEY)
    ensures !Has(Apply(s, a).pool.ea, id, ALLOC_KEY)
  {
    hide Has, Subsequence, DistinctKeys, Unmatched, RemoveEach;
    var ea, ea' := s.pool.ea, Apply(s, a).pool.ea;
    match a
    case StartUpdate(plan) =>
      NotBoth(Added(s.flights, EA), plan.ea, id, ALLOC_KEY);
      HasConcat(ea, plan.ea, id, ALLOC_KEY);
    case FailUpdate(plan) => FailureRestores(s, plan);
    case EndUpdate(k) =>
      RemoveEachIsPart(ea, s.flights[k].ea, ALLOC_KEY);
      if Has(ea', id, ALLOC_KEY) { SubsequenceHas(ea', ea, id, ALLOC_KEY); }
    case ReservationUsed(group) =>
      SubsequenceSelf(ea);
      SubsequenceUnmatched(ea, ea, group);
      if Has(ea', id, ALLOC_KEY) { SubsequenceHas(ea', ea, id, ALLOC_KEY); }
    case _ =>
  }

  lemma {:induction false} AddedHas(flights: seq<Plan>, plan: Plan, id: Id)
    requires plan in flights && id in AllocIds(plan.ea)
    ensures Has(Added(flights, EA), id, ALLOC_KEY)
    decreases |flights|
  {
    var front, last := flights[..|flights| - 1], flights[|flights| - 1];
    HasConcat(Added(front, EA), last.ea, id, ALLOC_KEY);
    if plan == last {
      var i :| 0 <= i < |plan.ea| && plan.ea[i].id == id;
      assert ALLOC_KEY(last.ea[i]) == id;
    } else {
      AddedHas(front, plan, id);
    }
  }

  /** One more step: a new message about an own reservation is a first one, and used-up ones stay used up. */
  lemma StepAnnouncesOnce(s: Sys, a: Action, plan: Plan, before: seq<Id>)
    requires Inv(s) && Enabled(s, a) && plan in s.flights && OwnOnce(plan.ea, before)
    requires forall id :: id in AllocIds(plan.ea) && id in before ==> !Has(s.pool.ea, id, ALLOC_KEY)
    ensures var after := before + match Message(s, a) case Some(id) => [id] case None => [];
            && OwnOnce(plan.ea, after)
            && forall id :: id in AllocIds(plan.ea) && id in after ==> !Has(Apply(s, a).pool.ea, id, ALLOC_KEY)
  {
    hide Inv, Enabled, Apply, Has, AllocIds, Message, Added;
    forall id | id in AllocIds(plan.ea) && id in before ensures !Has(Apply(s, a).pool.ea, id, ALLOC_KEY) {
      AddedHas(s.flights, plan, id);
      StepKeepsGone(s, a, id);
    }
    if Message(s, a).Some? {
      MessageUsesUp(s, a, Message(s, a).value);
    }
  }

  /**
   However other Updates and events interleave, while an Update is in flight no planned allocation of its
   own is announced twice, and an announced one is no longer reserved. So the wait loop's count is right.
   */
  lemma {:induction false} AnnouncedOnce(states: seq<Sys>, acts: seq<Action>, plan: Plan)
    requires Steps(states, acts) && Inv(states[0])
    requires forall k :: 0 <= k < |states| ==> plan in states[k].flights
    ensures Inv(states[|acts|])
    ensures OwnOnce(plan.ea, Messages(states, acts))
    ensures forall id :: id in AllocIds(plan.ea) && id in Messages(states, acts) ==>
              !Has(states[|acts|].pool.ea, id, ALLOC_KEY)
    decreases |acts|
  {
    if acts != [] {
      hide Inv, Enabled, Apply, Has, AllocIds, Message, OwnOnce;
      var n := |acts| - 1;
      AnnouncedOnce(states[..n + 1], acts[..n], plan);
      StepKeepsInv(states[n], acts[n]);
      StepAnnouncesOnce(states[n], acts[n], plan, Messages(states[..n + 1], acts[..n]));
    }
  }

  /** Another flight's end takes none of this one's reservations. */
  lemma OwnStays(s: Sys, k: nat, plan: Plan, id: Id)
    requires Inv(s) && k < |s.flights| && plan in Apply(s, EndUpdate(k)).flights
    requires id in AllocIds(plan.ea) && Has(s.pool.ea, id, ALLOC_KEY)
    ensures Has(Apply(s, EndUpdate(k)).pool.ea, id, ALLOC_KEY)
  {
    hide Subsequence, DistinctKeys, Hosted;
    var i :| 0 <= i < |s.pool.ea| && ALLOC_KEY(s.pool.ea[i]) == id;
    var t := s.pool.ea[i];
    Retired(s.pool.ea, s.flights, EA, ALLOC_KEY, k, t);
    var left := s.flights[..k] + s.flights[k + 1..];
    var m :| 0 <= m < |left| && left[m] == plan;
    var j := if m < k then m else m + 1;
    assert s.flights[j] == plan;
    var n :| 0 <= n < |plan.ea| && plan.ea[n].id == id;
    var own := plan.ea[n];
    if t in s.flights[k].ea {
      if j < k {
        AddedDisjoint(s.flights, EA, ALLOC_KEY, j, k, own, t);
      } else {
        AddedDisjoint(s.flights, EA, ALLOC_KEY, k, j, t, own);
      }
    }
    HasMember(RemoveEach(s.pool.ea, s.flights[k].ea, ALLOC_KEY), t);
  }

  lemma HasMember(ea: seq<Alloc>, t: Alloc)
    requires t in ea
    ensures Has(ea, t.id, ALLOC_KEY)
  {
    var i :| 0 <= i < |ea| && ea[i] == t;
    assert ALLOC_KEY(ea[i]) == t.id;
  }

  /** A reservation of an Update in flight only goes by being used up, and then it is announced. */
  lemma LostIsAnnounced(s: Sys, a: Action, plan: Plan, id: Id)
    requires Inv(s) && Enabled(s, a) && plan in s.flights && plan in Apply(s, a).flights
    requires id in AllocIds(plan.ea) && Has(s.pool.ea, id, ALLOC_KEY) && !Has(Apply(s, a).pool.ea, id, ALLOC_KEY)
    ensures Message(s, a) == Some(id)
  {
    match a
    case StartUpdate(p) => HasConcat(s.pool.ea, p.ea, id, ALLOC_KEY);
    case FailUpdate(p) => FailureRestores(s, p);
    case EndUpdate(k) => OwnStays(s, k, plan, id);
    case ReservationUsed(group) => if UsedUp(s.pool, group) != Some(id) { OthersStay(s.pool, group, id); }
    case _ =>
  }

  lemma OthersStay(p: PoolState, group: TaskGroup, id: Id)
    requires Has(p.ea, id, ALLOC_KEY) && UsedUp(p, group) != Some(id)
    ensures Has(Consume(p, group).ea, id, ALLOC_KEY)
  {
    var k, m := ConsumeMeaning(p, group);
    var i :| 0 <= i < |p.ea| && ALLOC_KEY(p.ea[i]) == id;
    var q := Consume(p, group).ea;
    hide Consume, UsedUp;
    assert k < |p.ea| ==> i != k;
    assert p.ea[i] == q[if i < k then i else i - 1];
    assert ALLOC_KEY(q[if i < k then i else i - 1]) == id;
  }

  /**
   However other Updates and events interleave, from the moment an Update has reserved its allocations until it
   ends, exactly those that are not reserved any more have been announced.
   */
  lemma {:induction false} AnnouncedIff(states: seq<Sys>, acts: seq<Action>, plan: Plan)
    requires Steps(states, acts) && Inv(states[0])
    requires forall k :: 0 <= k < |states| ==> plan in states[k].flights
    requires forall id :: id in AllocIds(plan.ea) ==> Has(states[0].pool.ea, id, ALLOC_KEY)
    ensures forall id :: id in AllocIds(plan.ea) ==>
              (id in Messages(states, acts) <==> !Has(states[|acts|].pool.ea, id, ALLOC_KEY))
    decreases |acts|
  {
    AnnouncedOnce(states, acts, plan);
    if acts != [] {
      hide Inv, Enabled, Apply, Has, AllocIds, Message, Added;
      var n := |acts| - 1;
      AnnouncedIff(states[..n + 1], acts[..n], plan);
      AnnouncedOnce(states[..n + 1], acts[..n], plan);
      forall id | id in AllocIds(plan.ea) && !Has(states[n + 1].pool.ea, id, ALLOC_KEY)
        ensures id in Messages(states, acts)
      {
        if Has(states[n].pool.ea, id, ALLOC_KEY) {
          LostIsAnnounced(states[n], acts[n], plan, id);
        }
      }
    }
  }

  /** An Update that has just started has reserved all its allocations. */
  lemma StartReserves(s: Sys, plan: Plan, id: Id)
    requires Enabled(s, StartUpdate(plan)) && id in AllocIds(plan.ea)
    ensures plan in Apply(s, StartUpdate(plan)).flights && Has(Apply(s, StartUpdate(plan)).pool.ea, id, ALLOC_KEY)
  {
    var i :| 0 <= i < |plan.ea| && plan.ea[i].id == id;
    assert ALLOC_KEY(plan.ea[i]) == id;
    HasConcat(s.pool.ea, plan.ea, id, ALLOC_KEY);
  }

  /** An Update whose wait ends because everything is placed has no reservation left to take back. */
  lemma AllPlacedLeavesNothing(states: seq<Sys>, acts: seq<Action>, plan: Plan)
    requires Steps(states, acts) && Inv(states[0])
    requires forall k :: 0 <= k < |states| ==> plan in states[k].flights
    requires forall id :: id in AllocIds(plan.ea) ==> id in Messages(states, acts)
    ensures RemoveEach(states[|acts|].pool.ea, plan.ea, ALLOC_KEY) == states[|acts|].pool.ea
  {
    AnnouncedOnce(states, acts, plan);
    var ea := states[|acts|].pool.ea;
    SubsequenceDistinct(ea, Added(states[|acts|].flights, EA), ALLOC_KEY);
    RemoveEachKeeps(ea, plan.ea, ALLOC_KEY);
    forall i | 0 <= i < |ea| ensures !Has(plan.ea, ALLOC_KEY(ea[i]), ALLOC_KEY) {
      if Has(plan.ea, ALLOC_KEY(ea[i]), ALLOC_KEY) {
        assert ea[i].id in AllocIds(plan.ea);
        assert Has(ea, ea[i].id, ALLOC_KEY);
      }
    }
    KeepOthers(ea, plan.ea, ALLOC_KEY);
  }
}
