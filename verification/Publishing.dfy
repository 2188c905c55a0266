/**
 pool.go, publish and subscribe: a node or allocation event is handed to every subscriber while the pool's
 lock is held. An Update subscribes to both topics and needs the lock again when it leaves; a WarmUp
 subscribes to node counts only and never needs it again.
 */
module Publishing {
  import opened Ids

  datatype Kind = Updater | Warmer

  datatype Phase =
    | Handling     // took a message, works on it without the lock
    | Listening    // blocked on its channels
    | Leaving      // decided to stop, has closed nothing yet
    | HalfClosed   // closed the monitor of the node topic only
    | Closed       // closed its monitors; an Updater now asks for the lock
    | Finished

  datatype Sub = Sub(kind: Kind, phase: Phase)

  datatype Topic = NodeCounts | PlacedAllocs

  /** The publisher holds the lock: who is still to be served and who stays subscribed. */
  datatype Round = Round(topic: Topic, ahead: seq<nat>, kept: seq<nat>)

  datatype Hub = Hub(
    subs: seq<Sub>,              // every subscriber there ever was
    nodeSubs: seq<nat>,          // countNodesPubCh
    allocSubs: seq<nat>,         // countAllocsPubCh
    publishing: Option<Round>,   // the lock is free exactly when nobody publishes
    nodeClosed: set<nat>,        // consumer channels the publisher has closed
    allocClosed: set<nat>)

  datatype Action =
    | Subscribe(kind: Kind)
    | StartRound(topic: Topic)
    | Deliver              // the subscriber at the head takes the message
    | DropClosed           // the subscriber at the head has closed its monitor
    | EndRound
    | Handled(s: nat, leave: bool)
    | GiveUp(s: nat)       // context done or timer
    | CloseNodeMonitor(s: nat)
    | CloseAllocMonitor(s: nat)
    | Finish(s: nat)       // an Updater's clean-up under the lock, a Warmer's return

  const START := Hub([], [], [], None, {}, {})

  predicate MonitorClosed(h: Hub, s: nat, topic: Topic)
    requires s < |h.subs|
  {
    match topic
    case NodeCounts => h.subs[s].phase.HalfClosed? || h.subs[s].phase.Closed? || h.subs[s].phase.Finished?
    case PlacedAllocs => h.subs[s].phase.Closed? || h.subs[s].phase.Finished?
  }

  predicate Enabled(h: Hub, a: Action) {
    match a
    case Subscribe(_) => h.publishing.None?
    case StartRound(_) => h.publishing.None?
    case Deliver =>
      h.publishing.Some? && h.publishing.value.ahead != [] &&
      var s := h.publishing.value.ahead[0]; s < |h.subs| && h.subs[s].phase.Listening?
    case DropClosed =>
      h.publishing.Some? && h.publishing.value.ahead != [] &&
      var s := h.publishing.value.ahead[0]; s < |h.subs| && MonitorClosed(h, s, h.publishing.value.topic)
    case EndRound => h.publishing.Some? && h.publishing.value.ahead == []
    case Handled(s, _) => s < |h.subs| && h.subs[s].phase.Handling?
    case GiveUp(s) => s < |h.subs| && h.subs[s].phase.Listening? && h.subs[s].kind.Updater?
    case CloseNodeMonitor(s) => s < |h.subs| && h.subs[s].phase.Leaving?
    case CloseAllocMonitor(s) => s < |h.subs| && h.subs[s].phase.HalfClosed?
    case Finish(s) =>
      s < |h.subs| && h.subs[s].phase.Closed? && (h.subs[s].kind.Updater? ==> h.publishing.None?)
  }

  function Move(h: Hub, s: nat, phase: Phase): Hub
    requires s < |h.subs|
  {
    h.(subs := h.subs[s := h.subs[s].(phase := phase)])
  }

  function Apply(h: Hub, a: Action): Hub
    requires Enabled(h, a)
  {
    match a
    case Subscribe(kind) =>
      h.(subs := h.subs + [Sub(kind, Listening)], nodeSubs := h.nodeSubs + [|h.subs|],
         allocSubs := if kind.Updater? then h.allocSubs + [|h.subs|] else h.allocSubs)
    case StartRound(topic) =>
      h.(publishing := Some(Round(topic, if topic.NodeCounts? then h.nodeSubs else h.allocSubs, [])))
    case Deliver =>
      var r := h.publishing.value;
      Move(h, r.ahead[0], Handling).(publishing := Some(r.(ahead := r.ahead[1..], kept := r.kept + [r.ahead[0]])))
    case DropClosed =>
      var r := h.publishing.value;
      var h' := h.(publishing := Some(r.(ahead := r.ahead[1..])));
      if r.topic.NodeCounts? then h'.(nodeClosed := h.nodeClosed + {r.ahead[0]})
      else h'.(allocClosed := h.allocClosed + {r.ahead[0]})
    case EndRound =>
      var r := h.publishing.value;
      if r.topic.NodeCounts? then h.(nodeSubs := r.kept, publishing := None)
      else h.(allocSubs := r.kept, publishing := None)
    case Handled(s, leave) => Move(h, s, if leave then Leaving else Listening)
    case GiveUp(s) => Move(h, s, Leaving)
    case CloseNodeMonitor(s) => Move(h, s, if h.subs[s].kind.Updater? then HalfClosed else Closed)
    case CloseAllocMonitor(s) => Move(h, s, Closed)
    case Finish(s) => Move(h, s, Finished)
  }

  /** A list of open subscriptions of the topic, none twice. */
  ghost predicate OpenList(h: Hub, list: seq<nat>, topic: Topic) {
    && Distinct(list)
    && forall i :: 0 <= i < |list| ==>
         && list[i] < |h.subs|
         && (topic.NodeCounts? ==> list[i] !in h.nodeClosed)
         && (topic.PlacedAllocs? ==> list[i] !in h.allocClosed && h.subs[list[i]].kind.Updater?)
  }

  ghost predicate Inv(h: Hub) {
    && (match h.publishing
        case None => OpenList(h, h.nodeSubs, NodeCounts) && OpenList(h, h.allocSubs, PlacedAllocs)
        case Some(r) =>
          && OpenList(h, r.kept + r.ahead, r.topic)
          && (r.topic.NodeCounts? ==> OpenList(h, h.allocSubs, PlacedAllocs))
          && (r.topic.PlacedAllocs? ==> OpenList(h, h.nodeSubs, NodeCounts)))
    && (forall s :: s in h.nodeClosed || s in h.allocClosed ==> s < |h.subs|)
    && (forall s :: 0 <= s < |h.subs| && h.subs[s].phase.HalfClosed? ==> h.subs[s].kind.Updater?)
  }

  lemma ServedKeepsOpen(h: Hub, h': Hub, r: Round)
    requires OpenList(h, r.kept + r.ahead, r.topic) && r.ahead != []
    requires |h'.subs| == |h.subs| && forall s :: 0 <= s < |h.subs| ==> h'.subs[s].kind == h.subs[s].kind
    requires h'.nodeClosed <= h.nodeClosed + (if r.topic.NodeCounts? then {r.ahead[0]} else {})
    requires h'.allocClosed <= h.allocClosed + (if r.topic.PlacedAllocs? then {r.ahead[0]} else {})
    ensures OpenList(h', r.kept + r.ahead[1..], r.topic)
  {
    var before, after := r.kept + r.ahead, r.kept + r.ahead[1..];
    assert before[|r.kept|] == r.ahead[0];
    assert forall i :: 0 <= i < |after| ==> after[i] == before[if i < |r.kept| then i else i + 1];
  }

  /** Subscribers move on, new ones come: an open list stays open. */
  lemma OpenStays(h: Hub, h': Hub, list: seq<nat>, topic: Topic)
    requires OpenList(h, list, topic)
    requires |h.subs| <= |h'.subs| && forall s :: 0 <= s < |h.subs| ==> h'.subs[s].kind == h.subs[s].kind
    requires topic.NodeCounts? ==> h'.nodeClosed == h.nodeClosed
    requires topic.PlacedAllocs? ==> h'.allocClosed == h.allocClosed
    ensures OpenList(h', list, topic)
  {
  }

  lemma MoveKeepsInv(h: Hub, s: nat, phase: Phase)
    requires Inv(h) && s < |h.subs| && (phase.HalfClosed? ==> h.subs[s].kind.Updater?)
    ensures Inv(Move(h, s, phase))
  {
  }

  lemma SubscribeKeepsInv(h: Hub, kind: Kind)
    requires Inv(h) && h.publishing.None?
    ensures Inv(Apply(h, Subscribe(kind)))
  {
  }

  lemma DropKeepsInv(h: Hub)
    requires Inv(h) && Enabled(h, DropClosed)
    ensures Inv(Apply(h, DropClosed))
  {
    var h', r := Apply(h, DropClosed), h.publishing.value;
    ServedKeepsOpen(h, h', r);
    if r.topic.NodeCounts? {
      OpenStays(h, h', h.allocSubs, PlacedAllocs);
    } else {
      OpenStays(h, h', h.nodeSubs, NodeCounts);
    }
  }

  lemma StartKeepsInv(h: Hub, topic: Topic)
    requires Inv(h) && h.publishing.None?
    ensures Inv(Apply(h, StartRound(topic)))
  {
  }

  lemma EndKeepsInv(h: Hub)
    requires Inv(h) && Enabled(h, EndRound)
    ensures Inv(Apply(h, EndRound))
  {
    assert h.publishing.value.kept + [] == h.publishing.value.kept;
  }

  lemma DeliverKeepsInv(h: Hub)
    requires Inv(h) && Enabled(h, Deliver)
    ensures Inv(Apply(h, Deliver))
  {
    var h', r := Apply(h, Deliver), h.publishing.value;
    var r' := h'.publishing.value;
    assert r'.kept + r'.ahead == r.kept + r.ahead;
    OpenStays(h, h', r.kept + r.ahead, r.topic);
    if r.topic.NodeCounts? {
      OpenStays(h, h', h.allocSubs, PlacedAllocs);
    } else {
      OpenStays(h, h', h.nodeSubs, NodeCounts);
    }
  }

  lemma StepKeepsInv(h: Hub, a: Action)
    requires Inv(h) && Enabled(h, a)
    ensures Inv(Apply(h, a))
  {
    hide OpenList;
    match a
    case Subscribe(kind) => SubscribeKeepsInv(h, kind);
    case StartRound(topic) => StartKeepsInv(h, topic);
    case Deliver => DeliverKeepsInv(h);
    case DropClosed => DropKeepsInv(h);
    case EndRound => EndKeepsInv(h);
    case Handled(s, leave) => MoveKeepsInv(h, s, if leave then Leaving else Listening);
    case GiveUp(s) => MoveKeepsInv(h, s, Leaving);
    case CloseNodeMonitor(s) => MoveKeepsInv(h, s, if h.subs[s].kind.Updater? then HalfClosed else Closed);
    case CloseAllocMonitor(s) => MoveKeepsInv(h, s, Closed);
    case Finish(s) => MoveKeepsInv(h, s, Finished);
  }

  ghost predicate Run(states: seq<Hub>, acts: seq<Action>) {
    && |states| == |acts| + 1
    && forall i :: 0 <= i < |acts| ==> Enabled(states[i], acts[i]) && states[i + 1] == Apply(states[i], acts[i])
  }

  lemma {:induction false} EveryRun(states: seq<Hub>, acts: seq<Action>, k: nat)
    requires Run(states, acts) && states[0] == START && k < |states|
    ensures Inv(states[k])
    decreases k
  {
    if k > 0 {
      EveryRun(states, acts, k - 1);
      StepKeepsInv(states[k - 1], acts[k - 1]);
    }
  }

  /** A consumer channel the publisher closes was not closed before: a second close would panic. */
  lemma ClosedAtMostOnce(h: Hub, a: Action)
    requires Inv(h) && Enabled(h, a) && a.DropClosed?
    ensures var r := h.publishing.value;
            if r.topic.NodeCounts? then r.ahead[0] !in h.nodeClosed else r.ahead[0] !in h.allocClosed
  {
    var r := h.publishing.value;
    assert (r.kept + r.ahead)[|r.kept|] == r.ahead[0];
  }

  // ---- Nobody is lost ----

  /** The subscriptions of a topic, also while they are being served. */
  function Subscribed(h: Hub, topic: Topic): seq<nat> {
    if h.publishing.Some? && h.publishing.value.topic == topic then h.publishing.value.kept + h.publishing.value.ahead
    else if topic.NodeCounts? then h.nodeSubs
    else h.allocSubs
  }

  function ClosedOf(h: Hub, topic: Topic): set<nat> {
    if topic.NodeCounts? then h.nodeClosed else h.allocClosed
  }

  /** Of those who ever subscribed to the topic, each still is, or closed its monitor and has had its channel closed. */
  ghost predicate Complete(h: Hub, topic: Topic) {
    && (forall s :: 0 <= s < |h.subs| && (topic.NodeCounts? || h.subs[s].kind.Updater?) ==>
          s in Subscribed(h, topic) || s in ClosedOf(h, topic))
    && (forall s :: s in ClosedOf(h, topic) ==> s < |h.subs| && MonitorClosed(h, s, topic))
  }

  /** A subscription ends only by being dropped, which closes its consumer channel. */
  lemma StaysSubscribed(h: Hub, a: Action, topic: Topic, s: nat)
    requires Enabled(h, a) && s in Subscribed(h, topic)
    ensures s in Subscribed(Apply(h, a), topic) || s in ClosedOf(Apply(h, a), topic)
  {
    if a.Deliver? || a.DropClosed? {
      var r := h.publishing.value;
      assert r.ahead == [r.ahead[0]] + r.ahead[1..];
    }
    if a.EndRound? {
      assert h.publishing.value.kept + [] == h.publishing.value.kept;
    }
  }

  lemma NewIsSubscribed(h: Hub, kind: Kind, topic: Topic)
    requires Enabled(h, Subscribe(kind)) && (topic.NodeCounts? || kind.Updater?)
    ensures |h.subs| in Subscribed(Apply(h, Subscribe(kind)), topic)
  {
    assert (h.nodeSubs + [|h.subs|])[|h.nodeSubs|] == |h.subs|;
    assert (h.allocSubs + [|h.subs|])[|h.allocSubs|] == |h.subs|;
  }

  lemma ClosedHasMonitor(h: Hub, a: Action, topic: Topic, s: nat)
    requires Enabled(h, a) && Complete(h, topic) && s in ClosedOf(Apply(h, a), topic)
    ensures s < |Apply(h, a).subs| && MonitorClosed(Apply(h, a), s, topic)
  {
    if !(a.DropClosed? && s == h.publishing.value.ahead[0] && topic == h.publishing.value.topic) {
      assert s in ClosedOf(h, topic);
      assert s < |h.subs| && MonitorClosed(h, s, topic);
    }
  }

  lemma StepKeepsComplete(h: Hub, a: Action, topic: Topic)
    requires Complete(h, topic) && Enabled(h, a)
    ensures Complete(Apply(h, a), topic)
  {
    var h' := Apply(h, a);
    forall s: nat | s < |h'.subs| && (topic.NodeCounts? || h'.subs[s].kind.Updater?)
      ensures s in Subscribed(h', topic) || s in ClosedOf(h', topic)
    {
      if s == |h.subs| {
        NewIsSubscribed(h, a.kind, topic);
      } else if s in Subscribed(h, topic) {
        StaysSubscribed(h, a, topic, s);
      }
    }
    forall s | s in ClosedOf(h', topic) ensures s < |h'.subs| && MonitorClosed(h', s, topic) {
      ClosedHasMonitor(h, a, topic, s);
    }
  }

  /**
   In every run each subscriber that has not closed its monitor of a topic is subscribed to it, so no round passes
   it over, and a consumer channel is closed only after its monitor.
   */
  lemma {:induction false} NobodyIsLost(states: seq<Hub>, acts: seq<Action>, k: nat, topic: Topic)
    requires Run(states, acts) && states[0] == START && k < |states|
    ensures Complete(states[k], topic)
    decreases k
  {
    if k > 0 {
      NobodyIsLost(states, acts, k - 1, topic);
      StepKeepsComplete(states[k - 1], acts[k - 1], topic);
    }
  }

  // ---- No deadlock ----

  /** A publisher that holds the lock, or the subscriber it faces, can always go on. */
  lemma PublisherNeverStuck(h: Hub) returns (a: Action)
    requires Inv(h) && h.publishing.Some?
    ensures Enabled(h, a)
    ensures a.Deliver? || a.DropClosed? || a.EndRound? ||
            (h.publishing.value.ahead != [] &&
             (a == Handled(h.publishing.value.ahead[0], true)
              || a == CloseNodeMonitor(h.publishing.value.ahead[0])
              || a == CloseAllocMonitor(h.publishing.value.ahead[0])))
  {
    var r := h.publishing.value;
    if r.ahead == [] {
      a := EndRound;
    } else {
      var s := r.ahead[0];
      assert (r.kept + r.ahead)[|r.kept|] == s;
      match h.subs[s].phase {
        case Handling => a := Handled(s, true);
        case Listening => a := Deliver;
        case Leaving => a := CloseNodeMonitor(s);
        case HalfClosed => a := if r.topic.NodeCounts? then DropClosed else CloseAllocMonitor(s);
        case Closed => a := DropClosed;
        case Finished => a := DropClosed;
      }
    }
  }

  function PhaseRank(p: Phase): nat {
    match p
    case Handling => 5
    case Listening => 4
    case Leaving => 3
    case HalfClosed => 2
    case Closed => 1
    case Finished => 0
  }

  function TotalRank(subs: seq<Sub>): nat {
    if subs == [] then 0 else TotalRank(subs[..|subs| - 1]) + PhaseRank(subs[|subs| - 1].phase)
  }

  lemma {:induction false} RankMoves(subs: seq<Sub>, s: nat, phase: Phase)
    requires s < |subs|
    ensures TotalRank(subs[s := subs[s].(phase := phase)])
         == TotalRank(subs) - PhaseRank(subs[s].phase) + PhaseRank(phase)
  {
    var n := |subs| - 1;
    var subs' := subs[s := subs[s].(phase := phase)];
    if s < n {
      RankMoves(subs[..n], s, phase);
      assert subs'[..n] == subs[..n][s := subs[s].(phase := phase)];
    } else {
      assert subs'[..n] == subs[..n];
    }
  }

  /** How many steps everybody together can still take before the round ends. */
  function Budget(h: Hub): nat
    requires h.publishing.Some?
  {
    TotalRank(h.subs) + 6 * |h.publishing.value.ahead|
  }

  lemma StepSpends(h: Hub, a: Action)
    requires h.publishing.Some? && Enabled(h, a) && a != EndRound
    ensures Apply(h, a).publishing.Some? && Budget(Apply(h, a)) < Budget(h)
  {
    match a
    case Deliver => RankMoves(h.subs, h.publishing.value.ahead[0], Handling);
    case Handled(s, leave) => RankMoves(h.subs, s, if leave then Leaving else Listening);
    case GiveUp(s) => RankMoves(h.subs, s, Leaving);
    case CloseNodeMonitor(s) => RankMoves(h.subs, s, if h.subs[s].kind.Updater? then HalfClosed else Closed);
    case CloseAllocMonitor(s) => RankMoves(h.subs, s, Closed);
    case Finish(s) => RankMoves(h.subs, s, Finished);
    case DropClosed =>
  }

  /**
   However the publisher and all subscribers are scheduled, a round under way takes at most Budget more
   steps and never blocks: then it ends and the lock is free again.
   */
  lemma {:induction false} RoundsEnd(states: seq<Hub>, acts: seq<Action>)
    requires Run(states, acts) && Inv(states[0]) && states[0].publishing.Some?
    requires EndRound !in acts
    ensures states[|acts|].publishing.Some? && |acts| + Budget(states[|acts|]) <= Budget(states[0])
    ensures exists a :: Enabled(states[|acts|], a)
    decreases |acts|
  {
    if acts == [] {
      var a := PublisherNeverStuck(states[0]);
    } else {
      StepKeepsInv(states[0], acts[0]);
      StepSpends(states[0], acts[0]);
      RoundsEnd(states[1..], acts[1..]);
    }
  }
}
