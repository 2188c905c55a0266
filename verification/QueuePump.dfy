/**
 queue.go, the hand-off: one pump goroutine peeks at the head and offers it on an unbuffered channel,
 consumers that receive the offer then pop the head themselves under the lock. Each action below is one
 lock region or one channel communication, interleaved in any order with any number of consumers.

 Items are tickets: the position of their Enqueue in the log of all Enqueue calls.
 */
module QueuePump {
  import opened WorkQueue

  datatype Pump = Peeking | Offering(peeked: Entry<nat>) | Sleeping

  datatype Net = Net(
    queue: seq<Entry<nat>>,
    wake: bool,             // the one-slot wake-up channel holds a token
    pump: Pump,
    waiting: nat,           // consumers blocked on the offer channel
    woken: nat,             // consumers that received an offer and have not locked the queue yet
    log: seq<string>,       // history: the ids of all Enqueue calls
    delivered: seq<nat>,    // history: tickets returned by Dequeue, in order
    removed: set<nat>,      // history: tickets taken out by Remove
    calls: nat)             // history: how often Dequeue was called

  datatype Action =
    | Enqueue(id: string)
    | Remove(id: string)
    | Call        // a consumer calls Dequeue
    | Peek
    | TakeToken
    | HandOff
    | Pop

  const START := Net([], false, Peeking, 0, 0, [], [], {}, 0)

  function Tickets(q: seq<Entry<nat>>): (r: seq<nat>)
    ensures |r| == |q| && forall i :: 0 <= i < |q| ==> r[i] == q[i].item
  {
    seq(|q|, i requires 0 <= i < |q| => q[i].item)
  }

  predicate Enabled(n: Net, a: Action) {
    match a
    case Enqueue(id) => !Queued(n.queue, id)
    case Remove(_) => true
    case Call => true
    case Peek => n.pump.Peeking?
    case TakeToken => n.pump.Sleeping? && n.wake
    case HandOff => n.pump.Offering? && n.waiting > 0
    case Pop => n.woken > 0
  }

  ghost function Apply(n: Net, a: Action): Net
    requires Enabled(n, a)
  {
    match a
    case Enqueue(id) => n.(queue := n.queue + [Entry(|n.log|, id)], log := n.log + [id], wake := true)
    case Remove(id) =>
      if Queued(n.queue, id)
      then n.(queue := Without(n.queue, id), removed := n.removed + {n.queue[Position(n.queue, id)].item})
      else n
    case Call => n.(waiting := n.waiting + 1, calls := n.calls + 1)
    case Peek => n.(pump := if n.queue == [] then Sleeping else Offering(n.queue[0]))
    case TakeToken => n.(pump := Peeking, wake := false)
    case HandOff => n.(pump := Peeking, waiting := n.waiting - 1, woken := n.woken + 1)
    case Pop =>
      if n.queue == [] then n.(woken := n.woken - 1, waiting := n.waiting + 1)
      else n.(woken := n.woken - 1, queue := n.queue[1..], delivered := n.delivered + [n.queue[0].item])
  }

  ghost predicate Increasing(s: seq<nat>) {
    forall i, j :: 0 <= i < j < |s| ==> s[i] < s[j]
  }

  /** Everything delivered and then everything still queued: the order consumers see. */
  ghost function Order(n: Net): seq<nat> {
    n.delivered + Tickets(n.queue)
  }

  /** What every interleaving keeps. */
  ghost predicate Inv(n: Net) {
    && DistinctIds(n.queue)
    && (forall i :: 0 <= i < |n.queue| ==>
          n.queue[i].item < |n.log| && n.log[n.queue[i].item] == n.queue[i].id)
    // delivery is in enqueue order, and whatever is still queued comes later
    && Increasing(Order(n))
    // no ticket is both removed and delivered or queued, and together they are all the enqueued ones
    && (forall i :: 0 <= i < |Order(n)| ==> Order(n)[i] < |n.log| && Order(n)[i] !in n.removed)
    && (forall t :: t in n.removed ==> t < |n.log|)
    && |n.delivered| + |n.queue| + |n.removed| == |n.log|
    // each call of Dequeue has returned one item or is still in progress
    && n.waiting + n.woken + |n.delivered| == n.calls
    // no wake-up is lost
    && (n.pump.Sleeping? && n.queue != [] ==> n.wake)
  }

  /** The order after a removal is the order before it with one place taken out. */
  lemma RemoveDropsOne(n: Net, id: string)
    requires Queued(n.queue, id)
    ensures var n', c := Apply(n, Remove(id)), |n.delivered| + Position(n.queue, id);
            && |Order(n')| == |Order(n)| - 1
            && (forall i :: 0 <= i < |Order(n')| ==> Order(n')[i] == Order(n)[if i < c then i else i + 1])
            && n'.removed == n.removed + {Order(n)[c]}
  {
  }

  lemma RemoveKeepsOrder(n: Net, id: string)
    requires Inv(n) && Queued(n.queue, id)
    ensures var n' := Apply(n, Remove(id));
            && Increasing(Order(n'))
            && forall i :: 0 <= i < |Order(n')| ==> Order(n')[i] < |n'.log| && Order(n')[i] !in n'.removed
  {
    RemoveDropsOne(n, id);
    hide Order, Without;
  }

  lemma RemoveKeepsQueue(n: Net, id: string)
    requires Inv(n) && Queued(n.queue, id)
    ensures var n' := Apply(n, Remove(id));
            && DistinctIds(n'.queue) && |n'.queue| == |n.queue| - 1
            && forall i :: 0 <= i < |n'.queue| ==>
                 n'.queue[i].item < |n'.log| && n'.log[n'.queue[i].item] == n'.queue[i].id
  {
    var k := Position(n.queue, id);
    WithoutMeaning(n.queue, id);
    SliceDeletes(n.queue, k);
    hide Order, Increasing;
  }

  lemma RemoveKeepsInv(n: Net, id: string)
    requires Inv(n) && Queued(n.queue, id)
    ensures Inv(Apply(n, Remove(id)))
  {
    var k := Position(n.queue, id);
    RemoveKeepsOrder(n, id);
    RemoveKeepsQueue(n, id);
    assert Tickets(n.queue)[k] == Order(n)[|n.delivered| + k];
    hide Increasing, Order, DistinctIds, Without;
  }

  lemma EnqueueKeepsInv(n: Net, id: string)
    requires Inv(n) && !Queued(n.queue, id)
    ensures Inv(Apply(n, Enqueue(id)))
  {
    assert Order(Apply(n, Enqueue(id))) == Order(n) + [|n.log|];
  }

  lemma StepKeepsInv(n: Net, a: Action)
    requires Inv(n) && Enabled(n, a)
    ensures Inv(Apply(n, a))
  {
    match a
    case Remove(id) => if Queued(n.queue, id) { RemoveKeepsInv(n, id); }
    case Enqueue(id) => EnqueueKeepsInv(n, id);
    case Pop => assert Order(Apply(n, a)) == Order(n);
    case _ => assert Order(Apply(n, a)) == Order(n);
  }

  /** A run from one state to another. */
  ghost predicate Run(states: seq<Net>, acts: seq<Action>) {
    && |states| == |acts| + 1
    && forall i :: 0 <= i < |acts| ==> Enabled(states[i], acts[i]) && states[i + 1] == Apply(states[i], acts[i])
  }

  /**
   Over every run of pump, consumers and producers: deliveries are exactly the enqueued items that were
   neither removed nor still wait, in enqueue order, and the pump never sleeps on a non-empty queue
   without a pending token.
   */
  lemma {:induction false} EveryRun(states: seq<Net>, acts: seq<Action>, k: nat)
    requires Run(states, acts) && states[0] == START && k < |states|
    ensures Inv(states[k])
    ensures Increasing(states[k].delivered)
    ensures states[k].pump.Sleeping? && states[k].queue != [] ==> states[k].wake
    ensures forall t :: t in states[k].removed ==> t !in states[k].delivered
    decreases k
  {
    if k > 0 {
      hide Inv, Apply, Enabled;
      EveryRun(states, acts, k - 1);
      StepKeepsInv(states[k - 1], acts[k - 1]);
    }
    DeliveredInOrder(states[k]);
  }

  lemma DeliveredInOrder(n: Net)
    requires Inv(n)
    ensures Increasing(n.delivered) && forall t :: t in n.removed ==> t !in n.delivered
    ensures n.pump.Sleeping? && n.queue != [] ==> n.wake
  {
    assert forall i :: 0 <= i < |n.delivered| ==> n.delivered[i] == Order(n)[i];
  }

  /** An increasing run of k tickets is k different tickets. */
  lemma {:induction false} TicketsCounted(s: seq<nat>)
    requires Increasing(s)
    ensures |set i | 0 <= i < |s| :: s[i]| == |s|
  {
    if s != [] {
      var front := s[..|s| - 1];
      TicketsCounted(front);
      assert (set i | 0 <= i < |s| :: s[i]) == (set i | 0 <= i < |front| :: front[i]) + {s[|s| - 1]};
    }
  }

  /** n different tickets below n are all of them. */
  lemma {:induction false} Pigeonhole(tickets: set<nat>, n: nat)
    requires |tickets| == n && forall t :: t in tickets ==> t < n
    ensures forall t :: 0 <= t < n ==> t in tickets
  {
    if n > 0 {
      if n - 1 in tickets {
        Pigeonhole(tickets - {n - 1}, n - 1);
      } else {
        var t :| t in tickets;
        Pigeonhole(tickets - {t}, n - 1);
        assert false;
      }
    }
  }

  /** Conservation: whatever was enqueued is delivered, removed or still queued, and only one of them. */
  lemma EveryTicketAccounted(n: Net, t: nat)
    requires Inv(n) && t < |n.log|
    ensures (t in Order(n)) != (t in n.removed)
  {
    var order := set i | 0 <= i < |Order(n)| :: Order(n)[i];
    TicketsCounted(Order(n));
    assert |order + n.removed| == |order| + |n.removed| by {
      assert order !! n.removed;
    }
    Pigeonhole(order + n.removed, |n.log|);
  }

  /**
   A token or an offer with nothing behind it delivers nothing: only popping a queued head delivers, and
   no ticket is delivered twice.
   */
  lemma OnlyHeadsAreDelivered(n: Net, a: Action)
    requires Inv(n) && Enabled(n, a) && Apply(n, a).delivered != n.delivered
    ensures a.Pop? && n.queue != [] && Apply(n, a).delivered == n.delivered + [n.queue[0].item]
    ensures n.queue[0].item !in n.delivered && n.queue[0].item !in n.removed
  {
    assert Order(n)[|n.delivered|] == n.queue[0].item;
    forall i | 0 <= i < |n.delivered| ensures n.delivered[i] != n.queue[0].item {
      assert n.delivered[i] == Order(n)[i];
    }
  }

  // ---- Progress ----

  predicate Internal(a: Action) {
    a.Peek? || a.TakeToken? || a.HandOff? || a.Pop?
  }

  /** Items are queued and some consumer is inside Dequeue. */
  predicate Pending(n: Net) {
    n.queue != [] && n.waiting + n.woken > 0
  }

  /** Upper bound on the steps pump and consumers can take before a pop. */
  function Budget(n: Net): nat {
    3 * n.waiting + match n.pump case Offering(_) => 0 case Peeking => 1 case Sleeping => 2
  }

  /** The pump and the consumers are never stuck while something is pending. */
  lemma NeverStuck(n: Net) returns (a: Action)
    requires Inv(n) && Pending(n)
    ensures Internal(a) && Enabled(n, a)
  {
    if n.woken > 0 {
      a := Pop;
    } else {
      a := match n.pump case Peeking => Peek case Offering(_) => HandOff case Sleeping => TakeToken;
    }
  }

  /**
   Whatever order pump and consumers run in, if nobody enqueues, removes or calls, then a pop happens
   after at most Budget internal steps: every pop-free run is that short and can be continued.
   */
  lemma {:induction false} PopWithinBudget(states: seq<Net>, acts: seq<Action>)
    requires Run(states, acts) && Inv(states[0]) && Pending(states[0])
    requires forall a :: a in acts ==> Internal(a) && a != Pop
    ensures |acts| + Budget(states[|acts|]) <= Budget(states[0])
    ensures states[|acts|].queue == states[0].queue
    ensures exists a :: Internal(a) && Enabled(states[|acts|], a)
    decreases |acts|
  {
    if acts == [] {
      var a := NeverStuck(states[0]);
    } else {
      assert Internal(acts[0]) && acts[0] != Pop;
      StepKeepsInv(states[0], acts[0]);
      assert Budget(states[1]) < Budget(states[0]);
      PopWithinBudget(states[1..], acts[1..]);
    }
  }

  // ---- Rest ----

  /** What is left to do on an empty queue: one stale offer, one token, and the consumers that find nothing. */
  function Idling(n: Net): nat {
    n.woken + (if n.wake then 2 else 0) + match n.pump case Offering(_) => 3 case Peeking => 1 case Sleeping => 0
  }

  /** An upper bound on all the steps pump and consumers can take on their own. */
  function Steps(n: Net): nat {
    |n.queue| * (4 * (n.waiting + n.woken) + 6) + if n.queue == [] then Idling(n) else Budget(n)
  }

  lemma PopLeavesLess(n: Net)
    requires n.woken > 0
    ensures Steps(Apply(n, Pop)) < Steps(n)
  {
    if n.queue != [] {
      var q, c := |n.queue|, n.waiting + n.woken;
      assert q * (4 * c + 6) == (q - 1) * (4 * (c - 1) + 6) + 4 * (q - 1) + 4 * c + 6;
    }
  }

  lemma StepLeavesLess(n: Net, a: Action)
    requires Enabled(n, a) && Internal(a)
    ensures Steps(Apply(n, a)) < Steps(n)
  {
    if a.Pop? {
      PopLeavesLess(n);
    }
  }

  /**
   Left to themselves, pump and consumers come to rest within a fixed number of steps, whatever order they run in:
   tokens and offers with nothing behind them cannot keep them busy.
   */
  lemma {:induction false} RestsWithin(states: seq<Net>, acts: seq<Action>)
    requires Run(states, acts) && forall a :: a in acts ==> Internal(a)
    ensures |acts| + Steps(states[|acts|]) <= Steps(states[0])
    decreases |acts|
  {
    hide Steps, Apply;
    if acts != [] {
      assert Internal(acts[0]);
      StepLeavesLess(states[0], acts[0]);
      RestsWithin(states[1..], acts[1..]);
    }
  }

  /** At rest nothing is queued, or nobody is waiting for it. */
  lemma AtRest(n: Net)
    requires Inv(n) && forall a :: Internal(a) ==> !Enabled(n, a)
    ensures n.woken == 0 && (n.queue == [] || n.waiting == 0)
    ensures n.pump.Sleeping? ==> !n.wake && n.queue == []
  {
    assert !Enabled(n, Pop) && !Enabled(n, HandOff) && !Enabled(n, TakeToken) && !Enabled(n, Peek);
  }
}
