/**
 nodeprovider/karpenter.go: what the provider knows about its instances. `state` maps an instance to
 whether the pool has ever seen a node of it; `incephemeral` holds the increments that are still being
 requested. Counters are 32-bit, as in the Go code.
 */
module Karpenter {
  import opened Ids

  datatype Prov = Prov(state: map<Id, bool>, inc: map<Id, int>, lastUpdate: int)

  const TWO32 := 0x1_0000_0000
  const BATCH := 20

  /** The value of an int32 computation. */
  function Wrap(x: int): int {
    (x + TWO32 / 2) % TWO32 - TWO32 / 2
  }

  predicate Int32(x: int) {
    -TWO32 / 2 <= x < TWO32 / 2
  }

  lemma WrapCongruent(a: int, b: int, k: int)
    requires a == b + k * TWO32
    ensures Wrap(a) == Wrap(b)
  {
  }

  lemma WrapDefect(x: int) returns (k: int)
    ensures Wrap(x) == x + k * TWO32
  {
    k := -((x + TWO32 / 2) / TWO32);
  }

  /** Sums and differences may be wrapped at every step or once at the end. */
  lemma WrapNests(a: int, b: int)
    ensures Wrap(Wrap(a) + b) == Wrap(a + b) && Wrap(a + Wrap(b)) == Wrap(a + b)
    ensures Wrap(Wrap(a) - b) == Wrap(a - b) && Wrap(a - Wrap(b)) == Wrap(a - b)
  {
    var k := WrapDefect(a);
    var l := WrapDefect(b);
    WrapCongruent(Wrap(a) + b, a + b, k);
    WrapCongruent(a + Wrap(b), a + b, l);
    WrapCongruent(Wrap(a) - b, a - b, k);
    WrapCongruent(a - Wrap(b), a - b, -l);
  }

  // ---- Sums over the increments ----

  ghost function Sum(m: map<Id, int>): int {
    if m == map[] then 0
    else
      var k :| k in m;
      m[k] + Sum(m - {k})
  }

  lemma SumOfNothing()
    ensures Sum(map[]) == 0
  {
  }

  lemma {:induction false} SumTakes(m: map<Id, int>, k: Id)
    requires k in m
    ensures Sum(m) == m[k] + Sum(m - {k})
    decreases |m|
  {
    assert m != map[];
    var j :| j in m && Sum(m) == m[j] + Sum(m - {j});
    if j != k {
      SumTakes(m - {j}, k);
      SumTakes(m - {k}, j);
      assert m - {j} - {k} == m - {k} - {j};
    }
  }

  lemma SumAdds(m: map<Id, int>, k: Id, v: int)
    requires k !in m
    ensures Sum(m[k := v]) == Sum(m) + v
  {
    SumTakes(m[k := v], k);
    assert m[k := v] - {k} == m;
  }

  // ---- What the operations do ----

  /** A fresh listing keeps the seen flag of every instance that is still listed. */
  function Refreshed(state: map<Id, bool>, listed: seq<Id>): map<Id, bool> {
    map i | i in listed :: i in state && state[i]
  }

  /** The state after IsNodeExists: refreshed if the node registered after the last listing, the instance seen. */
  function Looked(p: Prov, instance: Id, registered: int, now: int, listed: seq<Id>): Prov {
    var q := if registered > p.lastUpdate then p.(state := Refreshed(p.state, listed), lastUpdate := now) else p;
    if instance in q.state then q.(state := q.state[instance := true]) else q
  }

  /**
   What the question about an instance leaves: the listing, if it was read again, with the flags of what it
   still lists, and the asked instance seen if it is known.
   */
  lemma LookedMeaning(p: Prov, instance: Id, registered: int, now: int, listed: seq<Id>)
    ensures var q := Looked(p, instance, registered, now, listed);
            && (forall i :: i in q.state <==> if registered > p.lastUpdate then i in listed else i in p.state)
            && (forall i :: i in q.state ==> (q.state[i] <==> i == instance || (i in p.state && p.state[i])))
            && q.lastUpdate == (if registered > p.lastUpdate then now else p.lastUpdate)
            && q.inc == p.inc
  {
  }

  /** Instances once seen that no node of the pool runs on. */
  function Vanished(state: map<Id, bool>, inPool: set<Id>): set<Id> {
    set i | i in state && state[i] && i !in inPool
  }

  /**
   Every instance that is still counted as seen backs a node of the pool; the unseen ones and those that back a
   node are all still there, as they were; and exactly the others are gone.
   */
  ghost predicate Reconciled(state: map<Id, bool>, nodeInstances: seq<Id>, state': map<Id, bool>, gone: seq<Id>) {
    && (forall i :: i in state' && state'[i] ==> i in nodeInstances)
    && (forall i :: i in state && (!state[i] || i in nodeInstances) ==> i in state')
    && (forall i :: i in state' ==> i in state && state'[i] == state[i])
    && (forall i :: i in gone <==> i in state && i !in state')
  }

  /** A positive increment has been added under the key. */
  predicate IsOneMore(inc: map<Id, int>, key: Id, inc': map<Id, int>) {
    key in inc' && inc'[key] > 0 && inc' - {key} == inc
  }

  function Joined(batches: seq<seq<Id>>): seq<Id> {
    if batches == [] then [] else Joined(batches[..|batches| - 1]) + batches[|batches| - 1]
  }

  /** One answer of the plugin to AddInstances, and whether the context is done afterwards. */
  datatype Response = Response(added: nat, cancelled: bool)

  datatype Outcome = Fulfilled | Cancelled | StillTrying

  /** The plugin never returns more instances than it was asked for. */
  predicate Sane(wanted: int, responses: seq<Response>) {
    responses == [] ||
    (responses[0].added <= wanted &&
     (responses[0].added == wanted || responses[0].cancelled || Sane(wanted - responses[0].added, responses[1..])))
  }

  class K8sKarpenterProvider {
    var state: map<Id, bool>
    var incephemeral: map<Id, int>
    var lastUpdatetime: int

    ghost function State(): Prov
      reads this
    {
      Prov(state, incephemeral, lastUpdatetime)
    }

    /** NewK8sKapenterProvider: every listed instance is known and unseen. */
    constructor (listed: seq<Id>, now: int)
      ensures State() == Prov(map i | i in listed :: false, map[], now)
    {
      new;
      state, incephemeral, lastUpdatetime := map[], map[], now;
      state := ListInto(listed);
    }

    /** updateStateFromKapenterPlugin on an empty map. */
    method ListInto(listed: seq<Id>) returns (newstate: map<Id, bool>)
      ensures newstate == map i | i in listed :: false
    {
      newstate := map[];
      for k := 0 to |listed|
        invariant newstate == map i | i in listed[..k] :: false
      {
        newstate := newstate[listed[k] := false];
        assert listed[..k + 1] == listed[..k] + [listed[k]];
      }
      assert listed[..|listed|] == listed;
    }

    method IsNodeExists(instance: Id, registered: int, now: int, listed: seq<Id>) returns (found: bool)
      modifies this
      ensures State() == Looked(old(State()), instance, registered, now, listed)
      ensures found <==> if registered > old(lastUpdatetime) then instance in listed else instance in old(state)
      ensures forall i :: i in state <==> if registered > old(lastUpdatetime) then i in listed else i in old(state)
      ensures forall i :: i in state ==> (state[i] <==> i == instance || (i in old(state) && old(state)[i]))
      ensures lastUpdatetime == if registered > old(lastUpdatetime) then now else old(lastUpdatetime)
      ensures incephemeral == old(incephemeral)
    {
      if registered > lastUpdatetime {
        var newstate := ListInto(listed);
        var todo := newstate.Keys;
        while todo != {}
          invariant forall i :: i in newstate <==> i in listed
          invariant forall i :: i in newstate ==> newstate[i] == (i !in todo && i in state && state[i])
          invariant forall i :: i in todo ==> i in newstate
        {
          var i :| i in todo;
          if i in state {
            newstate := newstate[i := state[i]];
          }
          todo := todo - {i};
        }
        state := newstate;
        lastUpdatetime := now;
      }
      found := instance in state;
      if found {
        state := state[instance := true];
      }
    }

    /** _removeNode: forget the instances, then ask the plugin to remove them in batches. */
    method RemoveInstances(ids: seq<Id>) returns (batches: seq<seq<Id>>)
      modifies `state
      ensures state == old(state) - (set i | i in ids)
      ensures Joined(batches) == ids
      ensures forall b :: b in batches ==> 0 < |b| <= BATCH
    {
      batches := [];
      var i := 0;
      while i < |ids|
        invariant 0 <= i && (i < |ids| ==> i % BATCH == 0)
        invariant Joined(batches) == ids[..Min(i, |ids|)]
        invariant forall b :: b in batches ==> 0 < |b| <= BATCH
        invariant state == if i == 0 then old(state) else old(state) - (set i | i in ids)
      {
        var end := Min(i + BATCH, |ids|);
        var batch := ids[i..end];
        state := state - (set i | i in ids);
        assert (batches + [batch])[..|batches|] == batches;
        assert ids[..i] + batch == ids[..end];
        batches := batches + [batch];
        i := i + BATCH;
      }
      assert ids[..|ids|] == ids;
    }

    /** The loops that compare the known instances with the pool's nodes. */
    method FindVanished(nodeInstances: seq<Id>) returns (gone: seq<Id>)
      ensures forall i :: i in gone <==> i in state && state[i] && i !in nodeInstances
      ensures (set i | i in gone) == Vanished(state, set i | i in nodeInstances)
      ensures |gone| == |Vanished(state, set i | i in nodeInstances)|
    {
      ghost var inPool := set i | i in nodeInstances;
      var todo := state.Keys;
      ghost var found: set<Id> := {};
      gone := [];
      while todo != {}
        invariant forall i :: i in todo ==> i in state
        invariant forall i :: i in found <==> i in state && state[i] && i !in nodeInstances && i !in todo
        invariant forall i :: i in gone <==> i in found
        invariant |gone| == |found|
      {
        var i :| i in todo;
        if state[i] && i !in nodeInstances {
          gone := gone + [i];
          found := found + {i};
        }
        todo := todo - {i};
      }
      assert found == Vanished(state, inPool);
      assert (set i | i in gone) == found;
    }

    /** The loop over the increments in flight. */
    method SumIncrements() returns (sum: int)
      ensures sum == Wrap(Sum(incephemeral))
    {
      hide Wrap, Sum;
      WrapInRange(0);
      SumOfNothing();
      sum := 0;
      ghost var done := 0;
      var rest := incephemeral;
      while rest != map[]
        invariant forall k :: k in rest ==> k in incephemeral && rest[k] == incephemeral[k]
        invariant done + Sum(rest) == Sum(incephemeral) && sum == Wrap(done)
        decreases |rest|
      {
        var k :| k in rest;
        SumTakes(rest, k);
        WrapNests(done, incephemeral[k]);
        sum := Wrap(sum + incephemeral[k]);
        done := done + incephemeral[k];
        KeysLeft(rest, {k});
        rest := rest - {k};
      }
    }

    /** First half of UpdateNode: drop the instances that vanished from the pool and count the rest. */
    method RemoveVanished(nodeInstances: seq<Id>) returns (batches: seq<seq<Id>>, count: int)
      modifies `state
      ensures state == old(state) - Vanished(old(state), set i | i in nodeInstances)
      ensures (set i | i in Joined(batches)) == Vanished(old(state), set i | i in nodeInstances)
      ensures count == |state|
    {
      hide Vanished, Joined;
      VanishedKnown(state, set i | i in nodeInstances);
      KeysLeft(state, Vanished(state, set i | i in nodeInstances));
      var gone := FindVanished(nodeInstances);
      count := |state|;
      if |gone| > 0 {
        batches := RemoveInstances(gone);
        count := count - |gone|;
      } else {
        batches := [];
        NothingJoined();
        assert (set i | i in gone) == {};
      }
    }

    /** Second half: what is missing to the total becomes one more increment in flight. */
    method RequestRest(totalcount: int, count: int, key: Id) returns (refused: bool)
      requires Int32(totalcount) && key !in incephemeral
      modifies `incephemeral
      ensures refused <==> Wrap(totalcount - count - Sum(old(incephemeral))) < 0
      ensures refused ==> incephemeral == old(incephemeral)
      ensures !refused ==> Wrap(count + Sum(incephemeral)) == totalcount
      ensures incephemeral == old(incephemeral) || IsOneMore(old(incephemeral), key, incephemeral)
    {
      hide Wrap, Sum;
      var sum := SumIncrements();
      var inccount := Wrap(Wrap(totalcount - Wrap(count)) - sum);
      IncrementIs(totalcount, count, Sum(incephemeral));
      if inccount > 0 {
        SumAdds(incephemeral, key, inccount);
        incephemeral := incephemeral[key := inccount];
        assert incephemeral - {key} == old(incephemeral);
      }
      refused := inccount < 0;
    }

    /**
     UpdateNode as one step: instances that vanished from the pool are removed, and what the request is
     short of becomes one more increment in flight, so that known instances and increments together are the
     requested total. Asking for less than there is leaves the increments alone and is refused. Both are
     exact as long as the totals stay in the range of an int32.
     */
    method UpdateNode(nodeInstances: seq<Id>, totalcount: int, key: Id) returns (batches: seq<seq<Id>>, refused: bool)
      requires Int32(totalcount) && key !in incephemeral
      modifies `state, `incephemeral
      ensures state == old(state) - Vanished(old(state), set i | i in nodeInstances)
      ensures Reconciled(old(state), nodeInstances, state, Joined(batches))
      ensures refused <==> Wrap(totalcount - |state| - Sum(old(incephemeral))) < 0
      ensures refused ==> incephemeral == old(incephemeral)
      ensures !refused ==> Wrap(|state| + Sum(incephemeral)) == totalcount
      ensures Int32(totalcount - |state| - Sum(old(incephemeral))) ==>
                (refused <==> totalcount < |state| + Sum(old(incephemeral)))
      ensures !refused && Int32(|state| + Sum(incephemeral)) ==> |state| + Sum(incephemeral) == totalcount
      ensures incephemeral == old(incephemeral) || IsOneMore(old(incephemeral), key, incephemeral)
    {
      hide Wrap, Sum, Vanished, Joined;
      hide Reconciled;
      var count;
      batches, count := RemoveVanished(nodeInstances);
      VanishedIsReconciled(old(state), nodeInstances, state, Joined(batches));
      refused := RequestRest(totalcount, count, key);
      Unwrapped(totalcount - |state| - Sum(old(incephemeral)));
      Unwrapped(|state| + Sum(incephemeral));
    }

    /** The retry goroutine is over: what a later request still counts is less by just its increment. */
    method ForgetIncrement(key: Id)
      modifies `incephemeral
      ensures incephemeral == old(incephemeral) - {key}
      ensures Sum(incephemeral) ==
                Sum(old(incephemeral)) - if key in old(incephemeral) then old(incephemeral)[key] else 0
    {
      if key in incephemeral {
        SumTakes(incephemeral, key);
      }
      assert key !in incephemeral ==> incephemeral - {key} == incephemeral;
      incephemeral := incephemeral - {key};
    }
  }

  lemma VanishedIsReconciled(state: map<Id, bool>, nodeInstances: seq<Id>, state': map<Id, bool>, gone: seq<Id>)
    requires state' == state - Vanished(state, set i | i in nodeInstances)
    requires (set i | i in gone) == Vanished(state, set i | i in nodeInstances)
    ensures Reconciled(state, nodeInstances, state', gone)
  {
    var inPool, gone' := set i | i in nodeInstances, set i | i in gone;
    assert forall i :: i in inPool <==> i in nodeInstances;
    assert forall i :: i in gone' <==> i in gone;
  }

  lemma NothingJoined()
    ensures Joined([]) == []
  {
  }

  lemma VanishedKnown(state: map<Id, bool>, inPool: set<Id>)
    ensures Vanished(state, inPool) <= state.Keys
    ensures Vanished(state, inPool) == {} ==> state - Vanished(state, inPool) == state
  {
  }

  lemma KeysLeft<V>(state: map<Id, V>, gone: set<Id>)
    requires gone <= state.Keys
    ensures |state - gone| == |state| - |gone|
  {
  }

  /** The increment is what is missing, and with it the request is met. */
  lemma IncrementIs(total: int, count: int, sum: int)
    requires Int32(total)
    ensures var inc := Wrap(Wrap(total - Wrap(count)) - Wrap(sum));
            inc == Wrap(total - count - sum) && Wrap(count + (sum + inc)) == total
  {
    hide Wrap;
    WrapInRange(total);
    WrapNests(total, count);
    WrapNests(Wrap(total - count), sum);
    WrapNests(total - count, sum);
    WrapNests(count + sum, total - count - sum);
  }

  /** In the range of an int32, wrapping is no wrapping. */
  lemma WrapInRange(x: int)
    requires Int32(x)
    ensures Wrap(x) == x
  {
  }

  lemma Unwrapped(x: int)
    ensures Int32(x) ==> Wrap(x) == x
  {
  }

  /** How many instances the answers brought in all. */
  function Added(responses: seq<Response>): nat {
    if responses == [] then 0 else Added(responses[..|responses| - 1]) + responses[|responses| - 1].added
  }

  lemma AddedSnoc(responses: seq<Response>, i: nat)
    requires i < |responses|
    ensures Added(responses[..i + 1]) == Added(responses[..i]) + responses[i].added
  {
    assert responses[..i + 1][..i] == responses[..i];
  }

  /** The i-th answer neither completes the increment nor finds the context done. */
  predicate GoesOn(inccount: int, responses: seq<Response>, i: nat)
    requires i < |responses|
  {
    !responses[i].cancelled && Added(responses[..i + 1]) < inccount
  }

  lemma SaneNext(wanted: int, responses: seq<Response>, i: nat)
    requires i < |responses| && Sane(wanted, responses[i..])
    ensures responses[i].added <= wanted
    ensures responses[i].added == wanted || responses[i].cancelled ||
            Sane(wanted - responses[i].added, responses[i + 1..])
  {
    assert responses[i..][1..] == responses[i + 1..];
  }

  /**
   The loop of the retry goroutine on the plugin's answers, of which it takes the first n: the last of them
   completes the increment or finds the context done, and no earlier one does.
   */
  method RetryAdd(inccount: int, responses: seq<Response>) returns (added: nat, outcome: Outcome, ghost n: nat)
    requires inccount > 0 && Sane(inccount, responses)
    ensures n <= |responses| && added == Added(responses[..n]) <= inccount
    ensures forall i :: 0 <= i < n - 1 ==> GoesOn(inccount, responses, i)
    ensures outcome == Fulfilled <==> added == inccount
    ensures outcome == Cancelled ==> n > 0 && responses[n - 1].cancelled
    ensures outcome == StillTrying ==> n == |responses| && forall i :: 0 <= i < n ==> GoesOn(inccount, responses, i)
  {
    var left, i := inccount, 0;
    added, n := 0, 0;
    while i < |responses|
      invariant 0 <= i == n <= |responses| && left > 0 && added + left == inccount
      invariant added == Added(responses[..i])
      invariant Sane(left, responses[i..])
      invariant forall j :: 0 <= j < i ==> GoesOn(inccount, responses, j)
    {
      var r := responses[i];
      AddedSnoc(responses, i);
      SaneNext(left, responses, i);
      hide Sane, Added;
      added, n := added + r.added, n + 1;
      if r.added == left {
        return added, Fulfilled, n;
      }
      if r.cancelled {
        return added, Cancelled, n;
      }
      left := left - r.added;
      assert GoesOn(inccount, responses, i);
      i := i + 1;
    }
    outcome := StillTrying;
  }
}
