/**
 processEvals.go: the select loop that keeps, per job, a chain of evaluations whose head is blocked, and
 fires or cancels one scaling event per chain.

 The functions describe what one arrival, one "scaling done" message and one chain of a settlement do to
 the loop's state; the class below them is the loop body itself, with its inner loops.
 */
module EvalChains {
  import opened Ids
  import opened WorkQueue

  /** What an eval's id determines for good. */
  datatype EvalInfo = EvalInfo(ns: string, job: string, createIndex: nat)

  datatype Eval = Eval(id: Id, info: EvalInfo, blocked: bool)

  /** What the cluster answers about a chain's job when its chain is settled. */
  datatype Survey = Survey(feasible: bool, queued: map<string, int>, failed: set<string>, suited: set<string>)

  /** A scaling event; the serial is the identity of its context. */
  datatype Event = Event(serial: nat, unallocated: map<string, int>)

  datatype Mode =
    | Idle
    | Settling(todo: set<string>, dropped: set<string>, kept: map<Id, Eval>)

  datatype Proc = Proc(
    evals: map<Id, Eval>,
    chains: map<string, seq<Id>>,
    fired: map<string, nat>,
    armed: bool,
    mode: Mode,
    queue: seq<Entry<Event>>,
    cancelled: set<nat>,
    nextSerial: nat)

  function ChainId(info: EvalInfo): string {
    info.ns + "/" + info.job
  }

  /** Namespaces contain no slash, so one chain id is one job. */
  lemma ChainIdIsOneJob(a: EvalInfo, b: EvalInfo)
    requires '/' !in a.ns && '/' !in b.ns && ChainId(a) == ChainId(b)
    ensures a.ns == b.ns && a.job == b.job
  {
    var s := ChainId(a);
    assert forall i :: 0 <= i < |a.ns| ==> s[i] == a.ns[i] && a.ns[i] in a.ns;
    assert forall i :: 0 <= i < |b.ns| ==> s[i] == b.ns[i] && b.ns[i] in b.ns;
    assert s[|a.ns|] == '/' && s[|b.ns|] == '/';
    assert a.ns == s[..|a.ns|] && a.job == s[|a.ns| + 1..];
    assert b.ns == s[..|b.ns|] && b.job == s[|b.ns| + 1..];
  }

  /** Task groups that failed placement, suit some pool and still wait. */
  function Unallocated(s: Survey): map<string, int> {
    map g | g in s.queued && g in s.failed && g in s.suited && s.queued[g] > 0 :: s.queued[g]
  }

  /** All ids of the chain can be looked up. */
  ghost predicate Known(chain: seq<Id>, evals: map<Id, Eval>) {
    forall i :: 0 <= i < |chain| ==> chain[i] in evals
  }

  /** Every chain can be looked up: what the code's map reads rely on. */
  ghost predicate Resolved(p: Proc) {
    && (forall id :: id in p.evals ==> p.evals[id].id == id)
    && (forall c :: c in p.chains ==> Known(p.chains[c], p.evals))
  }

  /** The chains have no empty entry, so the last id of a chain exists. */
  ghost predicate NonEmpty(p: Proc) {
    forall c :: c in p.chains ==> p.chains[c] != []
  }

  /** A chain without its leading evals that are no longer blocked. */
  function Trim(chain: seq<Id>, evals: map<Id, Eval>): (r: seq<Id>)
    requires Known(chain, evals)
    ensures |r| <= |chain|
  {
    if chain == [] || evals[chain[0]].blocked then chain else Trim(chain[1..], evals)
  }

  /** Trimming drops a prefix, only unblocked evals, and everything only when nothing is blocked. */
  lemma {:induction false} TrimMeaning(chain: seq<Id>, evals: map<Id, Eval>)
    requires Known(chain, evals)
    ensures var r := Trim(chain, evals);
            var k := |chain| - |r|;
            && r == chain[k..]
            && (forall i :: 0 <= i < k ==> !evals[chain[i]].blocked)
            && (r != [] ==> evals[r[0]].blocked)
            && (r == [] <==> forall i :: 0 <= i < |chain| ==> !evals[chain[i]].blocked)
  {
    if chain != [] && !evals[chain[0]].blocked {
      TrimMeaning(chain[1..], evals);
      assert forall i :: 1 <= i < |chain| ==> chain[i] == chain[1..][i - 1];
    }
  }

  /** An eval arrives. */
  function Arrive(p: Proc, e: Eval): Proc
    requires Resolved(p) && NonEmpty(p)
  {
    var c := ChainId(e.info);
    var evals := p.evals[e.id := e];
    if c in p.chains then
      var chain := p.chains[c];
      if e.id !in chain && e.info.createIndex > evals[chain[|chain| - 1]].info.createIndex
      then p.(evals := evals, armed := true, chains := p.chains[c := chain + [e.id]])
      else p.(evals := evals, armed := true)
    else if e.blocked then p.(evals := evals, armed := true, chains := p.chains[c := [e.id]])
    else p.(evals := evals)
  }

  /**
   A chain is meant to have a blocked head at all times. An arrival breaks that exactly when it is the head
   itself, no longer blocked; the next settlement puts it right.
   */
  lemma HeadStaysBlockedIff(p: Proc, e: Eval, c: string)
    requires Resolved(p) && NonEmpty(p) && c in p.chains && p.evals[p.chains[c][0]].blocked
    ensures var r := Arrive(p, e);
            && c in r.chains && r.chains[c] != [] && r.chains[c][0] == p.chains[c][0] && r.chains[c][0] in r.evals
            && (r.evals[r.chains[c][0]].blocked <==> (e.id == p.chains[c][0] ==> e.blocked))
  {
  }

  /** A worker reported the chain's event as done. */
  function Done(p: Proc, c: string): Proc {
    p.(fired := p.fired - {c})
  }

  /** The timer fired; `rearmed` when a second tick is already waiting in the timer's channel. */
  function StartTick(p: Proc, rearmed: bool): Proc {
    p.(armed := rearmed, mode := Settling(p.chains.Keys, {}, map[]))
  }

  /** Nothing of the chain is blocked: cancel its event and drop it. */
  function Retire(p: Proc, c: string): Proc
    requires p.mode.Settling?
  {
    var m := p.mode;
    var q := p.(mode := Settling(m.todo - {c}, m.dropped + {c}, m.kept));
    if Queued(p.queue, c) then q.(queue := Without(p.queue, c), fired := p.fired - {c})
    else if c in p.fired then q.(cancelled := p.cancelled + {p.fired[c]})
    else q
  }

  /** The chain's evals survive the settlement; the chain itself only if it is not given up. */
  function Keep(p: Proc, c: string, givenUp: bool): Proc
    requires p.mode.Settling? && c in p.chains && Known(p.chains[c], p.evals)
  {
    var m := p.mode;
    p.(mode := Settling(m.todo - {c}, if givenUp then m.dropped + {c} else m.dropped,
                        m.kept + map id | id in p.chains[c] :: p.evals[id]))
  }

  /** A new scaling event for the chain goes to the queue. */
  function Fire(p: Proc, c: string, unallocated: map<string, int>): Proc {
    p.(queue := p.queue + [Entry(Event(p.nextSerial, unallocated), c)],
       fired := p.fired[c := p.nextSerial],
       nextSerial := p.nextSerial + 1)
  }

  function TrimChain(p: Proc, c: string): (r: Proc)
    requires Resolved(p) && c in p.chains
    ensures Resolved(r)
  {
    TrimMeaning(p.chains[c], p.evals);
    p.(chains := p.chains[c := Trim(p.chains[c], p.evals)])
  }

  /** The settlement reaches one chain. */
  function Settle(p: Proc, c: string, s: Survey): (r: Proc)
    requires Resolved(p) && p.mode.Settling? && c in p.chains
    ensures Resolved(r) && r.mode.Settling? && r.evals == p.evals
    ensures r.chains == p.chains[c := Trim(p.chains[c], p.evals)]
  {
    var q := TrimChain(p, c);
    if q.chains[c] == [] then Retire(q, c)
    else if c in q.fired then Keep(q, c, false)
    else if !s.feasible || Unallocated(s) == map[] then Keep(q, c, true)
    else Fire(Keep(q, c, false), c, Unallocated(s))
  }

  /** All chains are settled: forget the dropped ones and the evals nobody refers to. */
  function EndTick(p: Proc): Proc
    requires p.mode.Settling?
  {
    p.(evals := p.mode.kept, chains := p.chains - p.mode.dropped, mode := Idle)
  }

  /** A settlement never queues an event without recording it as fired. */
  lemma SettleQueuedFired(p: Proc, c: string, s: Survey)
    requires Resolved(p) && p.mode.Settling? && c in p.chains && DistinctIds(p.queue)
    requires forall d :: Queued(p.queue, d) ==> d in p.fired
    ensures forall d :: Queued(Settle(p, c, s).queue, d) ==> d in Settle(p, c, s).fired
  {
    WithoutMeaning(p.queue, c);
  }

  /** A settled chain that stays: its head is blocked and its evals survive the settlement. */
  ghost predicate Survives(chain: seq<Id>, kept: map<Id, Eval>) {
    chain != [] && Known(chain, kept) && kept[chain[0]].blocked
  }

  /** What a settlement in progress keeps, whatever order the chains come in. */
  ghost predicate Settlement(p: Proc) {
    && Resolved(p) && p.mode.Settling?
    && p.mode.todo !! p.mode.dropped
    && (forall id :: id in p.mode.kept ==> id in p.evals && p.mode.kept[id] == p.evals[id])
    && (forall c :: c in p.mode.todo ==> c in p.chains && p.chains[c] != [])
    && (forall c :: c in p.chains && c !in p.mode.todo && c !in p.mode.dropped ==> Survives(p.chains[c], p.mode.kept))
  }

  lemma KnownStays(chain: seq<Id>, kept: map<Id, Eval>, more: map<Id, Eval>)
    requires Survives(chain, kept) && forall id :: id in more && id in kept ==> more[id] == kept[id]
    ensures Survives(chain, kept + more)
  {
  }

  lemma KeepKeepsSettlement(p: Proc, c: string, givenUp: bool)
    requires Settlement(p) && c in p.mode.todo && p.evals[p.chains[c][0]].blocked
    ensures Settlement(Keep(p, c, givenUp))
  {
    var r := Keep(p, c, givenUp);
    var more := map id | id in p.chains[c] :: p.evals[id];
    assert p.chains[c][0] in more;
    forall d | d in r.chains && d !in r.mode.todo && d !in r.mode.dropped
      ensures Survives(r.chains[d], r.mode.kept)
    {
      if d != c {
        KnownStays(p.chains[d], p.mode.kept, more);
      }
    }
  }

  lemma RetireKeepsSettlement(p: Proc, c: string)
    requires Settlement(p) && c in p.mode.todo && Trim(p.chains[c], p.evals) == []
    ensures Settlement(Retire(TrimChain(p, c), c))
  {
    var r := Retire(TrimChain(p, c), c);
    assert forall d :: d in r.chains && d != c ==> r.chains[d] == p.chains[d];
  }

  lemma TrimKeepsSettlement(p: Proc, c: string)
    requires Settlement(p) && c in p.mode.todo && Trim(p.chains[c], p.evals) != []
    ensures Settlement(TrimChain(p, c))
    ensures p.evals[TrimChain(p, c).chains[c][0]].blocked
  {
    TrimMeaning(p.chains[c], p.evals);
    var r := TrimChain(p, c);
    assert forall d :: d in r.chains && d != c ==> r.chains[d] == p.chains[d];
  }

  lemma SettleKeepsSettlement(p: Proc, c: string, s: Survey)
    requires Settlement(p) && c in p.mode.todo
    ensures Settlement(Settle(p, c, s))
    ensures Settle(p, c, s).mode.todo == p.mode.todo - {c}
  {
    if Trim(p.chains[c], p.evals) == [] {
      RetireKeepsSettlement(p, c);
    } else {
      TrimKeepsSettlement(p, c);
      KeepKeepsSettlement(TrimChain(p, c), c, false);
      KeepKeepsSettlement(TrimChain(p, c), c, true);
    }
  }

  // ---- What settling a chain comes to ----

  /** Some eval of the chain is blocked. */
  ghost predicate HasBlocked(p: Proc, c: string)
    requires c in p.chains && Known(p.chains[c], p.evals)
  {
    exists i :: 0 <= i < |p.chains[c]| && p.evals[p.chains[c][i]].blocked
  }

  /** The task group has copies in the queue, failed to be placed, and some pool suits it. */
  predicate Waits(s: Survey, g: string) {
    g in s.queued && s.queued[g] > 0 && g in s.failed && g in s.suited
  }

  /** The job can be helped: pools can host it, and some task group waits. */
  ghost predicate Helpable(s: Survey) {
    s.feasible && exists g :: Waits(s, g)
  }

  /** One new event is queued last and recorded, for exactly the task groups that wait, with all their copies. */
  ghost predicate Fires(p: Proc, c: string, s: Survey, r: Proc) {
    && |r.queue| == |p.queue| + 1 && r.queue[..|p.queue|] == p.queue
    && var e := r.queue[|p.queue|];
    && e.id == c && e.item.serial == p.nextSerial
    && (forall g :: g in e.item.unallocated <==> Waits(s, g))
    && (forall g :: g in e.item.unallocated ==> e.item.unallocated[g] == s.queued[g])
    && r.fired == p.fired[c := e.item.serial] && r.cancelled == p.cancelled && r.nextSerial == p.nextSerial + 1
  }

  /** The chain's event, if there is one, is taken out of the queue and forgotten, or else its context is cancelled. */
  ghost predicate Withdraws(p: Proc, c: string, r: Proc) {
    && r.nextSerial == p.nextSerial
    && if Queued(p.queue, c)
       then && (exists k: nat :: Deleted(p.queue, k, r.queue) && p.queue[k].id == c)
            && r.fired == p.fired - {c} && r.cancelled == p.cancelled
       else && r.queue == p.queue && r.fired == p.fired
            && r.cancelled == p.cancelled + if c in p.fired then {p.fired[c]} else {}
  }

  ghost predicate SameEvents(p: Proc, r: Proc) {
    r.queue == p.queue && r.fired == p.fired && r.cancelled == p.cancelled && r.nextSerial == p.nextSerial
  }

  lemma UnallocatedMeaning(s: Survey)
    ensures forall g :: g in Unallocated(s) <==> Waits(s, g)
    ensures forall g :: g in Unallocated(s) ==> Unallocated(s)[g] == s.queued[g]
    ensures Unallocated(s) == map[] <==> !exists g :: Waits(s, g)
  {
    assert forall g :: g in Unallocated(s) <==> Waits(s, g);
    if Unallocated(s) != map[] {
      var g :| g in Unallocated(s);
      assert Waits(s, g);
    }
  }

  lemma BlockedIsLeft(p: Proc, c: string)
    requires c in p.chains && Known(p.chains[c], p.evals)
    ensures HasBlocked(p, c) <==> Trim(p.chains[c], p.evals) != []
  {
    TrimMeaning(p.chains[c], p.evals);
  }

  lemma RetireWithdraws(p: Proc, c: string)
    requires Resolved(p) && p.mode.Settling? && c in p.chains
    ensures Withdraws(p, c, Retire(TrimChain(p, c), c))
  {
    hide Resolved, Trim;
    if Queued(p.queue, c) {
      SliceDeletes(p.queue, Position(p.queue, c));
    }
  }

  lemma FireFires(p: Proc, c: string, s: Survey)
    requires Resolved(p) && p.mode.Settling? && c in p.chains
    ensures Fires(p, c, s, Fire(Keep(TrimChain(p, c), c, false), c, Unallocated(s)))
  {
    UnallocatedMeaning(s);
    hide Resolved, Trim, Unallocated, Waits;
  }

  /**
   A settled chain is kept, dropped, fired or withdrawn by what is blocked, what is outstanding and what the
   cluster answers, and by nothing else.
   */
  lemma SettleMeaning(p: Proc, c: string, s: Survey)
    requires Settlement(p) && c in p.mode.todo
    ensures var r := Settle(p, c, s);
            && (HasBlocked(p, c) && c !in p.fired && Helpable(s) ==> Fires(p, c, s, r))
            && (!HasBlocked(p, c) ==> Withdraws(p, c, r))
            && (HasBlocked(p, c) && !(c !in p.fired && Helpable(s)) ==> SameEvents(p, r))
            && r.mode.todo == p.mode.todo - {c}
            && r.mode.dropped == p.mode.dropped +
                 if !HasBlocked(p, c) || (c !in p.fired && !Helpable(s)) then {c} else {}
  {
    BlockedIsLeft(p, c);
    RetireWithdraws(p, c);
    FireFires(p, c, s);
    UnallocatedMeaning(s);
    hide HasBlocked, Fires, Withdraws, Trim, Unallocated, Waits, Queued, Without;
  }

  /** After a settlement every lookup resolves again and every chain has a blocked head. */
  lemma EndTickSettles(p: Proc)
    requires Settlement(p) && p.mode.todo == {}
    ensures Resolved(EndTick(p)) && NonEmpty(EndTick(p))
    ensures forall c :: c in EndTick(p).chains ==> EndTick(p).evals[EndTick(p).chains[c][0]].blocked
  {
  }

  /** Some settled chain holds the eval. */
  ghost predicate Referenced(p: Proc, id: Id)
    requires p.mode.Settling?
  {
    exists c :: c in p.chains && c !in p.mode.todo && id in p.chains[c]
  }

  /** The evals kept so far are exactly those of the settled chains, also of those about to be dropped. */
  ghost predicate KeptExactly(p: Proc)
    requires p.mode.Settling?
  {
    forall id :: id in p.mode.kept <==> Referenced(p, id)
  }

  lemma SettleKept(p: Proc, c: string, s: Survey)
    requires Settlement(p) && c in p.mode.todo
    ensures var r := Settle(p, c, s);
            && r.mode.todo == p.mode.todo - {c}
            && forall id :: id in r.mode.kept <==> id in p.mode.kept || id in r.chains[c]
  {
  }

  lemma SettleKeepsExactly(p: Proc, c: string, s: Survey)
    requires Settlement(p) && c in p.mode.todo && KeptExactly(p)
    ensures KeptExactly(Settle(p, c, s))
  {
    var r := Settle(p, c, s);
    SettleKept(p, c, s);
    hide Settle, Trim, Settlement;
    forall id ensures Referenced(r, id) <==> Referenced(p, id) || id in r.chains[c] {
      if Referenced(p, id) {
        var d :| d in p.chains && d !in p.mode.todo && id in p.chains[d];
        assert d in r.chains && d !in r.mode.todo && id in r.chains[d];
      }
      assert c in r.chains && c !in r.mode.todo;
    }
  }

  /** From p, settling the chains in this order, each one still to do when its turn comes, leads to q. */
  ghost predicate Settles(p: Proc, order: seq<string>, surveys: string -> Survey, q: Proc)
    requires Settlement(p)
    decreases |order|
  {
    if order == [] then p == q
    else
      && order[0] in p.mode.todo
      && (SettleKeepsSettlement(p, order[0], surveys(order[0]));
          Settles(Settle(p, order[0], surveys(order[0])), order[1..], surveys, q))
  }

  lemma {:induction false} SettlesOneMore(p: Proc, order: seq<string>, surveys: string -> Survey, q: Proc, c: string)
    requires Settlement(p) && Settles(p, order, surveys, q)
    requires Settlement(q) && c in q.mode.todo
    ensures Settles(p, order + [c], surveys, Settle(q, c, surveys(c)))
    decreases |order|
  {
    hide Settle;
    SettleKeepsSettlement(q, c, surveys(c));
    if order == [] {
      assert [c][1..] == [];
    } else {
      SettleKeepsSettlement(p, order[0], surveys(order[0]));
      SettlesOneMore(Settle(p, order[0], surveys(order[0])), order[1..], surveys, q, c);
      assert (order + [c])[1..] == order[1..] + [c];
    }
  }

  class EvalProcessor {
    var evals: map<Id, Eval>
    var chains: map<string, seq<Id>>
    var fired: map<string, nat>
    var armed: bool
    var cancelled: set<nat>
    var nextSerial: nat
    const queue: Queue<Event>

    ghost function State(mode: Mode): Proc
      reads this, queue
    {
      Proc(evals, chains, fired, armed, mode, queue.items, cancelled, nextSerial)
    }

    ghost predicate Valid()
      reads this, queue
    {
      queue.Valid() && Resolved(State(Idle)) && NonEmpty(State(Idle))
    }

    constructor (q: Queue<Event>)
      requires q.Valid()
      ensures Valid() && queue == q && State(Idle) == Proc(map[], map[], map[], true, Idle, q.items, {}, 0)
    {
      evals, chains, fired, armed := map[], map[], map[], true;
      cancelled, nextSerial, queue := {}, 0, q;
    }

    /** case <-evalsCh */
    method OnEval(e: Eval)
      requires Valid()
      modifies this
      ensures Valid()
      ensures State(Idle) == Arrive(old(State(Idle)), e)
    {
      evals := evals[e.id := e];
      var resetTimer := false;
      var c := ChainId(e.info);
      if c in chains {
        var chain := chains[c];
        var isNew, i := true, 0;
        while i < |chain| && isNew
          invariant 0 <= i <= |chain|
          invariant isNew <==> e.id !in chain[..i]
          invariant !isNew ==> e.id in chain
        {
          if chain[i] == e.id {
            isNew := false;
          }
          i := i + 1;
        }
        assert isNew ==> chain[..i] == chain;
        if isNew {
          if e.info.createIndex > evals[chain[|chain| - 1]].info.createIndex {
            chains := chains[c := chain + [e.id]];
          }
        }
        resetTimer := true;
      }
      if e.blocked {
        if c !in chains {
          chains := chains[c := [e.id]];
          resetTimer := true;
        }
      }
      if resetTimer {
        armed := true;
      }
    }

    /** case <-scalingDoneCh */
    method OnDone(c: string)
      requires Valid()
      modifies `fired
      ensures Valid() && State(Idle) == Done(old(State(Idle)), c)
    {
      fired := fired - {c};
    }

    /** The index of the first blocked eval of a chain, or its length. */
    method FirstBlocked(c: string) returns (li: nat)
      requires c in chains && Known(chains[c], evals)
      ensures li <= |chains[c]| && chains[c][li..] == Trim(chains[c], evals)
    {
      ghost var chain := chains[c];
      li := 0;
      while li < |chains[c]|
        invariant li <= |chain|
        invariant Trim(chain[li..], evals) == Trim(chain, evals)
      {
        var eval := evals[chains[c][li]];
        if eval.blocked {
          break;
        }
        assert chain[li..][1..] == chain[li + 1..];
        li := li + 1;
      }
    }

    /** Cut the chain down to its first blocked eval. */
    method CutChain(c: string, ghost m: Mode)
      requires Resolved(State(m)) && c in chains
      modifies `chains
      ensures State(m) == TrimChain(old(State(m)), c)
    {
      var li := FirstBlocked(c);
      if li != 0 {
        chains := chains[c := chains[c][li..]];
      }
    }

    /** Copy the evals of a chain to the evals that survive the settlement. */
    method KeepEvals(c: string, kept: map<Id, Eval>) returns (kept': map<Id, Eval>)
      requires c in chains && Known(chains[c], evals)
      ensures kept' == kept + map id | id in chains[c] :: evals[id]
    {
      kept' := kept;
      var i := 0;
      while i < |chains[c]|
        invariant 0 <= i <= |chains[c]|
        invariant kept' == kept + map id | id in chains[c][..i] :: evals[id]
      {
        var id := chains[c][i];
        kept' := kept'[id := evals[id]];
        assert chains[c][..i + 1] == chains[c][..i] + [id];
        i := i + 1;
      }
      assert chains[c][..i] == chains[c];
    }

    /** Nothing of the chain is blocked: take its event out of the queue or cancel the running one. */
    method CancelEvent(c: string, ghost m: Mode)
      requires queue.Valid() && m.Settling?
      modifies `fired, `cancelled, queue
      ensures queue.Valid()
      ensures State(Settling(m.todo - {c}, m.dropped + {c}, m.kept)) == Retire(old(State(m)), c)
    {
      var removed := queue.Remove(c);
      if removed {
        fired := fired - {c};
      } else if c in fired {
        cancelled := cancelled + {fired[c]};
      }
    }

    /** Put a new scaling event in the queue and remember it. */
    method FireEvent(c: string, unallocated: map<string, int>, ghost m: Mode)
      requires queue.Valid() && !Queued(queue.items, c)
      modifies `fired, `nextSerial, queue
      ensures queue.Valid() && State(m) == Fire(old(State(m)), c, unallocated)
    {
      queue.Enqueue(Event(nextSerial, unallocated), c);
      fired := fired[c := nextSerial];
      nextSerial := nextSerial + 1;
    }

    /** The body of the settlement loop for one chain. */
    method SettleChain(c: string, survey: Survey, kept: map<Id, Eval>, ghost todo: set<string>,
                       ghost dropped: set<string>)
      returns (drop: bool, kept': map<Id, Eval>)
      requires queue.Valid() && Resolved(State(Idle)) && c in chains
      requires forall d :: Queued(queue.items, d) ==> d in fired
      modifies this, queue
      ensures queue.Valid()
      ensures State(Settling(todo - {c}, if drop then dropped + {c} else dropped, kept'))
           == Settle(old(State(Settling(todo, dropped, kept))), c, survey)
      ensures forall d :: Queued(queue.items, d) ==> d in fired
    {
      ghost var m := Settling(todo, dropped, kept);
      SettleQueuedFired(State(m), c, survey);
      CutChain(c, m);
      hide TrimChain, Trim;
      if |chains[c]| == 0 {
        CancelEvent(c, m);
        return true, kept;
      }
      kept' := KeepEvals(c, kept);
      var unallocated := Unallocated(survey);
      if c in fired {
        drop := false;
      } else if !survey.feasible || unallocated == map[] {
        drop := true;
      } else {
        FireEvent(c, unallocated, Settling(todo - {c}, dropped, kept'));
        drop := false;
      }
    }

    /**
     case <-waitCompleteEvents.C: settle every chain once, in the arbitrary order of map iteration, and
     forget what was dropped.
     */
    method OnTimer(surveys: string -> Survey, rearmed: bool) returns (ghost order: seq<string>, ghost last: Proc)
      requires Valid()
      requires forall c :: Queued(queue.items, c) ==> c in fired
      modifies this, queue
      ensures Valid()
      ensures Settlement(StartTick(old(State(Idle)), rearmed))
      ensures Settles(StartTick(old(State(Idle)), rearmed), order, surveys, last)
      ensures last.mode.Settling? && last.mode.todo == {} && State(Idle) == EndTick(last)
    {
      armed := rearmed;
      var kept, removedChains: set<string> := map[], {};
      var todo := chains.Keys;
      ghost var start := State(Settling(todo, removedChains, kept));
      order, last := [], start;
      while todo != {}
        invariant queue.Valid()
        invariant Settlement(start) && Settlement(last) && last == State(Settling(todo, removedChains, kept))
        invariant Settles(start, order, surveys, last)
        invariant forall c :: Queued(queue.items, c) ==> c in fired
      {
        hide Settles, Survives, Known, Unallocated, Trim, Coherent;
        var c :| c in todo;
        var drop;
        drop, kept := SettleChain(c, surveys(c), kept, todo, removedChains);
        if drop {
          removedChains := removedChains + {c};
        }
        todo := todo - {c};
        SettleKeepsSettlement(last, c, surveys(c));
        SettlesOneMore(start, order, surveys, last, c);
        order := order + [c];
        last := State(Settling(todo, removedChains, kept));
      }
      EndTickSettles(last);
      evals := kept;
      chains := chains - removedChains;
    }
  }
}
