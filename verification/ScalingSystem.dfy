/**
 processEvals.go, scalingAction.go and queue.go together: the select loop, any number of scaling workers,
 the event queue between them and the channel of "scaling done" messages, interleaved in any order. The
 settlement of a tick is not one step: workers may run between any two chains of it.
 */
module ScalingSystem {
  import opened Ids
  import opened WorkQueue
  import opened EvalChains
  import opened ChainLog

  const DONE_CAPACITY := 10

  datatype Sys = Sys(
    proc: Proc,
    running: seq<Entry<Event>>,    // events the workers are busy with
    done: seq<string>,             // the buffered channel of done messages
    log: map<string, seq<Eval>>,   // history: arrivals of the chain's job since the chain was opened
    cut: map<string, nat>,         // history: how many records the settlements have trimmed off
    touched: set<string>,          // history: chains opened or hit by an arrival since the last tick
    due: bool)                     // history: a tick comes anyhow, the first one or one left in the channel

  datatype Action =
    | Arrival(e: Eval)
    | ReceiveDone
    | TimerFires(rearmed: bool)
    | SettleOne(c: string, survey: Survey)
    | SettleEnd
    | Take
    | Finish(c: string)

  const START := Sys(Proc(map[], map[], map[], true, Idle, [], {}, 0), [], [], map[], map[], {}, true)

  /** An eval's id determines its namespace, job and CreateIndex: the registry says which. */
  type Registry = Id -> EvalInfo

  ghost predicate Enabled(reg: Registry, s: Sys, a: Action) {
    match a
    case Arrival(e) => s.proc.mode.Idle? && e.info == reg(e.id)
    case ReceiveDone => s.proc.mode.Idle? && s.done != []
    case TimerFires(_) => s.proc.mode.Idle? && s.proc.armed
    case SettleOne(c, _) => s.proc.mode.Settling? && c in s.proc.mode.todo
    case SettleEnd => s.proc.mode.Settling? && s.proc.mode.todo == {}
    case Take => s.proc.queue != []
    case Finish(c) => Queued(s.running, c) && |s.done| < DONE_CAPACITY
  }

  /** What the code's lookups need: every chain id resolves and no chain is empty between ticks. */
  ghost predicate Lookups(s: Sys) {
    && Resolved(s.proc)
    && (s.proc.mode.Idle? ==> NonEmpty(s.proc))
    && (s.proc.mode.Settling? ==> Settlement(s.proc))
  }

  ghost predicate History(s: Sys) {
    s.log.Keys == s.cut.Keys == s.proc.chains.Keys
  }

  ghost function Log(s: Sys, e: Eval): Sys
    requires History(s)
  {
    var c := ChainId(e.info);
    if c in s.proc.chains then s.(log := s.log[c := s.log[c] + [e]], touched := s.touched + {c})
    else if e.blocked then s.(log := s.log[c := [e]], cut := s.cut[c := 0], touched := s.touched + {c})
    else s
  }

  ghost function Apply(reg: Registry, s: Sys, a: Action): Sys
    requires Enabled(reg, s, a) && Lookups(s) && History(s)
  {
    match a
    case Arrival(e) => Log(s, e).(proc := Arrive(s.proc, e))
    case ReceiveDone => s.(proc := Done(s.proc, s.done[0]), done := s.done[1..])
    case TimerFires(rearmed) => s.(proc := StartTick(s.proc, rearmed), touched := {}, due := rearmed)
    case SettleOne(c, survey) =>
      var trimmed := |s.proc.chains[c]| - |Trim(s.proc.chains[c], s.proc.evals)|;
      s.(proc := Settle(s.proc, c, survey), cut := s.cut[c := s.cut[c] + trimmed])
    case SettleEnd =>
      var gone := s.proc.mode.dropped;
      s.(proc := EndTick(s.proc), log := s.log - gone, cut := s.cut - gone)
    case Take => s.(running := s.running + [s.proc.queue[0]], proc := s.proc.(queue := s.proc.queue[1..]))
    case Finish(c) => s.(running := Without(s.running, c), done := s.done + [c])
  }

  // ---- One outstanding event per chain ----

  /** The entries are the fired events of their chains. */
  ghost predicate AreFired(entries: seq<Entry<Event>>, fired: map<string, nat>) {
    forall i :: 0 <= i < |entries| ==> entries[i].id in fired && fired[entries[i].id] == entries[i].item.serial
  }

  /** Each chain has at most one event, in one place; fired records exactly the chains that have one. */
  ghost predicate OneEvent(queue: seq<Entry<Event>>, running: seq<Entry<Event>>, done: seq<string>,
                           fired: map<string, nat>, nextSerial: nat)
  {
    && DistinctIds(queue) && DistinctIds(running) && Distinct(done)
    && (forall c :: c in fired <==> Queued(queue, c) || Queued(running, c) || c in done)
    && (forall c :: Queued(queue, c) ==> !Queued(running, c) && c !in done)
    && (forall c :: Queued(running, c) ==> c !in done)
    && AreFired(queue, fired) && AreFired(running, fired)
    && (forall c :: c in fired ==> fired[c] < nextSerial)
  }

  ghost predicate Outstanding(s: Sys) {
    OneEvent(s.proc.queue, s.running, s.done, s.proc.fired, s.proc.nextSerial)
  }

  lemma QueuedCons<T>(items: seq<Entry<T>>, c: string)
    requires items != []
    ensures Queued(items, c) <==> items[0].id == c || Queued(items[1..], c)
  {
  }

  lemma QueuedSnoc<T>(items: seq<Entry<T>>, e: Entry<T>, c: string)
    ensures Queued(items + [e], c) <==> Queued(items, c) || e.id == c
  {
    assert (items + [e])[|items|] == e;
    if Queued(items, c) {
      var i :| 0 <= i < |items| && items[i].id == c;
      assert (items + [e])[i].id == c;
    }
  }

  lemma TakeMoves(queue: seq<Entry<Event>>, running: seq<Entry<Event>>, done: seq<string>, fired: map<string, nat>,
                  n: nat)
    requires OneEvent(queue, running, done, fired, n) && queue != []
    ensures OneEvent(queue[1..], running + [queue[0]], done, fired, n)
  {
    assert Queued(queue, queue[0].id);
    forall c
      ensures Queued(queue, c) <==> queue[0].id == c || Queued(queue[1..], c)
      ensures Queued(running + [queue[0]], c) <==> Queued(running, c) || queue[0].id == c
    {
      QueuedCons(queue, c);
      QueuedSnoc(running, queue[0], c);
    }
  }

  lemma FinishMoves(queue: seq<Entry<Event>>, running: seq<Entry<Event>>, done: seq<string>, fired: map<string, nat>,
                    n: nat, c: string)
    requires OneEvent(queue, running, done, fired, n) && Queued(running, c)
    ensures OneEvent(queue, Without(running, c), done + [c], fired, n)
  {
    WithoutMeaning(running, c);
  }

  lemma ReceiveRetires(queue: seq<Entry<Event>>, running: seq<Entry<Event>>, done: seq<string>,
                       fired: map<string, nat>, n: nat)
    requires OneEvent(queue, running, done, fired, n) && done != []
    ensures OneEvent(queue, running, done[1..], fired - {done[0]}, n)
  {
  }

  lemma CancelRetires(queue: seq<Entry<Event>>, running: seq<Entry<Event>>, done: seq<string>,
                      fired: map<string, nat>, n: nat, c: string)
    requires OneEvent(queue, running, done, fired, n) && Queued(queue, c)
    ensures OneEvent(Without(queue, c), running, done, fired - {c}, n)
  {
    WithoutMeaning(queue, c);
  }

  lemma FireAdds(queue: seq<Entry<Event>>, running: seq<Entry<Event>>, done: seq<string>, fired: map<string, nat>,
                 n: nat, c: string, groups: map<string, int>)
    requires OneEvent(queue, running, done, fired, n) && c !in fired
    ensures OneEvent(queue + [Entry(Event(n, groups), c)], running, done, fired[c := n], n + 1)
  {
    var e := Entry(Event(n, groups), c);
    forall d ensures Queued(queue + [e], d) <==> Queued(queue, d) || c == d {
      QueuedSnoc(queue, e, d);
    }
  }

  lemma StepKeepsOutstanding(reg: Registry, s: Sys, a: Action)
    requires Enabled(reg, s, a) && Lookups(s) && History(s) && Outstanding(s)
    ensures Outstanding(Apply(reg, s, a))
  {
    hide OneEvent, NonEmpty, Survives;
    var p := s.proc;
    match a
    case ReceiveDone => ReceiveRetires(p.queue, s.running, s.done, p.fired, p.nextSerial);
    case Take => TakeMoves(p.queue, s.running, s.done, p.fired, p.nextSerial);
    case Finish(c) => FinishMoves(p.queue, s.running, s.done, p.fired, p.nextSerial, c);
    case SettleOne(c, survey) =>
      if Trim(p.chains[c], p.evals) == [] {
        if Queued(p.queue, c) {
          CancelRetires(p.queue, s.running, s.done, p.fired, p.nextSerial, c);
        }
      } else if c !in p.fired {
        FireAdds(p.queue, s.running, s.done, p.fired, p.nextSerial, c, Unallocated(survey));
      }
    case _ =>
  }

  // ---- Chains refine the log ----

  /** The chain is what is left of the records of its log after trimming. */
  ghost predicate Refines(reg: Registry, c: string, log: seq<Eval>, cut: nat, chain: seq<Id>) {
    && log != []
    && (forall i :: 0 <= i < |log| ==> log[i].info == reg(log[i].id) && ChainId(log[i].info) == c)
    && cut <= |Records(log)|
    && chain == IdsOf(Records(log)[cut..])
  }

  ghost predicate Logged(reg: Registry, s: Sys) {
    && History(s)
    && (forall id :: id in s.proc.evals ==> s.proc.evals[id].info == reg(id))
    && (forall c :: c in s.proc.chains ==> Refines(reg, c, s.log[c], s.cut[c], s.proc.chains[c]))
  }

  /** A chain increases in CreateIndex and its last id is the newest arrival of the log. */
  lemma ChainIncreases(reg: Registry, c: string, log: seq<Eval>, cut: nat, chain: seq<Id>)
    requires Refines(reg, c, log, cut, chain)
    ensures forall i, j :: 0 <= i < j < |chain| ==> reg(chain[i]).createIndex < reg(chain[j]).createIndex
    ensures forall i :: 0 <= i < |chain| ==> ChainId(reg(chain[i])) == c
    ensures chain != [] ==> reg(chain[|chain| - 1]) == Records(log)[|Records(log)| - 1].info
  {
    RecordsMeaning(log);
    forall i | 0 <= i < |chain| ensures reg(chain[i]) == Records(log)[cut + i].info && ChainId(reg(chain[i])) == c {
      var r := Records(log)[cut + i];
      assert r in log;
      assert chain[i] == r.id;
    }
  }

  /** So the membership scan of the loop never changes its outcome: CreateIndex alone decides. */
  lemma ScanNeverMatters(reg: Registry, c: string, log: seq<Eval>, cut: nat, chain: seq<Id>, e: Eval)
    requires Refines(reg, c, log, cut, chain) && e.info == reg(e.id) && e.id in chain
    ensures e.info.createIndex <= reg(chain[|chain| - 1]).createIndex
  {
    ChainIncreases(reg, c, log, cut, chain);
    var i :| 0 <= i < |chain| && chain[i] == e.id;
  }

  lemma ArrivalExtends(reg: Registry, c: string, log: seq<Eval>, cut: nat, chain: seq<Id>, e: Eval)
    requires Refines(reg, c, log, cut, chain) && chain != []
    requires e.info == reg(e.id) && ChainId(e.info) == c
    ensures Refines(reg, c, log + [e], cut,
              if e.id !in chain && e.info.createIndex > reg(chain[|chain| - 1]).createIndex
              then chain + [e.id] else chain)
  {
    ChainIncreases(reg, c, log, cut, chain);
    RecordsAppend(log, e);
    if e.id in chain {
      ScanNeverMatters(reg, c, log, cut, chain, e);
    }
    var r, r' := Records(log), Records(log + [e]);
    if r' == r + [e] {
      assert r'[cut..] == r[cut..] + [e];
    } else {
      assert r' == r;
    }
  }

  lemma TrimRefines(reg: Registry, c: string, log: seq<Eval>, cut: nat, chain: seq<Id>, evals: map<Id, Eval>)
    requires Refines(reg, c, log, cut, chain) && Known(chain, evals)
    ensures Refines(reg, c, log, cut + |chain| - |Trim(chain, evals)|, Trim(chain, evals))
  {
    hide Records, Trim;
    TrimMeaning(chain, evals);
    var k := |chain| - |Trim(chain, evals)|;
    assert Records(log)[cut..][k..] == Records(log)[cut + k..];
  }

  lemma ArrivalKeepsLookups(p: Proc, e: Eval)
    requires Resolved(p) && NonEmpty(p)
    ensures Resolved(Arrive(p, e)) && NonEmpty(Arrive(p, e))
  {
  }

  lemma OpeningRefines(reg: Registry, e: Eval)
    requires e.info == reg(e.id)
    ensures Refines(reg, ChainId(e.info), [e], 0, [e.id])
  {
  }

  lemma ArrivalRefinesAt(reg: Registry, s: Sys, e: Eval, d: string)
    requires Enabled(reg, s, Arrival(e)) && Lookups(s) && Logged(reg, s)
    requires d in Apply(reg, s, Arrival(e)).proc.chains
    ensures var s' := Apply(reg, s, Arrival(e));
            d in s'.log && d in s'.cut && Refines(reg, d, s'.log[d], s'.cut[d], s'.proc.chains[d])
  {
    hide Refines, Settlement;
    if d == ChainId(e.info) {
      OpeningRefines(reg, e);
      if d in s.proc.chains {
        assert Known(s.proc.chains[d], s.proc.evals);
        ArrivalExtends(reg, d, s.log[d], s.cut[d], s.proc.chains[d], e);
      }
    }
  }

  lemma ArrivalKeepsLogged(reg: Registry, s: Sys, e: Eval)
    requires Enabled(reg, s, Arrival(e)) && Lookups(s) && Logged(reg, s)
    ensures Logged(reg, Apply(reg, s, Arrival(e)))
  {
    hide Refines, Settlement, Resolved, NonEmpty;
    var s' := Apply(reg, s, Arrival(e));
    forall d | d in s'.proc.chains ensures Refines(reg, d, s'.log[d], s'.cut[d], s'.proc.chains[d]) {
      ArrivalRefinesAt(reg, s, e, d);
    }
  }

  /** A settlement trims the one chain and moves its cut by as much. */
  lemma SettleCuts(reg: Registry, s: Sys, c: string, survey: Survey)
    requires Enabled(reg, s, SettleOne(c, survey)) && Lookups(s) && History(s)
    ensures c in s.proc.chains && Known(s.proc.chains[c], s.proc.evals)
    ensures var s', chain := Apply(reg, s, SettleOne(c, survey)), Trim(s.proc.chains[c], s.proc.evals);
            && s'.log == s.log && s'.proc.evals == s.proc.evals
            && s'.proc.chains == s.proc.chains[c := chain]
            && s'.cut == s.cut[c := s.cut[c] + |s.proc.chains[c]| - |chain|]
  {
  }

  lemma SettleKeepsLogged(reg: Registry, s: Sys, c: string, survey: Survey)
    requires Enabled(reg, s, SettleOne(c, survey)) && Lookups(s) && Logged(reg, s)
    ensures Logged(reg, Apply(reg, s, SettleOne(c, survey)))
  {
    hide Settle, TrimChain, Refines;
    TrimRefines(reg, c, s.log[c], s.cut[c], s.proc.chains[c], s.proc.evals);
  }

  lemma StepKeepsLogged(reg: Registry, s: Sys, a: Action)
    requires Enabled(reg, s, a) && Lookups(s) && Logged(reg, s)
    ensures Logged(reg, Apply(reg, s, a))
  {
    hide Refines;
    match a
    case Arrival(e) => ArrivalKeepsLogged(reg, s, e);
    case SettleOne(c, survey) => SettleKeepsLogged(reg, s, c, survey);
    case _ =>
  }

  // ---- The stored evals are the latest arrivals ----

  /** Of each eval of the chain the latest arrival is stored. */
  ghost predicate Stores(log: seq<Eval>, chain: seq<Id>, evals: map<Id, Eval>) {
    forall i :: 0 <= i < |chain| ==> chain[i] in evals && Latest(log, chain[i]) == Some(evals[chain[i]])
  }

  ghost predicate Current(s: Sys) {
    forall c :: c in s.proc.chains ==> c in s.log && Stores(s.log[c], s.proc.chains[c], s.proc.evals)
  }

  lemma ArrivalStores(log: seq<Eval>, chain: seq<Id>, evals: map<Id, Eval>, e: Eval)
    requires Stores(log, chain, evals)
    ensures Stores(log + [e], chain, evals[e.id := e]) && Stores(log + [e], chain + [e.id], evals[e.id := e])
  {
    forall id ensures Latest(log + [e], id) == if e.id == id then Some(e) else Latest(log, id) {
      LatestAppend(log, e, id);
    }
  }

  lemma NothingStored(evals: map<Id, Eval>)
    ensures Stores([], [], evals)
  {
  }

  lemma OthersStore(log: seq<Eval>, chain: seq<Id>, evals: map<Id, Eval>, e: Eval)
    requires Stores(log, chain, evals) && e.id !in chain
    ensures Stores(log, chain, evals[e.id := e])
  {
  }

  /** An eval is in no other job's chain. */
  lemma InOwnChainOnly(reg: Registry, s: Sys, e: Eval, d: string)
    requires Logged(reg, s) && e.info == reg(e.id) && d in s.proc.chains && d != ChainId(e.info)
    ensures e.id !in s.proc.chains[d]
  {
    ChainIncreases(reg, d, s.log[d], s.cut[d], s.proc.chains[d]);
  }

  lemma ArrivalStoresAt(reg: Registry, s: Sys, e: Eval, d: string)
    requires Enabled(reg, s, Arrival(e)) && Lookups(s) && Logged(reg, s) && Current(s)
    requires d in Apply(reg, s, Arrival(e)).proc.chains
    ensures var s' := Apply(reg, s, Arrival(e)); d in s'.log && Stores(s'.log[d], s'.proc.chains[d], s'.proc.evals)
  {
    hide Refines, Stores, Settlement;
    var c := ChainId(e.info);
    if d != c {
      InOwnChainOnly(reg, s, e, d);
      OthersStore(s.log[d], s.proc.chains[d], s.proc.evals, e);
    } else if c in s.proc.chains {
      ArrivalStores(s.log[c], s.proc.chains[c], s.proc.evals, e);
    } else {
      NothingStored(s.proc.evals);
      ArrivalStores([], [], s.proc.evals, e);
      assert [] + [e] == [e] && [] + [e.id] == [e.id];
    }
  }

  lemma ArrivalKeepsCurrent(reg: Registry, s: Sys, e: Eval)
    requires Enabled(reg, s, Arrival(e)) && Lookups(s) && Logged(reg, s) && Current(s)
    ensures Current(Apply(reg, s, Arrival(e)))
  {
    hide Refines, Stores, Settlement, Resolved, NonEmpty;
    var s' := Apply(reg, s, Arrival(e));
    forall d | d in s'.proc.chains ensures d in s'.log && Stores(s'.log[d], s'.proc.chains[d], s'.proc.evals) {
      ArrivalStoresAt(reg, s, e, d);
    }
  }

  lemma TrimStores(log: seq<Eval>, chain: seq<Id>, evals: map<Id, Eval>)
    requires Stores(log, chain, evals) && Known(chain, evals)
    ensures Stores(log, Trim(chain, evals), evals)
  {
    TrimMeaning(chain, evals);
  }

  lemma StepKeepsCurrent(reg: Registry, s: Sys, a: Action)
    requires Enabled(reg, s, a) && Lookups(s) && Logged(reg, s) && Current(s)
    ensures Current(Apply(reg, s, a))
  {
    hide Stores, Refines;
    match a
    case Arrival(e) => ArrivalKeepsCurrent(reg, s, e);
    case SettleOne(c, survey) => SettleKeepsCurrent(reg, s, c, survey);
    case SettleEnd => EndKeepsCurrent(reg, s);
    case _ =>
  }

  lemma SettleKeepsCurrent(reg: Registry, s: Sys, c: string, survey: Survey)
    requires Enabled(reg, s, SettleOne(c, survey)) && Lookups(s) && Logged(reg, s) && Current(s)
    ensures Current(Apply(reg, s, SettleOne(c, survey)))
  {
    SettleCuts(reg, s, c, survey);
    hide Settle, Trim, Refines, Stores, Settlement, Apply;
    TrimStores(s.log[c], s.proc.chains[c], s.proc.evals);
  }

  lemma EndKeepsCurrent(reg: Registry, s: Sys)
    requires Enabled(reg, s, SettleEnd) && Lookups(s) && Logged(reg, s) && Current(s)
    ensures Current(Apply(reg, s, SettleEnd))
  {
    hide Refines, KeptExactly;
  }

  lemma StepKeepsLookups(reg: Registry, s: Sys, a: Action)
    requires Enabled(reg, s, a) && Lookups(s) && History(s)
    ensures Lookups(Apply(reg, s, a))
  {
    match a
    case Arrival(e) => ArrivalKeepsLookups(s.proc, e);
    case SettleOne(c, survey) => SettleKeepsSettlement(s.proc, c, survey);
    case SettleEnd => EndTickSettles(s.proc);
    case _ =>
  }

  /** A settlement in progress keeps exactly the evals of the chains it has settled. */
  ghost predicate Sparing(p: Proc) {
    p.mode.Settling? ==> KeptExactly(p)
  }

  lemma StepKeepsSparing(reg: Registry, s: Sys, a: Action)
    requires Enabled(reg, s, a) && Lookups(s) && History(s) && Sparing(s.proc)
    ensures Sparing(Apply(reg, s, a).proc)
  {
    match a
    case SettleOne(c, survey) => SettleKeepsExactly(s.proc, c, survey);
    case Take => SparingElsewhere(s.proc, Apply(reg, s, a).proc);
    case _ =>
  }

  lemma SparingElsewhere(p: Proc, q: Proc)
    requires Sparing(p) && q.mode == p.mode && q.chains == p.chains
    ensures Sparing(q)
  {
    if p.mode.Settling? {
      assert forall id :: Referenced(q, id) <==> Referenced(p, id);
    }
  }

  // ---- Cancellation ----

  /** The chain exists and the settlement in progress has not given it up. */
  predicate Live(p: Proc, c: string) {
    c in p.chains && (p.mode.Settling? ==> c !in p.mode.dropped)
  }

  /** An event whose chain is gone is not queued any more and has been cancelled. */
  ghost predicate Cancelled(p: Proc) {
    forall c :: c in p.fired ==> Live(p, c) || (p.fired[c] in p.cancelled && !Queued(p.queue, c))
  }

  lemma StepKeepsCancelled(reg: Registry, s: Sys, a: Action)
    requires Enabled(reg, s, a) && Lookups(s) && History(s) && Outstanding(s) && Cancelled(s.proc)
    ensures Cancelled(Apply(reg, s, a).proc)
  {
    match a
    case SettleOne(c, survey) => SettleKeepsCancelled(s, c, survey);
    case Take =>
      forall c ensures Queued(s.proc.queue[1..], c) ==> Queued(s.proc.queue, c) {
        QueuedCons(s.proc.queue, c);
      }
    case _ =>
  }

  lemma QueuedAfter(p: Proc, c: string, survey: Survey, r: Proc, d: string)
    requires Fires(p, c, survey, r) || Withdraws(p, c, r) || SameEvents(p, r)
    ensures Queued(r.queue, d) ==> Queued(p.queue, d) || (d == c && Fires(p, c, survey, r))
  {
    if Queued(r.queue, d) {
      var i :| 0 <= i < |r.queue| && r.queue[i].id == d;
      if Withdraws(p, c, r) && Queued(p.queue, c) {
        var k: nat :| Deleted(p.queue, k, r.queue) && p.queue[k].id == c;
        assert p.queue[if i < k then i else i + 1].id == d;
      } else if i < |p.queue| {
        assert r.queue[i] == r.queue[..|p.queue|][i] || r.queue == p.queue;
        assert p.queue[i].id == d;
      }
    }
  }

  lemma SettleKeepsCancelled(s: Sys, c: string, survey: Survey)
    requires Lookups(s) && s.proc.mode.Settling? && c in s.proc.mode.todo && Outstanding(s) && Cancelled(s.proc)
    ensures Cancelled(Settle(s.proc, c, survey))
  {
    var p, r := s.proc, Settle(s.proc, c, survey);
    SettleMeaning(p, c, survey);
    assert r.chains.Keys == p.chains.Keys && c in p.chains && Known(p.chains[c], p.evals);
    hide Settle, Trim, HasBlocked, Helpable, Waits, OneEvent;
    forall d ensures Queued(r.queue, d) ==> Queued(p.queue, d) || (d == c && Live(r, d)) {
      QueuedAfter(p, c, survey, r, d);
    }
  }

  /** The timer is armed exactly when a chain was opened or hit by an arrival since the last tick, or a tick is due. */
  ghost predicate TimerGuards(s: Sys) {
    s.proc.armed <==> s.touched != {} || s.due
  }

  lemma StepKeepsTimer(reg: Registry, s: Sys, a: Action)
    requires Enabled(reg, s, a) && Lookups(s) && History(s) && TimerGuards(s)
    ensures TimerGuards(Apply(reg, s, a))
  {
  }

  // ---- All runs ----

  ghost predicate Inv(reg: Registry, s: Sys) {
    && Lookups(s) && Logged(reg, s) && Current(s) && Sparing(s.proc)
    && Outstanding(s) && Cancelled(s.proc) && TimerGuards(s)
  }

  /** A step of the system; nothing is promised about a step whose map reads would miss. */
  ghost predicate Next(reg: Registry, s: Sys, a: Action, s': Sys) {
    Enabled(reg, s, a) && (Lookups(s) && History(s) ==> s' == Apply(reg, s, a))
  }

  ghost predicate Run(reg: Registry, states: seq<Sys>, acts: seq<Action>) {
    && |states| == |acts| + 1 && states[0] == START
    && forall i :: 0 <= i < |acts| ==> Next(reg, states[i], acts[i], states[i + 1])
  }

  lemma StepKeepsInv(reg: Registry, s: Sys, a: Action)
    requires Inv(reg, s) && Enabled(reg, s, a)
    ensures Inv(reg, Apply(reg, s, a))
  {
    hide Apply, Lookups, Current, Sparing, Outstanding, Cancelled, TimerGuards;
    StepKeepsTimer(reg, s, a);
    StepKeepsLookups(reg, s, a);
    StepKeepsLogged(reg, s, a);
    StepKeepsCurrent(reg, s, a);
    StepKeepsSparing(reg, s, a);
    StepKeepsOutstanding(reg, s, a);
    StepKeepsCancelled(reg, s, a);
  }

  /**
   Whatever arrives, whatever the cluster answers, however many workers there are and however they
   interleave: no lookup misses, chains refine their logs, of each eval in a chain the latest arrival is stored,
   no job has two events, an event without a chain is cancelled, and the timer is armed exactly when a chain
   changed or a tick is due.
   */
  lemma {:induction false} EveryRun(reg: Registry, states: seq<Sys>, acts: seq<Action>, k: nat)
    requires Run(reg, states, acts) && k < |states|
    ensures Inv(reg, states[k])
    decreases k
  {
    if k > 0 {
      EveryRun(reg, states, acts, k - 1);
      assert Next(reg, states[k - 1], acts[k - 1], states[k - 1 + 1]);
      StepKeepsInv(reg, states[k - 1], acts[k - 1]);
    }
  }

  // ---- What every reachable state promises ----

  function Count<T>(items: seq<Entry<T>>, c: string): nat {
    if items == [] then 0 else (if items[0].id == c then 1 else 0) + Count(items[1..], c)
  }

  function CountDone(done: seq<string>, c: string): nat {
    if done == [] then 0 else (if done[0] == c then 1 else 0) + CountDone(done[1..], c)
  }

  lemma {:induction false} CountOnce<T(!new)>(items: seq<Entry<T>>, c: string)
    requires DistinctIds(items)
    ensures Count(items, c) == if Queued(items, c) then 1 else 0
  {
    if items != [] {
      CountOnce(items[1..], c);
      QueuedCons(items, c);
    }
  }

  lemma {:induction false} CountDoneOnce(done: seq<string>, c: string)
    requires Distinct(done)
    ensures CountDone(done, c) == if c in done then 1 else 0
  {
    if done != [] {
      CountDoneOnce(done[1..], c);
    }
  }

  /**
   A chain id is queued, running and pending as done zero times in all or once in all, and once exactly
   when the select loop believes it has an event out.
   */
  lemma OnePlace(reg: Registry, s: Sys, c: string)
    requires Inv(reg, s)
    ensures Count(s.proc.queue, c) + Count(s.running, c) + CountDone(s.done, c)
         == if c in s.proc.fired then 1 else 0
  {
    CountOnce(s.proc.queue, c);
    CountOnce(s.running, c);
    CountDoneOnce(s.done, c);
  }

  /**
   A run from the start in which a job's blocked eval arrives and then completes: until the timer fires its
   chain has a head that is not blocked.
   */
  lemma HeadCanBeUnblocked() returns (reg: Registry, states: seq<Sys>, acts: seq<Action>, c: string)
    ensures Run(reg, states, acts)
    ensures var p := states[|acts|].proc;
            && p.mode.Idle? && c in p.chains && p.chains[c] != [] && p.chains[c][0] in p.evals
            && !p.evals[p.chains[c][0]].blocked
  {
    var id, info := Id(1), EvalInfo("default", "job", 1);
    c, reg := ChainId(info), _ => info;
    var first, second := Arrival(Eval(id, info, true)), Arrival(Eval(id, info, false));
    var s1 := Apply(reg, START, first);
    ArrivalKeepsLookups(START.proc, first.e);
    states, acts := [START, s1, Apply(reg, s1, second)], [first, second];
  }

  /** A settlement that queues an event meets Enqueue's demand, and fires for a job with nothing outstanding. */
  lemma EnqueueDemandMet(reg: Registry, s: Sys, c: string, survey: Survey)
    requires Inv(reg, s) && Enabled(reg, s, SettleOne(c, survey))
    ensures |Settle(s.proc, c, survey).queue| > |s.proc.queue| ==>
              && !Queued(s.proc.queue, c)
              && Count(s.proc.queue, c) + Count(s.running, c) + CountDone(s.done, c) == 0
  {
    OnePlace(reg, s, c);
  }

  /** A chain that is neither dropped nor opened by the step keeps its log and only loses a prefix. */
  lemma StepMovesForward(reg: Registry, s: Sys, a: Action, c: string)
    requires Inv(reg, s) && Enabled(reg, s, a)
    requires c in s.proc.chains
    ensures var s' := Apply(reg, s, a);
            c in s'.proc.chains ==>
              c in s'.log && c in s'.cut && s.log[c] <= s'.log[c] && s.cut[c] <= s'.cut[c]
  {
    hide Outstanding, Cancelled, Refines, TimerGuards, Stores, KeptExactly;
    if a.SettleOne? {
      SettleCuts(reg, s, a.c, a.survey);
    }
  }

  /**
   Between any two states of a run in which a chain was never dropped, its log grew at the end, and the start
   of the part of the log's records that the chain still holds moved forward.
   */
  lemma {:induction false} HistoryMovesForward(reg: Registry, states: seq<Sys>, acts: seq<Action>, i: nat, j: nat,
                                               c: string)
    requires Run(reg, states, acts) && i <= j < |states|
    requires forall k :: i <= k <= j ==> c in states[k].proc.chains
    ensures c in states[i].log && c in states[j].log && c in states[i].cut && c in states[j].cut
    ensures states[i].log[c] <= states[j].log[c] && states[i].cut[c] <= states[j].cut[c]
    ensures Refines(reg, c, states[i].log[c], states[i].cut[c], states[i].proc.chains[c])
    ensures Refines(reg, c, states[j].log[c], states[j].cut[c], states[j].proc.chains[c])
    decreases j
  {
    hide Refines, Apply, Outstanding, Cancelled, TimerGuards, Lookups;
    EveryRun(reg, states, acts, i);
    EveryRun(reg, states, acts, j);
    if i < j {
      HistoryMovesForward(reg, states, acts, i, j - 1, c);
      EveryRun(reg, states, acts, j - 1);
      assert Next(reg, states[j - 1], acts[j - 1], states[j - 1 + 1]);
      StepMovesForward(reg, states[j - 1], acts[j - 1], c);
    }
  }

  /** After a tick, the chain of every queued event exists and has a blocked head. */
  lemma QueuedHeadsBlocked(reg: Registry, s: Sys, i: nat)
    requires Inv(reg, s) && Enabled(reg, s, SettleEnd) && i < |s.proc.queue|
    ensures var p, c := Apply(reg, s, SettleEnd).proc, s.proc.queue[i].id;
            c in p.chains && p.chains[c] != [] && p.chains[c][0] in p.evals && p.evals[p.chains[c][0]].blocked
  {
    assert Queued(s.proc.queue, s.proc.queue[i].id);
    EndTickSettles(s.proc);
  }

  /** A worker that runs an event whose chain is gone runs a cancelled event. */
  lemma OrphansAreCancelled(reg: Registry, s: Sys, i: nat)
    requires Inv(reg, s) && i < |s.running| && s.running[i].id !in s.proc.chains
    ensures s.running[i].item.serial in s.proc.cancelled
  {
  }

  /** A chain given up as infeasible or with nothing unallocated has no event anywhere. */
  lemma GivenUpHasNoEvent(reg: Registry, s: Sys, c: string, survey: Survey)
    requires Inv(reg, s) && Enabled(reg, s, SettleOne(c, survey))
    ensures var s' := Apply(reg, s, SettleOne(c, survey));
            Trim(s.proc.chains[c], s.proc.evals) != [] && c in s'.proc.mode.dropped ==>
              Count(s'.proc.queue, c) + Count(s'.running, c) + CountDone(s'.done, c) == 0
  {
    StepKeepsInv(reg, s, SettleOne(c, survey));
    OnePlace(reg, Apply(reg, s, SettleOne(c, survey)), c);
  }
}
