/**
 processEvals.go: what a settlement decides about a chain, told from the arrivals logged for its job, from where
 its event is, and from what the cluster answers.
 */
module Settlements {
  import opened Ids
  import opened WorkQueue
  import opened EvalChains
  import opened ChainLog
  import opened ScalingSystem

  /** Of some eval of the chain the latest arrival was blocked. */
  ghost predicate AnyBlocked(s: Sys, c: string)
    requires c in s.log && c in s.proc.chains
  {
    exists i :: 0 <= i < |s.proc.chains[c]| && LastBlocked(s.log[c], s.proc.chains[c][i])
  }

  predicate LastBlocked(log: seq<Eval>, id: Id) {
    Latest(log, id).Some? && Latest(log, id).value.blocked
  }

  /** The chain's job has no event queued, running or reported and not yet received. */
  predicate NothingOut(s: Sys, c: string) {
    !Queued(s.proc.queue, c) && !Queued(s.running, c) && c !in s.done
  }

  lemma BlockedByLog(s: Sys, c: string)
    requires Current(s) && c in s.proc.chains
    ensures Known(s.proc.chains[c], s.proc.evals)
    ensures HasBlocked(s.proc, c) <==> AnyBlocked(s, c)
  {
    assert Stores(s.log[c], s.proc.chains[c], s.proc.evals);
    var chain := s.proc.chains[c];
    assert forall i :: 0 <= i < |chain| ==> (LastBlocked(s.log[c], chain[i]) <==> s.proc.evals[chain[i]].blocked);
    if AnyBlocked(s, c) {
      var i :| 0 <= i < |chain| && LastBlocked(s.log[c], chain[i]);
      assert s.proc.evals[chain[i]].blocked;
    }
    if HasBlocked(s.proc, c) {
      var i :| 0 <= i < |chain| && s.proc.evals[chain[i]].blocked;
      assert LastBlocked(s.log[c], chain[i]);
    }
  }

  lemma SettledChain(reg: Registry, s: Sys, c: string, survey: Survey)
    requires Inv(reg, s) && Enabled(reg, s, SettleOne(c, survey))
    ensures c in s.proc.chains && c in s.log && c !in s.proc.mode.dropped && Settlement(s.proc)
    ensures c in s.proc.fired <==> !NothingOut(s, c)
  {
  }

  /**
   The settlement of one chain. It fires, once, for exactly the task groups that wait and for all their copies,
   if and only if something in the chain is blocked, nothing is outstanding for the job, the pools can host it
   and some task group waits. When nothing is blocked the chain's event is withdrawn. The chain is dropped if
   and only if nothing in it is blocked, or nothing is outstanding and nothing was fired.
   */
  lemma SettlementIs(reg: Registry, s: Sys, c: string, survey: Survey)
    requires Inv(reg, s) && Enabled(reg, s, SettleOne(c, survey))
    ensures c in s.proc.chains && c in s.log && c !in s.proc.mode.dropped
    ensures var s' := Apply(reg, s, SettleOne(c, survey));
            var fires := AnyBlocked(s, c) && NothingOut(s, c) && Helpable(survey);
            && s'.running == s.running && s'.done == s.done && s'.proc.evals == s.proc.evals
            && (fires ==> Fires(s.proc, c, survey, s'.proc))
            && (!AnyBlocked(s, c) ==> Withdraws(s.proc, c, s'.proc))
            && (AnyBlocked(s, c) && !fires ==> SameEvents(s.proc, s'.proc))
            && (Queued(s'.proc.queue, c) && !Queued(s.proc.queue, c) <==> fires)
            && s'.proc.mode.dropped == s.proc.mode.dropped +
                 (if !AnyBlocked(s, c) || (NothingOut(s, c) && !fires) then {c} else {})
            && (s'.proc.chains[c] == [] <==> !AnyBlocked(s, c))
  {
    SettledChain(reg, s, c, survey);
    BlockedByLog(s, c);
    BlockedIsLeft(s.proc, c);
    SettleMeaning(s.proc, c, survey);
    FiresQueues(s.proc, c, survey, Settle(s.proc, c, survey));
    hide Settle, Trim, HasBlocked, AnyBlocked, NothingOut, Fires, Withdraws, Helpable, Inv, Queued, Deleted;
  }

  lemma FiresQueues(p: Proc, c: string, survey: Survey, r: Proc)
    ensures Fires(p, c, survey, r) ==> Queued(r.queue, c)
    ensures Withdraws(p, c, r) && DistinctIds(p.queue) ==> (Queued(r.queue, c) ==> Queued(p.queue, c))
  {
    if Fires(p, c, survey, r) {
      assert r.queue[|p.queue|].id == c;
    }
  }

  /** At the end of a tick exactly the dropped chains go, and exactly the evals of the settled chains stay. */
  lemma TickEndIs(reg: Registry, s: Sys)
    requires Inv(reg, s) && Enabled(reg, s, SettleEnd)
    ensures var p, p' := s.proc, Apply(reg, s, SettleEnd).proc;
            && p'.mode.Idle? && SameEvents(p, p')
            && (forall c :: c in p'.chains <==> c in p.chains && c !in p.mode.dropped)
            && (forall c :: c in p'.chains ==> p'.chains[c] == p.chains[c])
            && (forall id :: id in p'.evals <==> exists c :: c in p.chains && id in p.chains[c])
            && (forall id :: id in p'.evals ==> id in p.evals && p'.evals[id] == p.evals[id])
  {
    hide Outstanding, Cancelled, TimerGuards, Logged, Current;
    forall id ensures id in s.proc.mode.kept <==> exists c :: c in s.proc.chains && id in s.proc.chains[c] {
      assert id in s.proc.mode.kept <==> Referenced(s.proc, id);
    }
  }

  // ---- Which contexts are cancelled ----

  /** The step finds the chain of a taken event without anything blocked. */
  ghost predicate Cancels(s: Sys, a: Action, n: nat) {
    && a.SettleOne? && a.c in s.proc.chains && a.c in s.log
    && !AnyBlocked(s, a.c) && !Queued(s.proc.queue, a.c)
    && a.c in s.proc.fired && s.proc.fired[a.c] == n
  }

  lemma CancelledStep(reg: Registry, s: Sys, a: Action, n: nat)
    requires Inv(reg, s) && Enabled(reg, s, a)
    ensures n in Apply(reg, s, a).proc.cancelled <==> n in s.proc.cancelled || Cancels(s, a, n)
  {
    hide Settlement, KeptExactly, OneEvent, Refines, Stores, Cancelled;
    if a.SettleOne? {
      SettlementIs(reg, s, a.c, a.survey);
      hide Inv, AnyBlocked, NothingOut, Helpable, Apply;
    }
  }

  /**
   In every run, a context is cancelled exactly if at some settlement nothing was blocked in the chain of its
   event, which a worker had already taken.
   */
  lemma {:induction false} CancelledIff(reg: Registry, states: seq<Sys>, acts: seq<Action>, k: nat, n: nat)
    requires Run(reg, states, acts) && k < |states|
    ensures n in states[k].proc.cancelled <==> exists i :: 0 <= i < k && Cancels(states[i], acts[i], n)
    decreases k
  {
    hide Apply, Enabled, Inv, Cancels, Lookups, ScalingSystem.History, Run;
    StartOf(reg, states, acts);
    if k > 0 {
      CancelledIff(reg, states, acts, k - 1, n);
      EveryRun(reg, states, acts, k - 1);
      StepApplies(reg, states, acts, k - 1);
      CancelledStep(reg, states[k - 1], acts[k - 1], n);
    }
  }

  lemma StartOf(reg: Registry, states: seq<Sys>, acts: seq<Action>)
    requires Run(reg, states, acts)
    ensures |states| == |acts| + 1 && states[0] == START
  {
  }

  lemma StepApplies(reg: Registry, states: seq<Sys>, acts: seq<Action>, k: nat)
    requires Run(reg, states, acts) && k < |acts| && Inv(reg, states[k])
    ensures Enabled(reg, states[k], acts[k]) && states[k + 1] == Apply(reg, states[k], acts[k])
  {
    assert Next(reg, states[k], acts[k], states[k + 1]);
  }

  // ---- A chain can come back while its old event is still running ----

  const WAITING := Survey(true, map["web" := 1], {"web"}, {"web"})
  const EVENT := Event(0, map["web" := 1])

  /** A job's eval, blocked or not. */
  function EvalOf(info: EvalInfo, id: nat, blocked: bool): Eval {
    Eval(Id(id), info, blocked)
  }

  /** The blocked eval has arrived. */
  function Opened(info: EvalInfo, c: string): Sys {
    Sys(Proc(map[Id(1) := EvalOf(info, 1, true)], map[c := [Id(1)]], map[], true, Idle, [], {}, 0),
        [], [], map[c := [EvalOf(info, 1, true)]], map[c := 0], {c}, true)
  }

  function Ticking(s: Sys, c: string): Sys {
    s.(proc := s.proc.(armed := false, mode := Settling({c}, {}, map[])), touched := {}, due := false)
  }

  /** Its event has been fired. */
  function FiredAt(s: Sys, c: string): Sys {
    s.(proc := s.proc.(mode := Settling({}, {}, s.proc.evals), queue := [Entry(EVENT, c)], fired := map[c := 0],
                       nextSerial := 1))
  }

  /** A worker has taken it. */
  function TakenAt(s: Sys, c: string): Sys {
    s.(proc := s.proc.(mode := Idle, queue := []), running := [Entry(EVENT, c)])
  }

  /** The eval has completed. */
  function CompletedAt(s: Sys, info: EvalInfo, c: string): Sys {
    s.(proc := s.proc.(evals := map[Id(1) := EvalOf(info, 1, false)], armed := true),
       log := map[c := [EvalOf(info, 1, true), EvalOf(info, 1, false)]], touched := {c})
  }

  /** The chain has been emptied and the context of the running event cancelled. */
  function WithdrawnAt(s: Sys, c: string): Sys {
    s.(proc := s.proc.(chains := map[c := []], mode := Settling({}, {c}, map[]), cancelled := {0}), cut := map[c := 1])
  }

  function DroppedAt(s: Sys): Sys {
    s.(proc := s.proc.(evals := map[], chains := map[], mode := Idle), log := map[], cut := map[])
  }

  /** Another blocked eval of the job has arrived. */
  function ReopenedAt(s: Sys, info: EvalInfo, c: string): Sys {
    s.(proc := s.proc.(evals := map[Id(2) := EvalOf(info, 2, true)], chains := map[c := [Id(2)]], armed := true),
       log := map[c := [EvalOf(info, 2, true)]], cut := map[c := 0], touched := {c})
  }

  lemma Opens(reg: Registry, info: EvalInfo, c: string)
    requires c == ChainId(info) && forall id :: reg(id) == info
    ensures Next(reg, START, Arrival(EvalOf(info, 1, true)), Opened(info, c))
  {
    hide ChainId;
  }

  lemma Ticks(reg: Registry, s: Sys, c: string)
    requires s.proc.mode.Idle? && s.proc.armed && s.proc.chains.Keys == {c}
    ensures Next(reg, s, TimerFires(false), Ticking(s, c))
  {
  }

  lemma TicksFirst(reg: Registry, info: EvalInfo, c: string)
    ensures var s := Opened(info, c); Next(reg, s, TimerFires(false), Ticking(s, c))
  {
    Ticks(reg, Opened(info, c), c);
  }

  lemma TicksAgain(reg: Registry, info: EvalInfo, c: string)
    ensures var s := CompletedAt(TakenAt(FiredAt(Ticking(Opened(info, c), c), c), c), info, c);
            Next(reg, s, TimerFires(false), Ticking(s, c))
  {
    Ticks(reg, CompletedAt(TakenAt(FiredAt(Ticking(Opened(info, c), c), c), c), info, c), c);
  }

  lemma FiresChain(info: EvalInfo, c: string)
    ensures var s := Ticking(Opened(info, c), c);
            Resolved(s.proc) && Settle(s.proc, c, WAITING) == FiredAt(s, c).proc
            && Trim(s.proc.chains[c], s.proc.evals) == s.proc.chains[c]
  {
    var p := Ticking(Opened(info, c), c).proc;
    assert Trim(p.chains[c], p.evals) == p.chains[c];
    assert Unallocated(WAITING) == map["web" := 1];
    hide Trim, Unallocated;
    assert p.chains[c := p.chains[c]] == p.chains;
    assert (map id | id in p.chains[c] :: p.evals[id]) == p.evals;
  }

  lemma FiresAt(reg: Registry, info: EvalInfo, c: string)
    ensures var s := Ticking(Opened(info, c), c); Next(reg, s, SettleOne(c, WAITING), FiredAt(s, c))
  {
    FiresChain(info, c);
    hide Settle, Trim;
    var s := Ticking(Opened(info, c), c);
    assert s.cut[c := 0] == s.cut;
  }

  lemma EndsAndTakes(reg: Registry, info: EvalInfo, c: string)
    ensures var s := FiredAt(Ticking(Opened(info, c), c), c);
            var t := s.(proc := s.proc.(mode := Idle));
            Next(reg, s, SettleEnd, t) && Next(reg, t, Take, TakenAt(s, c))
  {
    var s := FiredAt(Ticking(Opened(info, c), c), c);
    assert s.proc.chains - {} == s.proc.chains && s.log - {} == s.log && s.cut - {} == s.cut;
  }

  lemma Completes(reg: Registry, info: EvalInfo, c: string)
    requires c == ChainId(info) && forall id :: reg(id) == info
    ensures var s := TakenAt(FiredAt(Ticking(Opened(info, c), c), c), c);
            Next(reg, s, Arrival(EvalOf(info, 1, false)), CompletedAt(s, info, c))
  {
    hide ChainId;
    var s := TakenAt(FiredAt(Ticking(Opened(info, c), c), c), c);
    assert s.proc.chains[c][0] == Id(1);
    assert s.log[c] + [EvalOf(info, 1, false)] == [EvalOf(info, 1, true), EvalOf(info, 1, false)];
  }

  /** The last stage before the settlement that withdraws the event. */
  function BeforeWithdrawal(info: EvalInfo, c: string): Sys {
    Ticking(CompletedAt(TakenAt(FiredAt(Ticking(Opened(info, c), c), c), c), info, c), c)
  }

  lemma EmptiesChain(info: EvalInfo, c: string)
    ensures var s := BeforeWithdrawal(info, c);
            Resolved(s.proc) && Settle(s.proc, c, WAITING) == WithdrawnAt(s, c).proc
            && Trim(s.proc.chains[c], s.proc.evals) == []
  {
    var p := BeforeWithdrawal(info, c).proc;
    assert p.chains[c][1..] == [];
    assert Trim(p.chains[c], p.evals) == [];
    assert p.chains[c := []] == map[c := []];
  }

  lemma WithdrawsAt(reg: Registry, info: EvalInfo, c: string)
    ensures var s := BeforeWithdrawal(info, c); Next(reg, s, SettleOne(c, WAITING), WithdrawnAt(s, c))
  {
    EmptiesChain(info, c);
    hide Settle, Trim;
    var s := BeforeWithdrawal(info, c);
    assert s.cut[c := 1] == map[c := 1];
  }

  lemma Drops(reg: Registry, info: EvalInfo, c: string)
    ensures var s := WithdrawnAt(BeforeWithdrawal(info, c), c);
            Next(reg, s, SettleEnd, DroppedAt(s))
  {
    var s := WithdrawnAt(BeforeWithdrawal(info, c), c);
    assert s.proc.chains - {c} == map[] && s.log - {c} == map[] && s.cut - {c} == map[];
  }

  lemma Reopens(reg: Registry, info: EvalInfo, c: string)
    requires c == ChainId(info) && forall id :: reg(id) == info
    ensures var s := DroppedAt(WithdrawnAt(BeforeWithdrawal(info, c), c));
            Next(reg, s, Arrival(EvalOf(info, 2, true)), ReopenedAt(s, info, c))
  {
    hide ChainId;
  }

  /** The chain is there to stay, and its event is running although its context is cancelled. */
  ghost predicate LiveOrphan(s: Sys, c: string) {
    && Live(s.proc, c) && s.proc.mode.Idle? && c in s.proc.fired && s.proc.fired[c] in s.proc.cancelled
    && |s.running| == 1 && s.running[0].id == c && s.running[0].item.serial in s.proc.cancelled
  }

  lemma ReopenedLives(info: EvalInfo, c: string)
    ensures var s := WithdrawnAt(BeforeWithdrawal(info, c), c);
            LiveOrphan(ReopenedAt(DroppedAt(s), info, c), c)
  {
  }

  /**
   A run that ends with a chain that is there, not given up, and whose event, still running, is cancelled: the
   job's eval completed, and another one was blocked before the worker was done.
   */
  lemma LiveButCancelled() returns (reg: Registry, states: seq<Sys>, acts: seq<Action>, c: string)
    ensures Run(reg, states, acts)
    ensures LiveOrphan(states[|acts|], c)
  {
    hide LiveOrphan, Next, Opened, Ticking, FiredAt, TakenAt, CompletedAt, WithdrawnAt, DroppedAt, ReopenedAt, ChainId,
         Settlement, Lookups;
    var info := EvalInfo("default", "job", 1);
    c, reg := ChainId(info), _ => info;
    var s1 := Opened(info, c);
    var s2 := Ticking(s1, c);
    var s3 := FiredAt(s2, c);
    var s4 := s3.(proc := s3.proc.(mode := Idle));
    var s5 := TakenAt(s3, c);
    var s6 := CompletedAt(s5, info, c);
    var s7 := Ticking(s6, c);
    var s8 := WithdrawnAt(s7, c);
    var s9 := DroppedAt(s8);
    var s10 := ReopenedAt(s9, info, c);
    Opens(reg, info, c);
    TicksFirst(reg, info, c);
    FiresAt(reg, info, c);
    EndsAndTakes(reg, info, c);
    Completes(reg, info, c);
    TicksAgain(reg, info, c);
    WithdrawsAt(reg, info, c);
    Drops(reg, info, c);
    Reopens(reg, info, c);
    ReopenedLives(info, c);
    states := [START, s1, s2, s3, s4, s5, s6, s7, s8, s9, s10];
    acts := [Arrival(EvalOf(info, 1, true)), TimerFires(false), SettleOne(c, WAITING), SettleEnd, Take,
             Arrival(EvalOf(info, 1, false)), TimerFires(false), SettleOne(c, WAITING), SettleEnd,
             Arrival(EvalOf(info, 2, true))];
  }
}
