/** What gcAction.go promises about one cycle and about every run of cycles. */
module CollectorRuns {
  import opened Ids
  import opened Collector

  lemma {:induction false} SubsetSize(a: set<Id>, b: set<Id>)
    requires a <= b
    ensures |a| <= |b|
  {
    assert b == a + (b - a);
  }

  /** The node is in the pool and no allocation is on it. */
  ghost predicate Unused(p: Snapshot, n: Id) {
    n in p.nodes && forall a :: a in p.allocs ==> p.allocs[a] != n
  }

  lemma IdleIsUnused(p: Snapshot, n: Id)
    ensures n in Idle(p) <==> Unused(p, n)
  {
  }

  /** An eligible node of the pool is idle in it and was not being drained before the cycle. */
  lemma EligibleAreIdle(cfg: Config, t: Tracked, pools: map<string, Snapshot>, obs: Tracked, p: string)
    requires Observed(t, pools, obs)
    ensures Eligible(obs, cfg, p) <= set n | n in obs && obs[n].pool == p && !(n in t && t[n].collecting)
    ensures p in pools ==> Eligible(obs, cfg, p) <= Idle(pools[p])
  {
  }

  /** Every allocation the snapshot shows sits on a node it shows. */
  ghost predicate HostedSnapshot(p: Snapshot) {
    p.allocs.Values <= p.nodes
  }

  /**
   A cycle that grows a pool does not shrink it: if a warm-up starts, none of the pool's nodes is drained.
   */
  lemma NeverGrowsAndShrinks(cfg: Config, t: Tracked, c: Cycle, t': Tracked, p: string)
    requires CycleStep(cfg, t, c, t') && p in c.pools && HostedSnapshot(c.pools[p])
    ensures p in c.warmed ==> DrainedIn(c.drained, p) == {}
  {
    hide Observed, Marked, Eligible, DrainedIn;
    var obs :| CycleVia(cfg, t, c, obs, t');
    EligibleAreIdle(cfg, t, c.pools, obs, p);
    SubsetSize(Eligible(obs, cfg, p), Idle(c.pools[p]));
    IdlePlusBusy(c.pools[p]);
    hide Idle;
    assert RightlyDrained(obs, cfg, p, c.pools[p], DrainedIn(c.drained, p));
  }

  lemma IdlePlusBusy(p: Snapshot)
    requires HostedSnapshot(p)
    ensures |Idle(p)| + BusyCount(p) == |p.nodes|
  {
  }

  /** The nodes of the pool without an allocation. */
  ghost function UnusedNodes(p: Snapshot): set<Id> {
    set n | n in p.nodes && Unused(p, n)
  }

  lemma IdleAreUnused(p: Snapshot)
    ensures UnusedNodes(p) == Idle(p)
  {
    forall n ensures n in UnusedNodes(p) <==> n in Idle(p) {
      IdleIsUnused(p, n);
    }
  }

  /**
   A warm-up starts if and only if a pool has fewer unused nodes than the configured expression allows, applied to
   its total and its used nodes, and it tops the unused ones up to just that many.
   */
  lemma WarmUpTopsUp(cfg: Config, t: Tracked, c: Cycle, t': Tracked, p: string)
    requires CycleStep(cfg, t, c, t') && p in c.pools && HostedSnapshot(c.pools[p])
    ensures var total, free := |c.pools[p].nodes|, |UnusedNodes(c.pools[p])|;
            && (p in c.warmed <==> cfg.allowance.Some? && free < cfg.allowance.value(total, total - free))
            && (p in c.warmed ==> free + c.warmed[p] == cfg.allowance.value(total, total - free))
  {
    hide Observed, Marked, RightlyDrained;
    var obs :| CycleVia(cfg, t, c, obs, t');
    IdleAreUnused(c.pools[p]);
    IdlePlusBusy(c.pools[p]);
  }

  /** The idle nodes of a pool that are not being drained. */
  function IdleKept(pool: Snapshot, t: Tracked): set<Id> {
    set n | n in Idle(pool) && !(n in t && t[n].collecting)
  }

  /** With disjoint pools, an idle node of the pool is tracked under that pool. */
  lemma TrackedUnderOwnPool(t: Tracked, pools: map<string, Snapshot>, obs: Tracked, p: string)
    requires Observed(t, pools, obs) && DisjointPools(pools) && p in pools
    ensures forall n :: n in Idle(pools[p]) ==> n in obs && obs[n].pool == p
  {
  }

  /** After a cycle the pool's idle nodes are kept except for the drained ones, which were kept before. */
  lemma KeptAfter(cfg: Config, t: Tracked, c: Cycle, obs: Tracked, t': Tracked, p: string)
    requires CycleVia(cfg, t, c, obs, t') && DisjointPools(c.pools) && p in c.pools
    ensures IdleKept(c.pools[p], t') == IdleKept(c.pools[p], t) - DrainedIn(c.drained, p)
    ensures Eligible(obs, cfg, p) <= IdleKept(c.pools[p], t)
  {
    hide Idle, AllIdle, RightlyDrained, Shortage, DrainedIn, IdleKept, Eligible, Marked;
    TrackedUnderOwnPool(t, c.pools, obs, p);
    EligibleAreKept(cfg, t, c.pools, obs, p);
    MarkedOnly(t, c.pools[p], p, obs, c.drained);
  }

  lemma EligibleAreKept(cfg: Config, t: Tracked, pools: map<string, Snapshot>, obs: Tracked, p: string)
    requires Observed(t, pools, obs) && p in pools
    ensures Eligible(obs, cfg, p) <= IdleKept(pools[p], t)
  {
  }

  lemma MarkedOnly(t: Tracked, pool: Snapshot, p: string, obs: Tracked, drained: map<string, set<Id>>)
    requires forall n :: n in Idle(pool) ==> n in obs && obs[n].pool == p
    requires forall n :: n in obs ==> obs[n].collecting == (n in t && t[n].collecting)
    ensures IdleKept(pool, Marked(obs, drained)) == IdleKept(pool, t) - DrainedIn(drained, p)
  {
  }

  /**
   The hot-pool floor: the drained nodes are taken from the idle ones, and as many idle nodes stay as the
   allowance asks for, or all there were.
   */
  lemma HotPoolFloor(cfg: Config, t: Tracked, c: Cycle, t': Tracked, p: string)
    requires CycleStep(cfg, t, c, t') && DisjointPools(c.pools) && p in c.pools
    ensures IdleKept(c.pools[p], t') == IdleKept(c.pools[p], t) - DrainedIn(c.drained, p)
    ensures DrainedIn(c.drained, p) <= IdleKept(c.pools[p], t)
    ensures |IdleKept(c.pools[p], t')| >= Min(Allowed(cfg, c.pools[p]), |IdleKept(c.pools[p], t)|)
  {
    hide IdleKept, Observed, Marked, Eligible, DrainedIn, Shortage, DisjointPools, Allowed;
    var obs :| CycleVia(cfg, t, c, obs, t');
    KeptAfter(cfg, t, c, obs, t', p);
    assert RightlyDrained(obs, cfg, p, c.pools[p], DrainedIn(c.drained, p));
    SubsetSize(Eligible(obs, cfg, p), IdleKept(c.pools[p], t));
  }

  // ---- Runs of cycles ----

  ghost predicate Run(cfg: Config, ts: seq<Tracked>, cs: seq<Cycle>) {
    && |ts| == |cs| + 1 && ts[0] == map[]
    && forall i :: 0 <= i < |cs| ==> DisjointPools(cs[i].pools) && CycleStep(cfg, ts[i], cs[i], ts[i + 1])
  }

  /** Some pool has the node and no allocation of that pool is on it. */
  ghost predicate IdleIn(c: Cycle, n: Id) {
    exists p :: p in c.pools && Unused(c.pools[p], n)
  }

  lemma IdleInIs(c: Cycle, n: Id)
    ensures IdleIn(c, n) <==> n in AllIdle(c.pools)
  {
    forall p | p in c.pools ensures n in Idle(c.pools[p]) <==> Unused(c.pools[p], n) {
      IdleIsUnused(c.pools[p], n);
    }
    hide Idle, Unused;
    if IdleIn(c, n) {
      var p :| p in c.pools && Unused(c.pools[p], n);
      assert n in Idle(c.pools[p]);
    }
  }

  predicate DrainedBy(c: Cycle, n: Id) {
    exists p :: p in c.drained && n in c.drained[p]
  }

  /** In how many consecutive cycles up to the last one the node was idle. */
  ghost function IdleRun(cs: seq<Cycle>, n: Id): nat {
    if cs == [] || !IdleIn(cs[|cs| - 1], n) then 0 else IdleRun(cs[..|cs| - 1], n) + 1
  }

  /** How often the node was drained in that run of idle cycles. */
  ghost function DrainsInRun(cs: seq<Cycle>, n: Id): nat {
    if cs == [] || !IdleIn(cs[|cs| - 1], n) then 0
    else DrainsInRun(cs[..|cs| - 1], n) + if DrainedBy(cs[|cs| - 1], n) then 1 else 0
  }

  /** The counter of a node is the length of its idle run, and it is marked iff drained in that run, once. */
  ghost predicate Faithful(t: Tracked, cs: seq<Cycle>, n: Id) {
    && (n in t <==> IdleRun(cs, n) > 0)
    && (n in t ==> t[n].seen == IdleRun(cs, n))
    && DrainsInRun(cs, n) == if n in t && t[n].collecting then 1 else 0
  }

  /** A drained node is an eligible one of the pool it is tracked under. */
  lemma DrainedAreEligible(cfg: Config, t: Tracked, c: Cycle, obs: Tracked, t': Tracked, n: Id)
    requires CycleVia(cfg, t, c, obs, t')
    ensures DrainedBy(c, n) <==> n in obs && n in DrainedIn(c.drained, obs[n].pool)
    ensures DrainedBy(c, n) ==> IsEligible(obs[n], cfg)
  {
  }

  /** What one cycle does to the entry of one node. */
  lemma CycleAt(cfg: Config, t: Tracked, c: Cycle, t': Tracked, n: Id)
    requires CycleStep(cfg, t, c, t')
    ensures n in t' <==> IdleIn(c, n)
    ensures n in t' ==> t'[n].seen == (if n in t then t[n].seen else 0) + 1
    ensures n in t' ==> t'[n].collecting == ((n in t && t[n].collecting) || DrainedBy(c, n))
    ensures DrainedBy(c, n) ==> n in t' && t'[n].seen >= cfg.ciclesToGc && !(n in t && t[n].collecting)
  {
    var obs :| CycleVia(cfg, t, c, obs, t');
    DrainedAreEligible(cfg, t, c, obs, t', n);
    IdleInIs(c, n);
    hide IdleIn, AllIdle, RightlyDrained, Shortage, DrainedIn, DrainedBy, Idle;
  }

  lemma CycleKeepsFaithful(cfg: Config, t: Tracked, c: Cycle, t': Tracked, cs: seq<Cycle>, n: Id)
    requires CycleStep(cfg, t, c, t') && Faithful(t, cs, n)
    ensures Faithful(t', cs + [c], n)
    ensures DrainedBy(c, n) ==> IdleRun(cs + [c], n) >= cfg.ciclesToGc && DrainsInRun(cs + [c], n) == 1
  {
    hide CycleStep, IdleIn, DrainedBy;
    CycleAt(cfg, t, c, t', n);
    assert (cs + [c])[..|cs|] == cs;
  }

  /**
   After every cycle of every run: the tracked nodes are exactly the idle ones, each counter is the length
   of the node's run of consecutive idle cycles, and no idle run sees two drains.
   */
  lemma {:induction false} EveryRun(cfg: Config, ts: seq<Tracked>, cs: seq<Cycle>, k: nat, n: Id)
    requires Run(cfg, ts, cs) && k < |ts|
    ensures Faithful(ts[k], cs[..k], n) && DrainsInRun(cs[..k], n) <= 1
    decreases k
  {
    hide CycleStep, DrainedBy, IdleIn, DisjointPools;
    if k > 0 {
      EveryRun(cfg, ts, cs, k - 1, n);
      CycleKeepsFaithful(cfg, ts[k - 1], cs[k - 1], ts[k - 1 + 1], cs[..k - 1], n);
      assert cs[..k] == cs[..k - 1] + [cs[k - 1]];
    }
  }

  /** A node is drained only after it has been idle for the configured number of consecutive cycles. */
  lemma DrainedOnlyWhenIdleLongEnough(cfg: Config, ts: seq<Tracked>, cs: seq<Cycle>, k: nat, n: Id)
    requires Run(cfg, ts, cs) && k < |cs| && DrainedBy(cs[k], n)
    ensures IdleRun(cs[..k + 1], n) >= cfg.ciclesToGc
  {
    hide CycleStep, DrainedBy, IdleIn, DisjointPools, Faithful, IdleRun, DrainsInRun;
    EveryRun(cfg, ts, cs, k, n);
    CycleKeepsFaithful(cfg, ts[k], cs[k], ts[k + 1], cs[..k], n);
    assert cs[..k + 1] == cs[..k] + [cs[k]];
  }

  /** The pool's nodes that have been unused for long enough without being drained. */
  ghost function Overdue(cfg: Config, cs: seq<Cycle>, pool: Snapshot): set<Id> {
    set n | n in pool.nodes && Unused(pool, n) && IdleRun(cs, n) >= cfg.ciclesToGc && DrainsInRun(cs, n) == 0
  }

  /** After a cycle the nodes still due are the eligible ones that were not drained in it. */
  lemma DueAreSpared(cfg: Config, t: Tracked, c: Cycle, obs: Tracked, t': Tracked, p: string, n: Id)
    requires CycleVia(cfg, t, c, obs, t') && DisjointPools(c.pools) && p in c.pools
    ensures n in Idle(c.pools[p]) && n in t' && t'[n].seen >= cfg.ciclesToGc && !t'[n].collecting
        <==> n in Eligible(obs, cfg, p) && n !in DrainedIn(c.drained, p)
  {
    TrackedUnderOwnPool(t, c.pools, obs, p);
    EligibleAreIdle(cfg, t, c.pools, obs, p);
    hide Idle, AllIdle, RightlyDrained, Shortage, DrainedIn;
  }

  lemma SparedCount(obs: Tracked, cfg: Config, p: string, pool: Snapshot, drained: set<Id>)
    requires RightlyDrained(obs, cfg, p, pool, drained)
    ensures |Eligible(obs, cfg, p) - drained| <= Max(0, Allowed(cfg, pool))
    ensures drained != {} ==> |Eligible(obs, cfg, p) - drained| == Max(0, Allowed(cfg, pool))
  {
    hide Eligible, Allowed;
    assert Eligible(obs, cfg, p) == (Eligible(obs, cfg, p) - drained) + drained;
  }

  /** What the configuration allows: nothing, or its expression over all nodes and the used ones. */
  ghost function FreeAllowance(cfg: Config, p: Snapshot): int {
    match cfg.allowance
    case None => 0
    case Some(f) => f(|p.nodes|, |p.nodes| - |UnusedNodes(p)|)
  }

  lemma AllowanceIs(cfg: Config, p: Snapshot)
    ensures HostedSnapshot(p) ==> Allowed(cfg, p) == FreeAllowance(cfg, p)
  {
    if HostedSnapshot(p) {
      IdleAreUnused(p);
      IdlePlusBusy(p);
    }
  }

  /**
   Nobody is forgotten: after every cycle of every run, of a pool's nodes that have been idle long enough without
   being drained no more are left than the allowance of free nodes, and exactly that many if any were drained.
   */
  lemma OverdueAreDrained(cfg: Config, ts: seq<Tracked>, cs: seq<Cycle>, k: nat, p: string)
    requires Run(cfg, ts, cs) && k < |cs| && p in cs[k].pools
    ensures |Overdue(cfg, cs[..k + 1], cs[k].pools[p])| <= Max(0, Allowed(cfg, cs[k].pools[p]))
    ensures DrainedIn(cs[k].drained, p) != {} ==>
              |Overdue(cfg, cs[..k + 1], cs[k].pools[p])| == Max(0, Allowed(cfg, cs[k].pools[p]))
    ensures HostedSnapshot(cs[k].pools[p]) ==>
              |Overdue(cfg, cs[..k + 1], cs[k].pools[p])| <= Max(0, FreeAllowance(cfg, cs[k].pools[p]))
  {
    hide DrainedBy, DisjointPools, Observed, Marked, Eligible, DrainedIn, Shortage, Allowed, Idle, RightlyDrained,
         IdleRun, DrainsInRun;
    var c, pool := cs[k], cs[k].pools[p];
    AllowanceIs(cfg, pool);
    assert CycleStep(cfg, ts[k], c, ts[k + 1]);
    var obs :| CycleVia(cfg, ts[k], c, obs, ts[k + 1]);
    var spared := Eligible(obs, cfg, p) - DrainedIn(c.drained, p);
    forall n ensures n in Overdue(cfg, cs[..k + 1], pool) <==> n in spared {
      EveryRun(cfg, ts, cs, k + 1, n);
      DueAreSpared(cfg, ts[k], c, obs, ts[k + 1], p, n);
      CycleAt(cfg, ts[k], c, ts[k + 1], n);
      IdleIsUnused(pool, n);
    }
    assert Overdue(cfg, cs[..k + 1], pool) == spared;
    assert RightlyDrained(obs, cfg, p, pool, DrainedIn(c.drained, p));
    SparedCount(obs, cfg, p, pool, DrainedIn(c.drained, p));
  }
}
