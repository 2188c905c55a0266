# Control loop of the on-demand Nomad scaler: model and proofs

The scaler watches Nomad evaluations. Per job it keeps a chain of evaluations whose head is blocked. When a
chain has settled it puts a scaling event into a cancellable queue, from which any number of scaling workers
take it. A worker estimates by bin packing how many nodes the unplaced copies need, hands the plan to a pool
and waits while real nodes and allocations arrive. A garbage collector later drains nodes that stay idle. A
Karpenter provider keeps the account of instances and of increments still being requested.

The model follows this division. Code that updates state in place is a class or a method with loops, proved
against functions on values; what goes on between goroutines is a transition system over those functions,
with properties of every run.

| file | models |
|---|---|
| `Ids.dfy`, `Cluster.dfy`, `Lists.dfy` | identifiers, nodes and allocations, subsequences and deletion by id |
| `WorkQueue.dfy` | the queue's sequence and index map (`queue.go`) |
| `QueuePump.dfy` | the hand-off between the pump and the consumers (`queue.go`) |
| `EvalChains.dfy` | the select loop and its settlement (`processEvals.go`) |
| `ChainLog.dfy` | the log of arrivals that a chain is measured against |
| `ScalingSystem.dfy` | select loop, queue, workers and done messages, interleaved |
| `Settlements.dfy` | what a settlement decides, and which contexts are cancelled |
| `BinPacking.dfy` | the estimate (`estimateRequiredNodes.go`) |
| `ScalingWorker.dfy` | one plan per pool for a scaling event (`scalingAction.go`) |
| `Pools.dfy` | a pool's nodes, allocations and reservations (`pool.go`) |
| `PoolHistory.dfy` | what a pool holds, told from the events it was offered |
| `Reservations.dfy` | Updates in flight, interleaved with events |
| `ReservedNodes.dfy` | when planned nodes and reserved nodes are the same |
| `Placement.dfy` | why an Update may stop waiting |
| `Publishing.dfy` | publish and subscribe under the pool's lock |
| `Routing.dfy` | events over all pools (`main.go`) |
| `Collector.dfy`, `CollectorRuns.dfy` | one cycle, and runs of cycles, of the garbage collector (`gcAction.go`) |
| `Karpenter.dfy`, `Reconciliation.dfy` | the provider, and provider and pool over time (`nodeprovider/karpenter.go`) |

## What is assumed

- An evaluation id determines namespace, job and CreateIndex for good; the status may change in any way.
- UUIDs and the random keys of increments are fresh.
- `Select` answers nothing exactly when no offered node takes one more copy, and otherwise a node that does.
  What fits is decided by cpu, memory and disk, and a task group asks for some cpu.
- An empty node of the pool takes one copy, unless the planned nodes already take all of them. This is exactly
  when the loop of the estimate ends (`BinPacking.EndsIff`).
- `tryNomadNode`, `tryNomadAllocation` and `UpdateNode` are single steps, although the code gives its locks
  back in between. The results on reservations (`Reservations`, `ReservedNodes`, `Placement`) do not rest on
  this: there an allocation is recorded in one step and uses up a reservation in another.
- Only one pool's provider lists an instance (with the `anynode` provider, which accepts everything, this
  needs a single pool), different nodes run on different instances, and an allocation keeps its node.
- The plugin returns at most as many new instances as it was asked for, and its other calls succeed in the end.

## Where the code does not keep what it says

- A comment in `processEvals.go` promises that the head of a chain is always blocked. Between two ticks it
  need not be: `ScalingSystem.HeadCanBeUnblocked` is a run and `EvalChains.HeadStaysBlockedIff` the exact
  condition. After every tick it holds (`EvalChains.EndTickSettles`).
- The loop of the estimate need not end: when an empty node takes no copy and the planned nodes do not take
  all of them, it goes on for ever (`BinPacking.NeverEnds`); `BinPacking.EndsIff` is the exact condition.
- `Enqueue` keeps index map and sequence in agreement exactly when the id is not queued
  (`WorkQueue.EnqueueCoherentIff`); its caller guarantees that (`ScalingSystem.EnqueueDemandMet`).
- An event whose chain is there can be running with a cancelled context, when the chain was emptied and opened
  again before the worker was done: `Settlements.LiveButCancelled` is a run, and `Settlements.CancelledIff` says
  exactly which contexts are cancelled.
- With several workers a plan may sit on a planned node of another Update, which takes that node away when it
  ends: `ReservedNodes.SecondWorkerCanDangle` is a run and `ReservedNodes.SelfContainedIff` the exact condition.

## Model

| member | source | states |
|---|---|---|
| WorkQueue.WithoutMeaning | queue.go:99-122 | removing an id from a queue of distinct ids takes away that id, leaves every other and keeps the ids distinct |
| WorkQueue.SliceDeletes | queue.go:113 | the deletion in place keeps the order: what came before stays, what came after moves down one place |
| WorkQueue.EnqueueCoherentIff | queue.go:50-56 | Enqueue keeps "live ids map to their positions, all other entries are tombstones" if and only if the id is not queued |
| WorkQueue.Queue.Enqueue | queue.go:50-62 | appends at the end, keeps map and sequence in agreement, leaves a wake-up token |
| WorkQueue.Queue.Round | queue.go:68-94 | one pass delivers exactly the head, or nothing from an empty queue; the tombstone branch is never taken |
| WorkQueue.Queue.Remove | queue.go:99-122 | answers true iff the id is queued, and then exactly its entry is gone |
| WorkQueue.Queue.ShiftDown | queue.go:74-78 | the re-indexing loop moves every position above the threshold down by one and touches nothing else |
| WorkQueue.DeletedCoherent | queue.go:104-119 | deleting an entry, burying its id and re-indexing the rest keeps map and sequence in agreement |
| QueuePump.EveryRun | queue.go:28-122 | every interleaving of pump, consumers and producers keeps: delivery in enqueue order, nothing delivered twice or after removal, items and calls add up, no lost wake-up |
| QueuePump.RemoveKeepsInv | queue.go:99-122 | a removal at any point of the hand-off, also of the item the pump is offering, keeps all of that |
| QueuePump.EveryTicketAccounted | queue.go:50-122 | each enqueued item is removed, or delivered or still queued, and never both |
| QueuePump.OnlyHeadsAreDelivered | queue.go:28-45 | a spurious token or a stale offer delivers nothing: only popping the queued head does, and never an item seen before |
| QueuePump.PopWithinBudget | queue.go:28-94 | with an item queued and a consumer waiting, every pop-free schedule is bounded by a fixed number of steps and can go on |
| QueuePump.NeverStuck | queue.go:28-94 | with an item queued and a consumer waiting, pump or consumer has an enabled step |
| QueuePump.RestsWithin | queue.go:28-94 | left to themselves, pump and consumers come to rest within a fixed number of steps, whatever the schedule |
| QueuePump.AtRest | queue.go:28-94 | at rest nothing is queued or nobody waits, and a sleeping pump has no token |
| EvalChains.ChainIdIsOneJob | processEvals.go:30 | as namespaces contain no slash, a chain id names one namespace and one job |
| EvalChains.TrimMeaning | processEvals.go:72-84 | trimming drops a prefix of evals that are not blocked, and empties the chain iff none of its evals is blocked |
| EvalChains.SettleKeepsSettlement | processEvals.go:71-169 | settling one chain, in any order, keeps: settled chains that stay have a blocked head and all their evals survive |
| EvalChains.SettleMeaning | processEvals.go:71-169 | settling a chain fires, withdraws or leaves its event, and drops or keeps it, by what is blocked, what is outstanding and what the cluster answers, and by nothing else |
| EvalChains.UnallocatedMeaning | processEvals.go:128-140 | the copies asked for are those of exactly the task groups that have queued copies, failed placement and suit some pool |
| EvalChains.SettleKeepsExactly | processEvals.go:98-100 | the evals that survive are exactly those of the settled chains |
| EvalChains.EndTickSettles | processEvals.go:171-174 | after a tick every lookup resolves, no chain is empty and every chain's head is blocked |
| EvalChains.HeadStaysBlockedIff | processEvals.go:19 | an arrival leaves a chain with a blocked head unless it is that head, no longer blocked |
| ScalingSystem.HeadCanBeUnblocked | processEvals.go:19 | a run from the start, of two arrivals, that leaves a chain whose head is not blocked, against the comment |
| EvalChains.SettleQueuedFired | processEvals.go:86-162 | a settlement step keeps every queued event recorded as fired |
| EvalChains.SettlesOneMore | processEvals.go:71-169 | settlements compose chain by chain: one more settled chain extends the order they were settled in |
| EvalChains.EvalProcessor.OnEval | processEvals.go:26-62 | the arrival branch with its membership scan, equal to the specification of an arrival |
| EvalChains.EvalProcessor.OnDone | processEvals.go:64-65 | a done message makes exactly this chain fireable again |
| EvalChains.EvalProcessor.FirstBlocked | processEvals.go:72-79 | the scan stops where what remains of the chain is the trimmed chain |
| EvalChains.EvalProcessor.CancelEvent | processEvals.go:86-96 | a queued event leaves queue and record; a running one has its context cancelled and stays recorded |
| EvalChains.EvalProcessor.FireEvent | processEvals.go:143-162 | a new event with a new context is queued last and recorded; nothing else changes |
| EvalChains.EvalProcessor.SettleChain | processEvals.go:71-169 | one pass of the settlement loop over queue, chains, fired events and surviving evals, equal to its specification |
| EvalChains.EvalProcessor.OnTimer | processEvals.go:67-175 | a whole tick is a settlement of every chain exactly once in some order, then the clean-up |
| ChainLog.RecordsMeaning | processEvals.go:30-48 | strict maxima of a log increase, come from the log, and the last one is the newest arrival |
| ChainLog.RecordsAppend | processEvals.go:40-46 | one more arrival extends the maxima iff it is newer than the last of them |
| ChainLog.LatestMeaning | processEvals.go:27 | the latest arrival of an eval in a log: it is one of its arrivals and none follows |
| ScalingSystem.EveryRun | processEvals.go:24-176 | every run, with any number of workers: lookups resolve, chains refine their logs, of each eval in a chain the latest arrival is stored, one event per chain, orphaned events are cancelled, the timer is armed exactly when a chain was touched or a tick is due |
| ScalingSystem.StepKeepsCurrent | processEvals.go:27 | every step keeps: of each eval in a chain the stored status is that of its latest arrival |
| ScalingSystem.StepKeepsTimer | processEvals.go:48-62 | every step keeps: the timer is armed exactly when a chain was opened or hit since the last tick, or a tick is due anyhow |
| Settlements.SettlementIs | processEvals.go:71-169 | in every reachable state: a chain fires, once and for exactly the waiting task groups and all their copies, iff the latest arrival of one of its evals was blocked, nothing is outstanding for the job, pools can host it and a task group waits; its event is withdrawn iff nothing is blocked; it is dropped iff nothing is blocked, or nothing is outstanding and nothing was fired; it is emptied iff nothing is blocked |
| Settlements.TickEndIs | processEvals.go:171-175 | a tick ends with exactly the dropped chains gone and exactly the evals of the settled chains left |
| Settlements.CancelledIff | processEvals.go:86-93 | in every run a context is cancelled exactly if some settlement found nothing blocked in the chain of its event, which was no longer queued |
| Settlements.LiveButCancelled | processEvals.go:51-58 | a run after which a chain is there and its running event is cancelled |
| ScalingSystem.OnePlace | processEvals.go:64-65 | a chain id is queued, running or pending as done once in all if it is recorded as fired, and not at all otherwise |
| ScalingSystem.EnqueueDemandMet | processEvals.go:102-104 | an event is queued only for a chain with nothing outstanding, so Enqueue's demand is met |
| ScalingSystem.ChainIncreases | processEvals.go:30-46 | a chain is strictly increasing in CreateIndex, all of one job, and ends with the newest arrival |
| ScalingSystem.ScanNeverMatters | processEvals.go:33-38 | an eval that is already in the chain would be refused by its CreateIndex anyway |
| ScalingSystem.ArrivalExtends | processEvals.go:30-48 | an arrival keeps the chain equal to the untrimmed part of the log's strict maxima |
| ScalingSystem.TrimRefines | processEvals.go:72-84 | trimming only moves the start of that part forward |
| ScalingSystem.HistoryMovesForward | processEvals.go:26-84 | between any two states of a run in which a chain was never dropped, its log only grew and its start only moved forward, and at both ends it is the untrimmed part of the log's maxima |
| ScalingSystem.StepKeepsOutstanding | scalingAction.go:22-74 | taking, finishing, reporting, firing and cancelling events move a chain's only event from place to place |
| ScalingSystem.StepKeepsCancelled | processEvals.go:86-96 | every step keeps: an event whose chain is gone is not queued and its context is cancelled |
| ScalingSystem.QueuedHeadsBlocked | processEvals.go:71-174 | after each tick the chain of every queued event exists and its head is blocked |
| ScalingSystem.OrphansAreCancelled | processEvals.go:90-92 | a worker busy with an event whose chain is gone runs a cancelled event |
| ScalingSystem.GivenUpHasNoEvent | processEvals.go:110-114 | a chain given up as infeasible or as having nothing unallocated has no event anywhere |
| BinPacking.CopiesMeaning | estimateRequiredNodes.go:60-72 | the copies a node takes: n of them fit iff their total size fits |
| BinPacking.FreeIsRest | estimateRequiredNodes.go:48-54 | what is free on a node and what its planned allocations ask for in all are together its capacity, in cpu, memory and disk |
| BinPacking.SlackZeroIff | estimateRequiredNodes.go:62-64 | nothing can be selected iff the slack of the offered nodes is zero |
| BinPacking.SlackPlaced | estimateRequiredNodes.go:74-113 | each placed copy takes exactly one unit of slack, on whichever fitting node |
| BinPacking.AssignmentBounded | estimateRequiredNodes.go:36-114 | no assignment to planned and new nodes that overcommits none places more than slack plus m times the copies of an empty node |
| BinPacking.NeededIsLeast | estimateRequiredNodes.go:36-114 | ceil(max(0, count - slack) / k) new nodes is the minimum over all assignments |
| BinPacking.OpeningCanBeUseless | estimateRequiredNodes.go:60-72 | when an empty node takes no copy, then however long the loop runs, copies placed plus slack stay what they were |
| BinPacking.NeverEnds | estimateRequiredNodes.go:60-72 | if moreover the planned nodes do not take all copies, there are runs of the loop of every length |
| BinPacking.EndsWithin | estimateRequiredNodes.go:60-114 | otherwise every run of the loop, whatever is selected, is bounded by the copies still to place |
| BinPacking.EndsIff | estimateRequiredNodes.go:60-114 | all runs of the loop are bounded if and only if an empty node takes a copy or the planned nodes take all of them |
| BinPacking.EstimateRequiredNodes | estimateRequiredNodes.go:36-116 | ends with exactly the asked copies, asks no node that carries one for more in all than its cpu, memory and disk, uses every new node, and opens exactly the minimum number |
| ScalingWorker.SoundExtends | scalingAction.go:48-52 | a further estimate on top of a sound plan gives a sound plan |
| ScalingWorker.SoundIsClosed | estimateRequiredNodes.go:64-113 | with nothing planned before, a plan's nodes are exactly the nodes its copies sit on |
| ScalingWorker.FindGroup | scalingAction.go:29-35 | finds the task group by name when there is one |
| ScalingWorker.PlanEvent | scalingAction.go:26-53 | for every pool touched a sound plan; for every task group exactly the demanded copies in its pool and nowhere else; each plan is one estimate per demand, each opening the minimum of nodes on top of the earlier ones |
| ScalingWorker.SingleDemandIsMinimal | scalingAction.go:48-52 | a pool that one task group of the event wants gets exactly the nodes its copies need beyond what is planned |
| Pools.EventsKeepHosted | pool.go:119-272 | node and allocation events keep every allocation on a node of its pool |
| Pools.UnmatchedHosts | pool.go:213-227 | the search loop's set of needed nodes is the nodes of all reservations but the one used up |
| Pools.ConsumeMeaning | pool.go:209-252 | the oldest reservation of the task group is used up and published, the first planned node that carries none of the others goes, and nothing else changes |
| Pools.OnlyNewUseUp | pool.go:190-209 | only a wanted allocation that was not there before uses up a reservation |
| PoolHistory.NodesAre | pool.go:119-180 | after any events the nodes of a pool are exactly those reported up with the provider's word and not down since |
| PoolHistory.InstancesAre | pool.go:129 | a node is recorded with the instance of its latest event, which was up |
| PoolHistory.AllocsAre | pool.go:158-269 | after any events the allocations of a pool are exactly those reported wanted on a node then in the pool, with no later report and the node not down since |
| Pools.Pool.TryNomadNode | pool.go:119-180 | accepts a known node or one the provider owns; an up event records it, a down event takes it and all its allocations away |
| Pools.Pool.TryNomadAllocation | pool.go:185-269 | a new wanted allocation uses up the first reservation of its task group and drops the first node without reservations; the used one is published |
| Pools.Pool.StartUpdate | pool.go:281-316 | the plan is appended to both lists, or taken back when the provider refuses; the wait count |
| Pools.Pool.Cleanup | pool.go:374-391 | takes the first record of each planned id out of both lists |
| Reservations.EveryRun | pool.go:185-394 | with every critical section a step of its own, each reservation list is a subsequence of what the Updates in flight added; both are empty with none in flight and throughout a RemoveNode; allocations sit on nodes of the pool if none was recorded after its node had gone |
| Reservations.FailureRestores | pool.go:293-316 | a refused Update leaves the pool exactly as it was, whatever else is in flight |
| Reservations.RollbackRestores | pool.go:281-311 | appending records with new ids and deleting them one by one restores the list |
| Reservations.LedgerRetires | pool.go:374-391 | the clean-up of one Update leaves only records of the others, in order |
| Reservations.AllocIsTwoSteps | pool.go:190-252 | recording an allocation and using up a reservation one right after the other are the whole event |
| ReservedNodes.ConsumeKeepsClosed | pool.go:209-237 | an allocation uses up at most one reservation, and the only node dropped is the one that lost its last |
| ReservedNodes.BorrowedNodeBreaks | pool.go:384-391 | a copy on a node of an earlier Update dangles as soon as that Update ends |
| ReservedNodes.EverySelfContainedRun | pool.go:209-391 | with any number of workers whose plans use their own nodes, planned nodes are exactly reserved nodes in every reachable state |
| ReservedNodes.EverySoloRun | pool.go:209-391 | with one worker, planned nodes are exactly reserved nodes in every reachable state |
| ReservedNodes.EndKeepsClosed | pool.go:372-391 | among Updates whose plans use their own nodes, the end of any one leaves planned and reserved nodes the same |
| ReservedNodes.Retired | pool.go:374-391 | the end of an Update takes exactly its own records out of a list |
| ReservedNodes.SelfContainedIff | pool.go:274-391 | for any plan, also one computed before the pool changed: planned and reserved nodes stay the same when its Update starts and whichever earlier Update ends next, iff its copies sit on all its own nodes and on no others |
| ReservedNodes.SecondWorkerCanDangle | pool.go:384-391 | a run of two soundly planned Updates that ends with a reservation on a node that is gone |
| Placement.WaitForAllocs | pool.go:336-367 | the wait ends for "all placed" exactly when every planned allocation was announced |
| Placement.AnnouncedOnce | pool.go:209-252 | while an Update is in flight none of its reservations is announced twice, and an announced one is gone from the list |
| Placement.AnnouncedIff | pool.go:209-252 | from the start of an Update to its end, a reservation of its own has been announced exactly if it is not reserved any more |
| Placement.AllPlacedLeavesNothing | pool.go:358-382 | an Update that ends with all placed finds no reservation of its own left to take back |
| Publishing.EveryRun | pool.go:139-252 | in every run each list holds open subscriptions, none twice |
| Publishing.NobodyIsLost | pool.go:139-153 | in every run whoever has not closed its monitor of a topic is still subscribed to it, and a consumer channel is closed only after its monitor |
| Publishing.ClosedAtMostOnce | pool.go:143-148 | a consumer channel that is closed was open |
| Publishing.PublisherNeverStuck | pool.go:142-149 | a publisher holding the lock has an enabled step, or the subscriber it faces has one without the lock |
| Publishing.RoundsEnd | pool.go:139-252 | whatever the schedule, a publishing round ends within a fixed number of steps of everybody |
| Routing.OneAccepts | main.go:15-33 | at most one pool accepts an event |
| Routing.RoutedTo | main.go:15-33 | the first pool found to accept an event, in any order, gives the same result as asking all |
| Routing.EveryRun | main.go:15-33 | after any events, node sets and allocation sets of the pools are pairwise disjoint and allocations are on their pool's nodes |
| Routing.SnapshotsAreSound | gcAction.go:30-46 | so what the collector reads are disjoint pools whose allocations sit on their nodes |
| Routing.FleetIs | main.go:15-33 | after any events each pool holds exactly the nodes and allocations that its own history of events says |
| Routing.Offer | main.go:16-21 | the loop over the pools, in arbitrary order, does to the fleet what the order-free specification says |
| Routing.ProcessEvents | main.go:15-33 | the whole loop over a stream of events, likewise |
| Collector.CountAllocs | gcAction.go:31-44 | counts every node of the pool, and as unused exactly those no allocation names |
| Collector.GarbageCollector.ObserveCounted | gcAction.go:48-63 | idle nodes are counted once more, busy ones are not, and the busy count |
| Collector.GarbageCollector.Forget | gcAction.go:81-91 | exactly the nodes not idle in this cycle are forgotten |
| Collector.GarbageCollector.DrainIdle | gcAction.go:96-114 | whatever the order, each pool's allowance spares as many eligible nodes as it can and the rest are drained and marked |
| Collector.BalanceVisits | gcAction.go:97-112 | visiting one more eligible node keeps the balance of spared and drained nodes |
| Collector.BalanceEnds | gcAction.go:96-114 | per pool, drained = max(0, eligible - max(0, allowed)) |
| Collector.GarbageCollector.RunCycle | gcAction.go:24-114 | one cycle: counters, warm-ups and drains of all pools, independent of the order of both maps |
| CollectorRuns.NeverGrowsAndShrinks | gcAction.go:65-114 | a pool that is warmed up in a cycle loses no node in it, as its allocations sit on its nodes |
| CollectorRuns.WarmUpTopsUp | gcAction.go:65-77 | a warm-up starts iff a pool has fewer unused nodes than the expression allows for its total and used nodes, and asks for just the difference |
| CollectorRuns.HotPoolFloor | gcAction.go:96-114 | with disjoint pools, after a cycle at least min(allowed, their number before) idle nodes are not draining, and only drained ones were lost |
| CollectorRuns.CycleAt | gcAction.go:48-114 | what one cycle does to the entry of any one node |
| CollectorRuns.EveryRun | gcAction.go:48-112 | in every run a counter is the length of the node's current idle run, tracked nodes are the idle ones, at most one drain per idle run |
| CollectorRuns.DrainedOnlyWhenIdleLongEnough | gcAction.go:97 | a drained node has been idle for at least the configured number of consecutive cycles |
| CollectorRuns.OverdueAreDrained | gcAction.go:96-114 | after every cycle of every run, the nodes idle for the configured number of cycles and not drained number at most the allowance of free nodes, and exactly that many if any were drained |
| Karpenter.WrapNests | nodeprovider/karpenter.go:263-268 | 32-bit sums and differences wrap the same at every step or once |
| Karpenter.SumTakes | nodeprovider/karpenter.go:263-266 | the sum of the increments does not depend on the order of the map |
| Karpenter.IncrementIs | nodeprovider/karpenter.go:263-268 | the increment is what the requested total lacks, and with it the total is met |
| Karpenter.K8sKarpenterProvider.constructor | nodeprovider/karpenter.go:97-147 | every listed instance is known and unseen, no increments |
| Karpenter.K8sKarpenterProvider.IsNodeExists | nodeprovider/karpenter.go:149-190 | known afterwards is the new listing, if the node registered after the last one, else what was known; seen are those seen before and the asked one; the answer says whether it is known |
| Karpenter.LookedMeaning | nodeprovider/karpenter.go:149-190 | the same for the function that the runs are built from |
| Karpenter.K8sKarpenterProvider.RemoveInstances | nodeprovider/karpenter.go:192-217 | the batches of at most 20 are together exactly the given instances, which are forgotten |
| Karpenter.K8sKarpenterProvider.FindVanished | nodeprovider/karpenter.go:236-249 | exactly the seen instances that back no node of the pool, each once |
| Karpenter.K8sKarpenterProvider.SumIncrements | nodeprovider/karpenter.go:263-266 | the loop's 32-bit total is the total of all increments in flight, wrapped |
| Karpenter.K8sKarpenterProvider.UpdateNode | nodeprovider/karpenter.go:231-305 | every instance still counted as seen backs a node, all unseen and all backing ones are still there unchanged, exactly the others are removed; on success instances plus increments are the requested total; refused iff there is more than requested, and then the increments are untouched |
| Karpenter.RetryAdd | nodeprovider/karpenter.go:274-294 | the instances added are those of the answers taken, never more than the increment; it is fulfilled iff they are the increment, cancelled only at an answer with the context done, and no earlier answer ended it |
| Karpenter.K8sKarpenterProvider.ForgetIncrement | nodeprovider/karpenter.go:295-299 | when the retry goroutine ends, the total that a later request still counts as in flight falls by exactly its increment |
| Reconciliation.EveryRun | pool.go:119-180 | in every run the latest event of a node in the pool was up, and a seen instance backs a node of the pool or its node's latest event was down |
| Reconciliation.ReconcileIsSafe | nodeprovider/karpenter.go:236-258 | only instances that were seen and whose node's latest event was down are removed, never one of a node in the pool |
| Reconciliation.ReconcileIsComplete | nodeprovider/karpenter.go:236-258 | after the removal the seen instances are exactly those seen before that back a node of the pool, and the unseen ones stay |
| Reconciliation.KnownIff | nodeprovider/karpenter.go:157-217 | in every run the known instances are those of the start or of a later listing that nothing has taken away since |
| Reconciliation.SeenIff | nodeprovider/karpenter.go:173-186 | in every run the seen instances are exactly those asked about while known that nothing has taken away since |
| Reconciliation.JoinsIff | pool.go:119-180 | a node event leaves its node in the pool iff it is up and the node or its instance was known |
| Reconciliation.SeenFlagsSurvive | nodeprovider/karpenter.go:173-186 | over any stretch of a run an instance stays seen as long as every refresh lists it and nobody removes it, and it becomes seen only when it is asked about |

## Left out

- Nomad, AWS, gRPC and plugin calls, event streams, stale-read retries, configuration, telemetry and state dumps: input and output. A call that is retried until it succeeds is one step.
- Internals of Nomad's scheduler: `Select` is a contract, and feasibility and the choice of a pool (`poolnodespec.go`) are an answer that each settlement is given.
- `nodeprovider/awsautoscalegroupv2.go`: its refresh and removal repeat those of the Karpenter provider, the rest is polling.
- Real time: a timer is armed or not, a context cancelled or not. A tick that is already waiting in the channel when the timer is reset is the `rearmed` flag.
- Liveness beyond the pump and the publisher: WarmUp, provider retries, and firing again after a done message, which does not arm the timer.
- The moments at which `tryNomadNode`, `tryNomadAllocation`, `IsNodeExists` and `UpdateNode` give their lock back in mid-call: each is one step in `Routing`, `Reconciliation` and the classes. `Reservations` and what builds on it has the critical sections of `tryNomadAllocation` as separate steps.
- A job without any eval: the code then reads a nil pointer (`processEvals.go:120-128`); the model's survey always has an answer.
- Which worker runs which event: workers are not told apart. The same holds for the consumers of the queue.
- WarmUp as another reader of `updrmvlock`: it only delays RemoveNode. It is modelled as a subscriber in `Publishing`.
- Errors of the drain call, which the collector only logs, and the removal of drained nodes at the provider after each cycle, which is a step of `Reconciliation`.
- Karpenter.RetryAdd: does not lower the recorded increment while instances arrive, as the code does not either, so a later request can be refused until the goroutine ends.
- WorkQueue.Queue.Remove: says nothing about tombstones being reclaimed; the code keeps them until the id is queued and delivered again.
