# GPU scheduler: admission engine and accelerator simulator

A Dafny model of the admission engine of a Kubernetes GPU scheduler and of the accelerator simulator it
drives, with proofs about it. `dafny verify dfyconfig.toml` checks everything.

The model follows the system's own division:

- **Admission policy** (`Checks`, `Preemption`, `TieBreak`, `RoundRobin`, `Selection`). Queued workloads are sorted by
  priority and queue time, interleaved across tenants by weighted round-robin, and scanned twice: first
  for one that fits free capacity, then for one that evictions can admit. Two victim selectors exist, a
  baseline and a greedy one.
- **Batch loop and snapshot** (`Inputs`, `Batch`). One cycle validates a snapshot once and then admits
  several workloads, each on a virtually updated copy that is never validated again.
- **In-memory index** (`Index`, `Watch`, `Cycle`). Three phase buckets per namespace fed by watch events,
  compared with one plain map from workload to last observed phase; and a whole cycle from events to batch.
- **Phase protocol** (`PhaseProtocol`). The API server is a log of object versions. One scheduler loop and
  any number of reconcilers read any past version and write only if the version they hold is current. Users
  create, change and delete; an object without a finalizer disappears at once.
- **Simulator** (`Placement`, `DeviceNames`, `AcceleratorSim`, `Accounting`, `Capacity`, `Timing`,
  `Duration`, `Calibration`, `RuntimeInputs`). Pools, nodes and devices; four placement policies;
  allocations; runs with lazy completion; usage counters; run duration, as laws and in numbers.
- **Actuation** (`Actuation`, `Races`, `Lifecycle`, `Delivery`). Allocating and starting an admitted workload under
  failing writes and interleaved attempts, clearing evicted ones, what a phase says about the simulator, and
  whether what the scheduler sees fit can be allocated.

Code that loops or mutates is modelled as methods and classes, each proved against a function or a
predicate on values; the results about whole runs are lemmas about those. `Sequences` holds the shared
sums, the exchange argument, and stable sorting.

Modelling conventions: time is an integer; Go map iteration is an arbitrary choice at every step; errors
are constructors rather than texts; integers are unbounded; the set of profiles the simulator knows is a
parameter; failures of the API server are parameters, attempt by attempt.

## Where the code and its documentation differ

The model follows the code.

- README.md:16 says preemption evicts lower-priority workloads. The candidate filter looks at the profile
  only. `Preemption.HigherPriorityVictim` exhibits a victim that outranks the incoming workload, and
  `Preemption.VictimsRankBelowIff` gives the exact condition, readable from the snapshot, under which all
  victims do rank below it.
- README.md:16 says victims are re-queued. The code leaves them in phase Preempted, which
  `PhaseProtocol.PhaseNeverFalls` shows is never left. The same lemma shows that Succeeded and Failed can
  only give way to Preempted; `PhaseProtocol.SucceededThenPreempted` is an interleaving in which they do, and
  `PhaseProtocol.StaysFinishedIff` says for which interleavings: those in which the loop evicts a version it
  read after the finish.
- internal/scheduler/preemption.go:110-112 says ties in size go to the lower priority. The comparator does
  not look at priority: `TieBreak.LowestPrioritySpared` evicts two workloads and spares one of lower
  priority, and `TieBreak.TieBreakIff` says for which candidates the selector keeps the documented rule,
  whatever the shortfall: where, at each ceiling it may stop at, every pair of one size that it would take in
  the wrong order comes too late to be split, because the workloads below the ceiling already free as much.
- The comment on the simulator's Preempt says the devices become available. They do so at Release:
  `AcceleratorSim.PreemptStopsWorkload` states that allocations are unchanged.
- Per-pool counting goes by the shape of device identifiers. `DeviceNames.CountsForIff` says exactly which
  pools a device counts for: its own, those whose key is a path prefix of its key, and those whose key is
  spelled like its node. `Accounting.TrustedIff` lifts this to sets of keys, `DeviceNames.KeysConfused` gives
  keys of both kinds. Keys of the form namespace/name, and the default key, are never confused.
- Deleting a pool with allocated devices makes the per-pool counts fall short of the fleet's
  (`Capacity.DeleteBreaksCounts`), and shrinking one can make its available count negative
  (`Capacity.ShrinkGoesNegative`). `Accounting.SumsAgreeIff` and `Accounting.AvailableIs` say exactly when,
  `Accounting.OwnersStayRegisteredIff` and `Accounting.StaleAfter` which operations bring it about.
- An allocation is meant to be refused to a workload that has one. That check is made before the lock, so
  overlapping attempts can each be given one; `Races.OneWinnerIff` says for which interleavings.
- An evicted workload can be revived by a reconciler that still holds its Scheduled version. It is then
  Preempted with devices and a run (`Lifecycle.PreemptedYetRunning`). The next reconcile releases the devices,
  but the run goes on (`Lifecycle.TidyKeepsRunning`). `Lifecycle.StaysClearedIff` gives the exact condition in
  terms of what the reconciler holds and how many eligible devices are free when it acts, and
  `Lifecycle.AlwaysClearedIff` lifts it to schedules.
- The scheduler files pools under their normalized profile, the simulator compares profiles letter by letter.
  A pool spelled with a capital or a space counts as capacity that no admission can use
  (`Delivery.MisspelledPool`). `Delivery.DeliveredIff` says when an admission is delivered, and
  `Delivery.FitsIffDelivered` that the scheduler's checks are exact where spelling and device memory agree.
- One device memory per profile is expected of pools (scheduler_loop.go:722-729). With two, an admission that
  fits can end the batch (`Batch.MixedMemoryStops`); with one, none does (`Batch.OneMemoryMatches`,
  `Batch.FailsExactlyAfterEviction`).
- The index is right for exactly those event traces that never move a workload backwards
  (`Index.IndexCorrectIff`); `Index.BackwardEventFilesTwice` shows what a backward event does, and
  `Watch.IndexFollowsProtocolIff` that a watch delivers one only for an object recreated unnoticed, which
  `Watch.RecreatedUnnoticed` shows in a run of the protocol.
- The schema admits a memory demand of zero, validation does not: one such workload keeps its whole
  namespace from being scheduled (`Cycle.ZeroMemoryBlocks`).

## Model

| member | source | states |
|---|---|---|
| `Checks.TenantGPUsUsed` | internal/scheduler/fairness.go:4-15 | the usage map holds, for every tenant, the sum of its GPUs over the committed workloads |
| `Preemption.BuildPreemptionContext` | internal/scheduler/preemption.go:14-61 | the shortfall, the error or the fit, with the same-profile candidates in stable victim order |
| `Preemption.ContextRanked` | internal/scheduler/preemption.go:39-61 | the candidates are the running workloads of the profile, lower priority first and, within a priority, the later started first |
| `Preemption.ShortfallFacts` | internal/scheduler/preemption.go:18-37 | a shortfall is positive, equals demand minus free devices, and only arises when a device has enough memory |
| `Preemption.GreedyPickVictimsByGPUCount` | internal/scheduler/preemption.go:156-180 | the shortest largest-first prefix that frees enough; none only if no subset at all could; no larger workload, nor a later started one of the same size, is passed over |
| `Preemption.GreedyPickIsSmallest` | internal/scheduler/preemption.go:156-180 | no sufficient subset of the pool has fewer members than the pick |
| `Preemption.GreedyPickIsIrredundant` | internal/scheduler/preemption.go:156-180 | dropping any one victim makes the pick insufficient |
| `Preemption.CeilingUnique` | internal/scheduler/preemption.go:126-147 | at most one priority is the lowest under which enough can be freed |
| `Preemption.EvictLowestBands` | internal/scheduler/preemption.go:126-147 | widening by priority band finds the greedy choice at the ceiling, and fails only if nothing can free enough |
| `Preemption.GreedyIsOptimal` | internal/scheduler/preemption.go:113-180 | two-stage optimality: lowest possible priority ceiling, fewest victims under it, none superfluous |
| `Preemption.SelectPreemptionVictimsGreedyMinimal` | internal/scheduler/preemption.go:113-154 | the greedy answer in every case, errors with their figures included; a non-empty answer is an optimal eviction among the running workloads |
| `Preemption.GreedyAnswerUnique` | internal/scheduler/preemption.go:113-154 | that answer is determined by the inputs |
| `Preemption.GreedyAnswerOptimal` | internal/scheduler/preemption.go:113-154 | every non-empty greedy answer is two-stage optimal over the running workloads of the profile |
| `Preemption.GreedyAnswerTakesLargest` | internal/scheduler/preemption.go:113-180 | within the ceiling victims go by falling size and, within a size, by falling start time, passing none over |
| `Preemption.SelectPreemptionVictims` | internal/scheduler/preemption.go:74-99 | the baseline answer: shortest prefix in victim order, or no prefix suffices |
| `Preemption.BaselineCeiling` | internal/scheduler/preemption.go:74-99 | the highest priority the baseline evicts is exactly the greedy ceiling |
| `Preemption.GreedyAgainstBaseline` | internal/scheduler/preemption.go:74-154 | both selectors fail on the same inputs with the same error, greedy never evicts more, and both reach the same highest priority |
| `Preemption.VictimsRankBelowIff` | internal/scheduler/preemption.go:39-45 | all victims rank below the incoming workload if and only if lower-ranking same-profile GPUs plus free ones cover it |
| `Preemption.HigherPriorityVictim` | internal/scheduler/preemption.go:39-45 | a running workload of higher priority is evicted when it is the only candidate |
| `Preemption.TakeUntil` | internal/scheduler/preemption.go:84-98 | the shortest prefix that frees enough, or none and the total |
| `TieBreak.TieBreakIff` | internal/scheduler/preemption.go:110-154 | for every shortfall the selector prefers lower priority among equal sizes, if and only if at every ceiling each pair of one size in the wrong order is covered: what precedes its second member frees no more than the workloads under the ceiling |
| `TieBreak.PickTieBreakIff` | internal/scheduler/preemption.go:156-180 | the pick from one fixed pool does so for every shortfall if and only if the later started of two equal sizes never ranks higher |
| `TieBreak.LowestPrioritySpared` | internal/scheduler/preemption.go:156-180 | of three workloads of one size the selector evicts the two of higher priority and spares the lowest |
| `RoundRobin.OrderQueued` | internal/scheduler/ordering.go:10-22 | a permutation in which priority never rises and, within a priority, queue time never falls; workloads equal in both keep their order |
| `RoundRobin.OrderQueuedUnique` | internal/scheduler/ordering.go:10-22 | no other sequence has these properties |
| `RoundRobin.SplitByTenant` | internal/scheduler/fairness_wrr.go:24-45 | queues and first-appearance order of the tenants, and for each the weight of its quota, or 1 without a positive one |
| `RoundRobin.ServeRound` | internal/scheduler/fairness_wrr.go:50-66 | one pass serves each tenant its share, leaves the rest waiting, and reports progress exactly if something was served |
| `RoundRobin.WeightedRoundRobinByTenant` | internal/scheduler/fairness_wrr.go:19-72 | each tenant keeps its order; the output falls into rounds, in each of which every tenant gets as many places as its quota weight or has items left, tenants in order of first appearance; and every prefix is proportional to the weights |
| `RoundRobin.RoundsDetermine` | internal/scheduler/fairness_wrr.go:47-71 | there is only one output that keeps every tenant's order and falls into such rounds |
| `RoundRobin.FairPermutes` | internal/scheduler/fairness_wrr.go:19-72 | the output is a permutation of the input |
| `RoundRobin.FairKeepsTenantOrder` | internal/scheduler/fairness_wrr.go:19-72 | each tenant's own order is untouched |
| `RoundRobin.FairStartsWithFirst` | internal/scheduler/fairness_wrr.go:19-72 | the globally first workload stays first |
| `RoundRobin.PrefixFairness` | internal/scheduler/fairness_wrr.go:19-72 | in every prefix, while tenant b waits, places of a times the weight of b are at most places of b times the weight of a, plus the product of the weights; weights are those of the quotas, or 1 |
| `RoundRobin.EmptyRoundMeansDone` | internal/scheduler/fairness_wrr.go:67-70 | the no-progress exit is taken only when everything has been served |
| `Selection.AdmissibleIff` | internal/scheduler/selection.go:33-77 | the two passes together cover exactly the admissible workloads, and never overlap |
| `Selection.FairWithinTenant` | internal/scheduler/selection.go:30-31 | in fair order each tenant's workloads come by falling priority and, within a priority, by arrival |
| `Selection.FirstThatFits` | internal/scheduler/selection.go:33-52 | the first workload in fair order that is within cap and fits free capacity |
| `Selection.FirstToPreempt` | internal/scheduler/selection.go:54-74 | the first one evictions can admit, with the greedy victims |
| `Selection.SelectOneForAdmission` | internal/scheduler/selection.go:24-91 | selects if and only if something queued is admissible, first in fair order for its pass, evicting only if nothing fits; of the tenant's workloads eligible the same way none of higher priority, nor one of equal priority queued earlier, is passed over; the reason is quota exactly if for every queued workload of a non-empty queue scheduled plus running plus demanded GPUs exceed the cap |
| `Inputs.ValidateQueued` | internal/scheduler/inputs.go:123-153 | accepts exactly well-formed, fresh workloads; otherwise the first bad position |
| `Inputs.ValidateCommitted` | internal/scheduler/inputs.go:155-222 | the same for scheduled and running workloads |
| `Inputs.ValidateFleet` | internal/scheduler/inputs.go:224-258 | accepts exactly fleets with non-negative capacities and totals equal to the per-profile sums |
| `Inputs.ValidateQuotas` | internal/scheduler/inputs.go:259-272 | accepts exactly quotas with named tenants and no negative field |
| `Inputs.Validate` | internal/scheduler/inputs.go:120-274 | accepts exactly the valid snapshots, whose fields it bounds one by one; otherwise names the first problem, with everything before it in order |
| `Inputs.ApplyVirtualAdmission` | internal/scheduler/inputs.go:282-324 | succeeds exactly if devices and memory of the profile cover the demand; then the workload leaves the queue, runs with the same fields from now on, and exactly its demand leaves the free capacity |
| `Inputs.AdmissionMovesOneID` | internal/scheduler/inputs.go:284-305 | the identifiers stay the same, each in one list, with one fewer queued |
| `Inputs.AdmissionKeepsFleetOk` | internal/scheduler/inputs.go:306-322 | totals still equal sums and nothing turns negative |
| `Inputs.AdmissionKeepsValid` | internal/scheduler/inputs.go:282-324 | virtual admission maps valid snapshots to valid snapshots and removes exactly the admitted workload from the queue |
| `Inputs.QueuedWorkloadByID` | internal/scheduler/inputs.go:327-334 | found if and only if the identifier is queued, and then the workload of that identifier |
| `Inputs.AggregateFleetFromPools` | internal/controller/scheduler_loop.go:730-753 | per normalized profile the fleet is the sum of its pools, and totals are the sums of profiles |
| `Workloads.NormalizedIs` | internal/controller/scheduler_loop.go:736 | a profile key has no capital, is its own key, and is empty exactly for blank text |
| `Inputs.AggregateIsValid` | internal/controller/scheduler_loop.go:730-753 | pools with non-negative availability and positive device memory aggregate to a fleet Validate accepts |
| `Batch.JustifiedIsSound` | internal/controller/scheduler_loop.go:302-327 | every admission is queued, within cap, covered by free plus evicted GPUs, and evicts exactly when free GPUs do not cover it |
| `Batch.BatchStaysValid` | internal/controller/scheduler_loop.go:302-345 | every snapshot of a batch stays valid over the same identifiers, one fewer queued each time |
| `Batch.BatchAdmitsDistinct` | internal/controller/scheduler_loop.go:302-345 | admissions are distinct and at most as many as were queued |
| `Batch.OnlyLastPreempts` | internal/controller/scheduler_loop.go:312-345 | only the last admission can evict, since virtual admission after it must fail |
| `Batch.BatchConservesCapacity` | internal/controller/scheduler_loop.go:302-345 | on every profile, GPUs admitted in the whole batch are at most those free at the start plus those of the victims |
| `Batch.BatchRespectsCap` | internal/controller/scheduler_loop.go:302-345 | for a capped tenant, GPUs scheduled plus running plus admitted so far stay within the cap after every admission, and a tenant above its cap is admitted nothing |
| `Batch.FailsExactlyAfterEviction` | internal/scheduler/inputs.go:311-322 | where free memory is that of the free devices, virtual admission fails if and only if the admission evicted |
| `Batch.OneMemoryMatches` | internal/controller/scheduler_loop.go:722-753 | where every profile has one device memory, the aggregated fleet's free memory is that of its free devices |
| `Batch.MixedMemoryStops` | internal/controller/scheduler_loop.go:722-753 | two pools of one profile with different device memory: an admission that fits and evicts nothing ends the batch |
| `Batch.DecideOne` | internal/controller/scheduler_loop.go:303-327 | a decision the policy justifies, or none because nothing is admissible or the environment failed |
| `Batch.TakeTurn` | internal/controller/scheduler_loop.go:302-345 | one turn keeps the batch invariant or states why the batch ends |
| `Batch.RunBatch` | internal/controller/scheduler_loop.go:302-345 | the loop yields a batch run within the limit that conserves capacity, and stops short of the limit only for the stated causes |
| `Index.EventKeepsAgreementIff` | internal/controller/scheduler_loop.go:607-659 | an index that agrees with the plain map still agrees after an event if and only if the event is forward |
| `Index.EventKeepsShape` | internal/controller/scheduler_loop.go:58-124 | no event, forward or not, leaves an empty inner map or a misfiled entry |
| `Index.IndexCorrectIff` | internal/controller/scheduler_loop.go:607-659 | the three buckets equal the plain map at every event boundary if and only if the trace is forward |
| `Index.NeverInTwoBuckets` | internal/controller/scheduler_loop.go:58-124 | at every lock boundary no workload is in two buckets and no inner map is empty |
| `Index.BackwardEventFilesTwice` | internal/controller/scheduler_loop.go:58-65 | a Queued event after a Scheduled one leaves the workload in two buckets |
| `Index.AdvancingIsForward` | internal/controller/scheduler_loop.go:607-659 | traces whose phases never fall in rank between removals are forward |
| `Index.EntryStems` | internal/controller/conversion.go:33-70 | what is last seen of a workload repeats its latest event field by field |
| `Index.SchedulerState.constructor` | internal/controller/scheduler_loop.go:44-52 | starts as the index of the empty trace |
| `Index.SchedulerState.UpsertQueued` | internal/controller/scheduler_loop.go:58-65 | the new index value, all three buckets |
| `Index.SchedulerState.RemoveWorkload` | internal/controller/scheduler_loop.go:67-88 | the new index value, emptied inner maps dropped |
| `Index.SchedulerState.UpsertScheduled` | internal/controller/scheduler_loop.go:90-103 | the new index value, the queued entry dropped |
| `Index.SchedulerState.UpsertRunning` | internal/controller/scheduler_loop.go:105-124 | the new index value, the other two entries dropped |
| `Index.SchedulerState.ApplyWorkloadToState` | internal/controller/scheduler_loop.go:607-659 | one event takes the object exactly to the specified index value |
| `Index.SchedulerState.SnapshotForNamespace` | internal/controller/scheduler_loop.go:184-214 | copies out exactly the namespace's entries in any order; an identifier occurs twice if and only if a workload is in two buckets |
| `Cycle.SnapshotValidIff` | internal/controller/scheduler_loop.go:280-297 | a snapshot is valid if and only if no workload of the namespace is in two buckets and all entries, fleet and quotas are well-formed |
| `Cycle.ForwardIndex` | internal/controller/scheduler_loop.go:280-297 | after a forward trace no workload is in two buckets, and entries are well-formed if and only if what was last seen is |
| `Cycle.RunCycle` | internal/controller/scheduler_loop.go:280-345 | from any watch events to batch: exactly when the cycle ends without a batch and when it runs one, which conserves capacity; after a forward trace, in terms of what was last seen |
| `Cycle.AdmissionsWereQueued` | internal/controller/scheduler_loop.go:280-345 | every admission is of a workload whose latest event shows it queued in the namespace, with the tenant, priority and demands that event shows |
| `Cycle.ZeroMemoryBlocks` | internal/scheduler/inputs.go:120-153 | a queued object without a memory demand makes the namespace's snapshot invalid |
| `Watch.IndexFollowsProtocolIff` | internal/controller/scheduler_loop.go:571-659 | for every interleaving of the protocol and every watch that may skip versions and removals, the index is correct if and only if unnoticed recreations show up no further back |
| `Watch.RecreatedUnnoticed` | internal/controller/scheduler_loop.go:571-659 | a run in which a workload is scheduled, deleted, released and created anew, and a watch of it after which the index is wrong |
| `PhaseProtocol.AttemptIsLegal` | internal/controller/gpuworkload_controller.go:83-197 | every write a branch of the code attempts may follow the version it was computed from |
| `PhaseProtocol.StepKeeps` | internal/controller/scheduler_loop.go:403-491 | every step of loop, reconciler or user keeps the invariant |
| `PhaseProtocol.RunKeepsInv` | internal/controller/gpuworkload_controller.go:83-240 | the invariant holds in every state of every interleaving |
| `PhaseProtocol.PhaseNeverFalls` | internal/controller/gpuworkload_controller.go:132-173 | in every interleaving with stale reads, phase rank never falls, Preempted is never left, and Succeeded and Failed are left only for Preempted |
| `PhaseProtocol.PhaseEdges` | internal/controller/gpuworkload_controller.go:122-197 | which phase each actor may write over which, on what version, and that nothing else changes a phase |
| `PhaseProtocol.FinishedChangesIff` | internal/controller/scheduler_loop.go:418-422 | a step changes the phase of a finished workload if and only if the loop evicts the current version of it |
| `PhaseProtocol.StaysFinishedIff` | internal/controller/scheduler_loop.go:403-437 | in every interleaving a finished workload keeps its phase if and only if the loop evicts no version read after the finish |
| `PhaseProtocol.SucceededThenPreempted` | internal/controller/scheduler_loop.go:418-422 | an interleaving in which the loop overwrites Succeeded by Preempted |
| `Lifecycle.PhaseIsOnRecord` | internal/controller/gpuworkload_controller.go:199-240 | in every history of protocol and simulator, Running, Succeeded or Failed means the simulator has a run, and Succeeded that one succeeded |
| `Lifecycle.StaysClearedIff` | internal/controller/scheduler_loop.go:432-437 | once a workload holds neither devices nor a run it goes on so if and only if no reconciler that holds a Scheduled version of it acts while enough eligible devices are free |
| `Lifecycle.AlwaysClearedIff` | internal/controller/gpuworkload_controller.go:199-221 | over all histories with the same acts: it always stays so if and only if no act meets that guard in any history leading up to it |
| `Lifecycle.RevivedByStaleVersion` | internal/controller/gpuworkload_controller.go:148-160 | for a Preempted workload such a reconciler holds an outdated version |
| `Lifecycle.PreemptedYetRunning` | internal/controller/gpuworkload_controller.go:199-240 | a history that ends with a Preempted workload holding devices and a running run |
| `Lifecycle.TidyKeepsRunning` | internal/controller/gpuworkload_controller.go:94-119 | a reconcile of a terminal workload takes its devices but stops no run |
| `Placement.SelectFirstFit` | internal/sim/contract.go:236-255 | the first devices, in order, of the first non-empty nodes within the limit |
| `Placement.SelectPack` | internal/sim/contract.go:257-263 | the same over nodes in stable order of descending size |
| `Placement.SelectSpread` | internal/sim/contract.go:265-296 | row by row over the kept nodes, balanced, and everything if it falls short |
| `Placement.SpreadRounds` | internal/sim/contract.go:277-295 | the exact device order, with per-node counts that differ by at most one unless the lower node is exhausted |
| `Placement.PickDevices` | internal/sim/contract.go:199-234 | the answer of each policy, and of the same-node demand, in every case |
| `Placement.PickLargestNode` | internal/sim/contract.go:200-214 | the first of the largest nodes, or an error if no node has enough |
| `Placement.PickIsSafe` | internal/sim/contract.go:199-296 | every policy picks eligible devices only, none twice, never too many, within the node limit |
| `Placement.PackSucceedsIff` | internal/sim/contract.go:257-263 | pack succeeds if and only if some set of nodes within the limit holds enough devices |
| `Placement.PackIsOptimal` | internal/sim/contract.go:257-263 | no placement of the same size uses fewer nodes than pack |
| `Placement.PackAndLocalityOptimal` | internal/sim/contract.go:216-263 | pack and locality-aware placement both succeed exactly when possible and use the fewest nodes |
| `Placement.PoliciesAcceptAlike` | internal/sim/contract.go:199-296 | without a node limit all four policies accept exactly the requests with enough eligible devices |
| `Placement.SameNodeSucceedsIff` | internal/sim/contract.go:200-214 | a same-node request succeeds if and only if one node alone has enough |
| `DeviceNames.DecimalReads` | internal/sim/state.go:150-180 | the number in an identifier reads back |
| `DeviceNames.DeviceIDInjective` | internal/sim/state.go:150-180 | pool, node and device number can be read back from a device identifier, for any two keys |
| `DeviceNames.CountsForIff` | internal/sim/state.go:99-115 | for any keys, a device counts for a pool if and only if it is its own, or the pool's key is a path prefix of its key or spelled like its node |
| `DeviceNames.CountsForOwnPoolOnly` | internal/sim/state.go:99-115 | between keys namespace/name and the default key a device counts for its own pool and no other |
| `DeviceNames.KeysConfused` | internal/sim/state.go:109-112 | keys of both kinds that are confused |
| `AcceleratorSim.BuildNodesWithPoolKey` | internal/sim/state.go:150-180 | refuses non-positive numbers; otherwise as many nodes and devices as asked for, each named by its position, with the memory, type and profile of the spec |
| `AcceleratorSim.FleetDistinct` | internal/sim/state.go:146-180 | no device identifier occurs twice across the registered pools, in any visiting order |
| `AcceleratorSim.ComputeEligibleDevicesPerNode` | internal/sim/contract.go:169-197 | per node, exactly the free devices with enough memory and the wanted type and profile, in order |
| `AcceleratorSim.OffersIff` | internal/sim/contract.go:169-197 | a device is offered exactly if it is free, large enough, and of the preferred type and profile where one is preferred |
| `AcceleratorSim.PolicyNames` | internal/sim/contract.go:136-139 | without a policy placement is first fit; with an unknown one it fails |
| `AcceleratorSim.ReservationIsGood` | internal/sim/contract.go:98-162 | what is reserved is distinct, was free, and meets the request on some registered pool |
| `AcceleratorSim.StepKeepsValid` | internal/sim/contract.go:29-615 | every operation keeps exclusive devices, numbered runs, and at most one running run per workload |
| `AcceleratorSim.TraceStaysValid` | internal/sim/contract.go:29-615 | so in every state of every sequence of operations, the unlocked checks being a separate step |
| `AcceleratorSim.TraceEvolves` | internal/sim/contract.go:461-589 | runs are never forgotten and an ended run never changes |
| `AcceleratorSim.RunIDsNeverReused` | internal/sim/contract.go:479-481 | a new run has an identifier no earlier state knows |
| `AcceleratorSim.PreemptStopsWorkload` | internal/sim/contract.go:570-589 | after Preempt no run of the workload is running, though it stops at the first match; allocations are unchanged |
| `AcceleratorSim.Simulator.constructor` | internal/sim/state.go:31-37 | starts empty |
| `AcceleratorSim.Simulator.RegisterFleet` | internal/sim/contract.go:29-53 | the register step, accepted exactly for good specs |
| `AcceleratorSim.Simulator.DeleteFleet` | internal/sim/contract.go:58-67 | the delete step |
| `AcceleratorSim.Simulator.AllNodes` | internal/sim/state.go:40-50 | all nodes, pools visited once each in some order |
| `AcceleratorSim.Simulator.AllocateLocked` | internal/sim/contract.go:122-161 | the verdict on what the policy picks; nothing changes unless all devices were found |
| `AcceleratorSim.Simulator.AllocateWithOptions` | internal/sim/contract.go:98-162 | each refusal with its exact condition, failure, or a good reservation of exactly the number asked for |
| `AcceleratorSim.Simulator.StartWithRuntimeInput` | internal/sim/contract.go:458-493 | the exact answer and new state of the locked part, one run at most per workload |
| `RuntimeInputs.StartRuntime` | internal/sim/contract.go:327-493 | the whole start: checks, defaults, estimate and run; an accepted input fails to get an estimate only for an unknown profile |
| `RuntimeInputs.PreparedMonotone` | internal/sim/contract.go:336-457 | from the caller's input, defaults included, more tokens never shorten a run and more devices never lengthen it |
| `RuntimeInputs.DefaultsAre` | internal/sim/contract.go:336-418 | what is filled in for each kind where nothing is set |
| `RuntimeInputs.OverheadsAre` | internal/sim/contract.go:425-456 | overheads are accepted exactly if they are fractions, a teacher exactly if it is known |
| `AcceleratorSim.Simulator.FindRunning` | internal/sim/contract.go:468-472 | finds a running run if and only if there is one |
| `AcceleratorSim.Simulator.GetStatus` | internal/sim/contract.go:504-524 | a running run whose end is not after now becomes and reports Succeeded, any other keeps and reports its status; nothing else changes |
| `AcceleratorSim.Simulator.GetLatestRunStatusForWorkload` | internal/sim/contract.go:529-557 | the same of a run of the workload that no other was started after |
| `Timing.ReportsByTheClock` | internal/sim/contract.go:504-557 | in every trace whose polls follow the clock, a poll that looks at a run not preempted finds it Running before start plus estimate and Succeeded from then on |
| `Timing.SucceededOnlyAfterEnd` | internal/sim/contract.go:519-522 | in every trace a run is Succeeded only if a poll looked at it no earlier than start plus estimate |
| `Timing.RunsUntilEnd` | internal/sim/contract.go:552-555 | a run that is not preempted keeps running while polls come before its end |
| `Timing.PreemptedForGood` | internal/sim/contract.go:570-599 | a run preempted while running stays Preempted |
| `AcceleratorSim.Simulator.PreemptWorkload` | internal/sim/contract.go:570-589 | the preempt step |
| `AcceleratorSim.Simulator.ReleaseWorkload` | internal/sim/contract.go:601-615 | the release step |
| `Accounting.FleetUsage` | internal/sim/state.go:53-81 | total, allocated and available devices of the fleet |
| `Accounting.FleetUsageForPool` | internal/sim/state.go:84-127 | the same per pool by identifier prefix, and whether the pool is registered |
| `Accounting.StaysGroundedIff` | internal/sim/contract.go:29-67 | after an operation every allocated device is still a device of a registered pool if and only if the operation took none away |
| `Accounting.GroundedSumsAgreeIff` | internal/sim/state.go:53-127 | with every allocated device in a registered pool, the pools' counts sum to the fleet's if and only if no pool claims an allocated device of another |
| `Accounting.TrustedIff` | internal/sim/state.go:99-115 | a set of pool keys has sums that agree in every such state if and only if no key is confused with another |
| `Accounting.SumsAgreeIff` | internal/sim/state.go:53-127 | for keys that are not confused the sums agree if and only if the owner of every allocated device is registered |
| `Accounting.AvailableIs` | internal/sim/state.go:84-127 | a pool's available count is its free devices less the allocated ones it no longer has |
| `Accounting.OwnersStayRegisteredIff` | internal/sim/contract.go:58-67 | owners stay registered if and only if the operation does not delete the pool of an allocated device |
| `Accounting.StaleAfter` | internal/sim/contract.go:29-53 | only registering a pool anew can leave it with allocated devices it lacks, and exactly which |
| `Accounting.TraceCounts` | internal/sim/state.go:53-127 | both exact conditions in every state of every sequence of operations |
| `Capacity.DeleteBreaksCounts` | internal/sim/contract.go:58-67 | register, allocate, delete: the sums disagree |
| `Capacity.ShrinkGoesNegative` | internal/sim/contract.go:29-53 | register two, allocate both, register one: minus one available |
| `Capacity.AllocationSucceedsIff` | internal/sim/contract.go:98-162 | without node limit or same-node demand an allocation succeeds if and only if enough eligible devices are free, whatever policy and pool order |
| `Capacity.LimitedAllocationSucceedsIff` | internal/sim/contract.go:134-162 | with pack or locality-aware placement and any node limit an allocation succeeds if and only if some nodes within the limit hold enough eligible devices, whatever the pool order |
| `Capacity.SameNodeAllocationSucceedsIff` | internal/sim/contract.go:134-162 | on one node it succeeds if and only if some node alone has enough, whatever policy and pool order |
| `Accounting.TraceStaysGrounded` | internal/sim/contract.go:29-162 | so over every sequence of operations that take none away |
| `Accounting.ReRegisterIsIdempotent` | internal/sim/contract.go:29-53 | registering changes nothing if and only if the spec is refused or is the one the pool was built from |
| `Accounting.AccountingIsExact` | internal/sim/state.go:53-127 | with grounded allocations and keys that are not confused, counts add up and each pool reports exactly its free devices |
| `Accounting.TraceAccountingIsExact` | internal/sim/state.go:53-127 | so in every state of every sequence of operations on well-formed keys that takes no allocated device away |
| `Duration.OwnKindDecides` | internal/sim/contract.go:756-763 | the chain of seven runtime multipliers equals the one of the workload's own kind |
| `Duration.EffectiveDevicesGrow` | internal/sim/contract.go:1367-1412 | device count times hardware factor never falls as devices are added, the step from one to two included |
| `Duration.EstimateDuration` | internal/sim/contract.go:728-777 | exists exactly for positive sizes, known profiles and a valid jitter, and is the least whole number of seconds that covers the jittered duration |
| `Duration.DurationMonotone` | internal/sim/contract.go:728-811 | at least one whole second; more tokens never shorten a run and more devices never lengthen it, for the same jitter draw |
| `Calibration.PlainTime` | internal/sim/contract.go:617-622 | at the reference, without settings, a run takes the least whole number of seconds, at least one, at 12000, 7000, 6500 or 5000 tokens a second and device |
| `Calibration.FasterFirst` | internal/sim/contract.go:617-622 | on equal metrics h100_sxm takes no longer than a100_80gb, that than tpu_v5e_chip, and that than trn1_instance |
| `Calibration.InferenceTakes` | internal/sim/contract.go:816-840 | the time of a batch of 1, 2, 4 and of one beyond the cap |
| `Calibration.EvalTakes` | internal/sim/contract.go:842-865 | the time by batch and overheads, which add up to three times at most |
| `Calibration.EmbeddingTakes` | internal/sim/contract.go:1197-1246 | the time by batch, vector dimension and token length |
| `Calibration.TrainingTakes` | internal/sim/contract.go:930-994 | the time by accumulation, sequence length, global and micro batch |
| `Calibration.FineTuneTakes` | internal/sim/contract.go:1079-1153 | the time by warm start, checkpoints, accumulation, global and micro batch |
| `Calibration.RlhfTakes` | internal/sim/contract.go:1155-1195 | the time by rollout, reward and update batch and policy steps |
| `Calibration.DataPreprocessTakes` | internal/sim/contract.go:1248-1305 | the time by volume, given or four bytes a token, and overheads |
| `Calibration.DistillationTakes` | internal/sim/contract.go:1307-1341 | the time by batch, teacher profile and overhead |
| `Calibration.FactorIs` | internal/sim/contract.go:1367-1412 | the hardware factor from the roots of the three metric ratios, weighted 60, 25 and 15 and held within a quarter of 1 |
| `Calibration.JitterTakes` | internal/sim/contract.go:789-814 | the time at three draws of the jitter |
| `Actuation.AllocateOnce` | internal/sim/contract.go:114-116 | an allocation for a workload that has none is its first since the start |
| `Actuation.StartOnce` | internal/sim/contract.go:468-472 | a run for a workload that has none running is its first since the start |
| `Actuation.ExecuteAdmission` | internal/controller/gpuworkload_controller.go:199-240 | at most one allocation and one run so far; Running is written only once a run exists; with good input and working writes, succeeds exactly if devices and a run are there |
| `Actuation.RetryAdmission` | internal/controller/gpuworkload_controller.go:199-240 | any number of attempts one after another, with writes failing arbitrarily, yield at most one allocation and one run |
| `Delivery.DeliveredIff` | internal/sim/contract.go:98-197 | an admission is delivered if and only if the pools spelled like its profile, with devices large enough, have enough devices free |
| `Delivery.FitsIffDelivered` | internal/controller/gpuworkload_controller.go:215-221 | on exact pool status with one spelling and one device memory, the scheduler's two capacity checks pass if and only if the admission is delivered |
| `Delivery.MisspelledPool` | internal/controller/gpunodepool_controller.go:68-78 | a pool spelled otherwise than its normalized profile passes the checks and is never allocated from |
| `Races.RaceStaysValid` | internal/sim/contract.go:98-162 | attempts interleaved step by step, checks apart from locks, keep devices exclusive and at most one running run |
| `Races.OneWinnerIff` | internal/sim/contract.go:114-123 | interleaved attempts yield at most one allocation, however placement turns out, if and only if no second attempt that will lock has checked when the first locks |
| `Races.TwoChecksTwoAllocations` | internal/sim/contract.go:114-123 | two checks before two locks can yield two allocations |
| `Actuation.EvictionClears` | internal/sim/contract.go:570-615 | preempting then releasing a workload leaves it neither devices nor a running run, and disturbs no other allocation |
| `Actuation.MarkVictimsPreemptedAndRelease` | internal/controller/scheduler_loop.go:403-443 | exactly the addressable victims before the first failed write are marked, stopped and released; every other record and allocation is untouched |

## Left out

- Worker-pool mode: its claim step and its write of Running are unconditional, so neither exclusivity nor phase order is a property of it.
- Kafka ingestion, HTTP handlers, submitter, informer wiring, leader election, retry timing, metrics, events and annotations: plumbing around the core.
- The legacy Job path (ensureWorkerJob, syncWorkloadPhaseFromWorkerJob): not reached in in-process mode.
- Multi-namespace coverage: a cycle returns after the first namespace that admits something; the batch is modelled for one namespace.
- Fleet and quota setters of the scheduler state: plain map updates; a snapshot takes fleet and quotas as parameters.
- Quotas on memory: no admission check reads maxMemoryMiB, so only the GPU cap has a theorem.
- Capacity across cycles: free capacity comes from pool status, so conservation is stated relative to the snapshot of one cycle.
- 32- and 64-bit wrap-around: integers are unbounded throughout.
- Unicode case folding: `Lower` folds ASCII letters only.
- Nil and empty maps are not told apart: both read as a fleet without profiles.
- Utilization ratios in the usage reports: a quotient of two modelled counts.
- Profile loading from JSON, median references and floating-point rounding: hardware figures are parameters and arithmetic is real.
- Inputs.ApplyVirtualAdmission: requires a non-empty queue, because the original sizes its new queue as one less than the old and would panic on an empty one.
- Preemption.GreedyAgainstBaseline: assumes non-negative GPU counts, which Validate demands; with negative counts a prefix is not the best the baseline could do.
- Preemption.VictimsRankBelowIff: assumes non-negative GPU counts, as above.
- AcceleratorSim.Simulator.StartWithRuntimeInput: takes the outcome of the input checks and the estimate as parameters; RuntimeInputs.StartRuntime supplies both.
- TieBreak.TieBreakIff: assumes positive GPU counts, which Validate demands, as does TieBreak.PickTieBreakIff.
- Timing.ReportsByTheClock: assumes polls with non-decreasing times, which the clock gives; a poll by workload looks at the run for certain only if every other run of the workload started earlier.
- Actuation.MarkVictimsPreemptedAndRelease: conflict retries of one write are folded into whether that write succeeds.
