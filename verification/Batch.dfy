/** One scheduling cycle over one namespace: the batch loop of runSchedulingCycle in
    internal/controller/scheduler_loop.go. Inputs are validated once; later selections run on
    virtually updated copies that are never validated again. */
module Batch {
  import opened Sequences
  import opened Workloads
  import opened Checks
  import opened Inputs
  import opened Preemption
  import opened Selection

  datatype Admission = Admission(w: QueuedWorkload, victims: seq<RunningWorkload>)

  /** The policy picks `a` on snapshot `s`. */
  ghost predicate Justified(s: SchedulingInputs, known: set<string>, a: Admission) {
    exists d: Decision, i: nat ::
      && (ChosenToFit(s, known, d, i) || ChosenToPreempt(s, known, d, i))
      && a == Admission(FairOrder(s)[i], d.victims)
  }

  ghost function JustifiedBy(known: set<string>): (SchedulingInputs, Admission) -> bool {
    (s: SchedulingInputs, a: Admission) => Justified(s, known, a)
  }

  /** Virtual admission of `a` leads from `s` to `next`. */
  ghost predicate Applied(s: SchedulingInputs, a: Admission, now: int, next: SchedulingInputs) {
    AfterAdmission(s, a.w, now) == Ok(next)
  }

  /** Each snapshot is the one before it after its admission. */
  ghost predicate Chained(now: int, states: seq<SchedulingInputs>, admitted: seq<Admission>) {
    && |states| <= |admitted| + 1
    && forall k | 0 <= k < |states| - 1 :: Applied(states[k], admitted[k], now, states[k + 1])
  }

  /** `states` are the snapshots on which the admissions of one batch were decided; the last
      virtual admission may have failed, which ends the batch. */
  ghost predicate BatchRun(
      inputs: SchedulingInputs, known: set<string>, now: int, states: seq<SchedulingInputs>, admitted: seq<Admission>)
  {
    && |admitted| <= |states| <= |admitted| + 1
    && |states| > 0 && states[0] == inputs
    && Paired(JustifiedBy(known), states, admitted)
    && Chained(now, states, admitted)
  }

  lemma JustifiedAt(
      inputs: SchedulingInputs, known: set<string>, now: int, states: seq<SchedulingInputs>, admitted: seq<Admission>,
      k: nat)
    requires BatchRun(inputs, known, now, states, admitted) && k < |admitted|
    ensures Justified(states[k], known, admitted[k])
  {
    assert JustifiedBy(known)(states[k], admitted[k]);
  }

  // ---------------------------------------------------------------- one admission

  function FreeOn(s: SchedulingInputs, p: string): int {
    if p in s.fleet.byProfile then s.fleet.byProfile[p].freeDevices else 0
  }

  /** GPUs that evicting `victims` frees on one profile. */
  function FreedOn(victims: seq<RunningWorkload>, p: string): int {
    SumBy(OfProfile(victims, p), Gpus)
  }

  lemma {:induction false} OfProfileOwn(victims: seq<RunningWorkload>, p: string)
    requires forall v | v in victims :: v.profile == p
    ensures OfProfile(victims, p) == victims
  {
    if victims != [] {
      assert victims[0].profile == p;
      OfProfileOwn(victims[1..], p);
      assert victims == [victims[0]] + victims[1..];
    }
  }

  lemma VictimsShareProfile(running: seq<RunningWorkload>, p: string, victims: seq<RunningWorkload>)
    requires Within(victims, OfProfile(running, p))
    ensures forall v | v in victims :: v.profile == p && v in running
  {
    forall v | v in victims ensures v.profile == p && v in running {
      WithinMembers(victims, OfProfile(running, p), v);
      OfProfileMembers(running, p, v);
    }
  }

  /** An admission is within the tenant's cap and is covered by what is free plus what it evicts;
      it evicts exactly when what is free does not cover it. */
  ghost predicate Sound(s: SchedulingInputs, a: Admission) {
    && a.w in s.queued
    && (a.w.tenant in s.quotas && s.quotas[a.w.tenant].maxGPUs != 0 ==>
          TenantGPUs(s.scheduled, a.w.tenant) + TenantGPUs(s.running, a.w.tenant) + a.w.gpuCount
          <= s.quotas[a.w.tenant].maxGPUs)
    && a.w.profile in s.fleet.byProfile
    && (forall v | v in a.victims :: v.profile == a.w.profile && v in s.running)
    && a.w.gpuCount <= FreeOn(s, a.w.profile) + FreedOn(a.victims, a.w.profile)
    && (a.victims != [] <==> FreeOn(s, a.w.profile) < a.w.gpuCount)
  }

  lemma FittingIsSound(s: SchedulingInputs, known: set<string>, d: Decision, i: nat)
    requires ChosenToFit(s, known, d, i)
    ensures Sound(s, Admission(FairOrder(s)[i], d.victims))
  {
    FairOrderMembers(s);
    assert FairOrder(s)[i] in FairOrder(s);
  }

  lemma EvictionCovers(running: seq<RunningWorkload>, p: string, need: int, victims: seq<RunningWorkload>, ceiling: int)
    requires TwoStageOptimal(OfProfile(running, p), need, victims, ceiling)
    ensures (forall v | v in victims :: v.profile == p && v in running) && FreedOn(victims, p) >= need
  {
    VictimsShareProfile(running, p, victims);
    OfProfileOwn(victims, p);
  }

  lemma GreedyIsSound(s: SchedulingInputs, known: set<string>, w: QueuedWorkload, victims: seq<RunningWorkload>)
    requires w in s.queued && CanPreempt(s, known, w) && victims != []
    requires GreedyAnswer(w, s.running, s.fleet, known, Ok(victims))
    ensures Sound(s, Admission(w, victims))
  {
    ShortfallFacts(w, s.running, s.fleet, known);
    var ceiling := GreedyAnswerOptimal(w, s.running, s.fleet, known, Ok(victims));
    EvictionCovers(s.running, w.profile, w.gpuCount - FreeOn(s, w.profile), victims, ceiling);
  }

  lemma PreemptingIsSound(s: SchedulingInputs, known: set<string>, d: Decision, i: nat)
    requires ChosenToPreempt(s, known, d, i)
    ensures Sound(s, Admission(FairOrder(s)[i], d.victims))
  {
    FairOrderMembers(s);
    assert FairOrder(s)[i] in FairOrder(s);
    GreedyIsSound(s, known, FairOrder(s)[i], d.victims);
  }

  lemma JustifiedIsSound(s: SchedulingInputs, known: set<string>, a: Admission)
    requires Justified(s, known, a)
    ensures Sound(s, a)
  {
    var d: Decision, i: nat :|
      (ChosenToFit(s, known, d, i) || ChosenToPreempt(s, known, d, i)) && a == Admission(FairOrder(s)[i], d.victims);
    if ChosenToFit(s, known, d, i) {
      FittingIsSound(s, known, d, i);
    } else {
      PreemptingIsSound(s, known, d, i);
    }
  }

  // ---------------------------------------------------------------- the whole batch

  /** What one justified admission keeps. */
  lemma AppliedKeepsValid(s: SchedulingInputs, known: set<string>, a: Admission, now: int, next: SchedulingInputs)
    requires ValidInputs(s) && now != 0 && Justified(s, known, a) && Applied(s, a, now, next)
    ensures ValidInputs(next) && next.quotas == s.quotas
    ensures multiset(AllIDs(next)) == multiset(AllIDs(s)) && |next.queued| == |s.queued| - 1
    ensures forall w :: w in next.queued <==> w in s.queued && w.workloadID != a.w.workloadID
  {
    JustifiedIsSound(s, known, a);
    AdmissionKeepsValid(s, a.w, now);
  }

  /** `s` is valid, over the identifiers and quotas of `inputs`, with `k` fewer workloads queued. */
  ghost predicate Descends(inputs: SchedulingInputs, s: SchedulingInputs, k: nat) {
    && ValidInputs(s) && s.quotas == inputs.quotas
    && multiset(AllIDs(s)) == multiset(AllIDs(inputs)) && |s.queued| == |inputs.queued| - k
  }

  lemma DescendsFurther(
      inputs: SchedulingInputs, k: nat, s: SchedulingInputs, known: set<string>, a: Admission, now: int,
      next: SchedulingInputs)
    requires Descends(inputs, s, k) && now != 0 && Justified(s, known, a) && Applied(s, a, now, next)
    ensures Descends(inputs, next, k + 1)
  {
    AppliedKeepsValid(s, known, a, now, next);
  }

  /** Snapshots stay valid over the same identifiers, and the queue shrinks by one each time. */
  lemma {:induction false} BatchStaysValid(
      inputs: SchedulingInputs, known: set<string>, now: int, states: seq<SchedulingInputs>, admitted: seq<Admission>,
      k: nat)
    requires ValidInputs(inputs) && now != 0
    requires BatchRun(inputs, known, now, states, admitted) && k < |states|
    ensures Descends(inputs, states[k], k)
  {
    if k > 0 {
      BatchStaysValid(inputs, known, now, states, admitted, k - 1);
      JustifiedAt(inputs, known, now, states, admitted, k - 1);
      DescendsFurther(inputs, k - 1, states[k - 1], known, admitted[k - 1], now, states[k]);
    }
  }

  /** What is queued at step `k` was queued at the start and is none of the workloads admitted
      before. */
  lemma {:induction false} QueuedAtStep(
      inputs: SchedulingInputs, known: set<string>, now: int, states: seq<SchedulingInputs>, admitted: seq<Admission>,
      k: nat, w: QueuedWorkload)
    requires ValidInputs(inputs) && now != 0
    requires BatchRun(inputs, known, now, states, admitted) && k < |states| && w in states[k].queued
    ensures w in inputs.queued
    ensures forall j | 0 <= j < k :: admitted[j].w.workloadID != w.workloadID
  {
    if k > 0 {
      BatchStaysValid(inputs, known, now, states, admitted, k - 1);
      JustifiedAt(inputs, known, now, states, admitted, k - 1);
      AppliedKeepsValid(states[k - 1], known, admitted[k - 1], now, states[k]);
      QueuedAtStep(inputs, known, now, states, admitted, k - 1, w);
    }
  }

  /** Admissions are distinct queued workloads, hence no more than the queue was long. */
  lemma BatchAdmitsDistinct(
      inputs: SchedulingInputs, known: set<string>, now: int, states: seq<SchedulingInputs>, admitted: seq<Admission>)
    requires ValidInputs(inputs) && now != 0 && BatchRun(inputs, known, now, states, admitted)
    ensures forall k | 0 <= k < |admitted| :: admitted[k].w in inputs.queued
    ensures forall j, k | 0 <= j < k < |admitted| :: admitted[j].w.workloadID != admitted[k].w.workloadID
    ensures |admitted| <= |inputs.queued|
  {
    forall k | 0 <= k < |admitted|
      ensures admitted[k].w in inputs.queued
      ensures forall j | 0 <= j < k :: admitted[j].w.workloadID != admitted[k].w.workloadID
    {
      JustifiedAt(inputs, known, now, states, admitted, k);
      JustifiedIsSound(states[k], known, admitted[k]);
      QueuedAtStep(inputs, known, now, states, admitted, k, admitted[k].w);
    }
    if |admitted| > 0 {
      var last := |admitted| - 1;
      BatchStaysValid(inputs, known, now, states, admitted, last);
      JustifiedAt(inputs, known, now, states, admitted, last);
      JustifiedIsSound(states[last], known, admitted[last]);
    }
  }

  lemma AppliedFits(s: SchedulingInputs, a: Admission, now: int, next: SchedulingInputs)
    requires Applied(s, a, now, next)
    ensures a.w.gpuCount <= FreeOn(s, a.w.profile)
  {
  }

  /** Virtual admission after an eviction must fail, so only the last admission evicts. */
  lemma OnlyLastPreempts(
      inputs: SchedulingInputs, known: set<string>, now: int, states: seq<SchedulingInputs>, admitted: seq<Admission>,
      k: nat)
    requires BatchRun(inputs, known, now, states, admitted) && k < |admitted|
    ensures admitted[k].victims != [] ==> k == |admitted| - 1 && |states| == |admitted|
    ensures admitted[k].victims != [] ==> AfterAdmission(states[k], admitted[k].w, now).Err?
  {
    JustifiedAt(inputs, known, now, states, admitted, k);
    JustifiedIsSound(states[k], known, admitted[k]);
    if AfterAdmission(states[k], admitted[k].w, now).Ok? {
      AppliedFits(states[k], admitted[k], now, AfterAdmission(states[k], admitted[k].w, now).value);
    }
    if k < |states| - 1 {
      AppliedFits(states[k], admitted[k], now, states[k + 1]);
    }
  }

  function AdmittedOn(admitted: seq<Admission>, p: string): int {
    if admitted == [] then 0
    else
      var n := |admitted| - 1;
      AdmittedOn(admitted[..n], p) + if admitted[n].w.profile == p then admitted[n].w.gpuCount else 0
  }

  function EvictedOn(admitted: seq<Admission>, p: string): int {
    if admitted == [] then 0
    else
      var n := |admitted| - 1;
      EvictedOn(admitted[..n], p) + FreedOn(admitted[n].victims, p)
  }

  function AdmittedTo(admitted: seq<Admission>, tenant: string): int {
    if admitted == [] then 0
    else
      var n := |admitted| - 1;
      AdmittedTo(admitted[..n], tenant) + if admitted[n].w.tenant == tenant then admitted[n].w.gpuCount else 0
  }

  lemma AdmittedOnTake(admitted: seq<Admission>, k: nat, p: string)
    requires k < |admitted|
    ensures AdmittedOn(admitted[..k + 1], p)
         == AdmittedOn(admitted[..k], p) + if admitted[k].w.profile == p then admitted[k].w.gpuCount else 0
  {
    assert admitted[..k + 1][..k] == admitted[..k];
  }

  lemma FreeAfter(s: SchedulingInputs, a: Admission, now: int, next: SchedulingInputs, p: string)
    requires Applied(s, a, now, next)
    ensures FreeOn(next, p) == FreeOn(s, p) - if a.w.profile == p then a.w.gpuCount else 0
  {
  }

  lemma {:induction false} FreeAtStep(
      now: int, states: seq<SchedulingInputs>, admitted: seq<Admission>, k: nat, p: string)
    requires Chained(now, states, admitted) && k < |states|
    ensures FreeOn(states[k], p) == FreeOn(states[0], p) - AdmittedOn(admitted[..k], p)
  {
    if k > 0 {
      FreeAtStep(now, states, admitted, k - 1, p);
      FreeAfter(states[k - 1], admitted[k - 1], now, states[k], p);
      AdmittedOnTake(admitted, k - 1, p);
    }
  }

  lemma {:induction false} NoEvictionsYet(admitted: seq<Admission>, k: nat, p: string)
    requires k <= |admitted| && forall j | 0 <= j < k :: admitted[j].victims == []
    ensures EvictedOn(admitted[..k], p) == 0
  {
    if k > 0 {
      NoEvictionsYet(admitted, k - 1, p);
      assert admitted[..k][..k - 1] == admitted[..k - 1];
    }
  }

  lemma ValidFree(s: SchedulingInputs, p: string)
    requires ValidInputs(s)
    ensures FreeOn(s, p) >= 0
  {
  }

  /** Capacity is conserved over the whole batch: on every profile the GPUs admitted do not exceed
      the GPUs free at the start plus those of the victims. */
  lemma BatchConservesCapacity(
      inputs: SchedulingInputs, known: set<string>, now: int, states: seq<SchedulingInputs>, admitted: seq<Admission>,
      p: string)
    requires ValidInputs(inputs) && now != 0 && BatchRun(inputs, known, now, states, admitted)
    ensures AdmittedOn(admitted, p) <= FreeOn(inputs, p) + EvictedOn(admitted, p)
  {
    assert admitted[..|admitted|] == admitted;
    forall j | 0 <= j < |admitted| - 1 ensures admitted[j].victims == [] {
      OnlyLastPreempts(inputs, known, now, states, admitted, j);
    }
    var n := |states| - 1;
    FreeAtStep(now, states, admitted, n, p);
    BatchStaysValid(inputs, known, now, states, admitted, n);
    ValidFree(states[n], p);
    if n < |admitted| {
      NoEvictionsYet(admitted, n, p);
      JustifiedAt(inputs, known, now, states, admitted, n);
      JustifiedIsSound(states[n], known, admitted[n]);
      FreedElsewhere(admitted[n].victims, admitted[n].w.profile, p);
    } else {
      forall j | 0 <= j < |admitted| ensures admitted[j].victims == [] {
        OnlyLastPreempts(inputs, known, now, states, admitted, j);
      }
      NoEvictionsYet(admitted, n, p);
    }
  }

  lemma {:induction false} FreedElsewhere(victims: seq<RunningWorkload>, mine: string, p: string)
    requires forall v | v in victims :: v.profile == mine
    ensures p != mine ==> FreedOn(victims, p) == 0
  {
    if victims != [] {
      assert victims[0].profile == mine;
      FreedElsewhere(victims[1..], mine, p);
    }
  }

  lemma AdmittedToTake(admitted: seq<Admission>, k: nat, t: string)
    requires k < |admitted|
    ensures AdmittedTo(admitted[..k + 1], t)
         == AdmittedTo(admitted[..k], t) + if admitted[k].w.tenant == t then admitted[k].w.gpuCount else 0
  {
    assert admitted[..k + 1][..k] == admitted[..k];
  }

  /** Admission moves GPUs from the queue to the tenant's running workloads. */
  lemma HeldAfter(s: SchedulingInputs, a: Admission, now: int, next: SchedulingInputs, t: string)
    requires Applied(s, a, now, next)
    ensures next.scheduled == s.scheduled && next.quotas == s.quotas
    ensures TenantGPUs(next.running, t) == TenantGPUs(s.running, t) + if a.w.tenant == t then a.w.gpuCount else 0
  {
    TenantGPUsConcat(s.running, [AsRunning(a.w, now)], t);
    TenantGPUsOne(AsRunning(a.w, now), t);
  }

  lemma {:induction false} HeldAtStep(
      now: int, states: seq<SchedulingInputs>, admitted: seq<Admission>, k: nat, t: string)
    requires Chained(now, states, admitted) && k < |states|
    ensures states[k].scheduled == states[0].scheduled && states[k].quotas == states[0].quotas
    ensures TenantGPUs(states[k].running, t) == TenantGPUs(states[0].running, t) + AdmittedTo(admitted[..k], t)
  {
    if k > 0 {
      HeldAtStep(now, states, admitted, k - 1, t);
      HeldAfter(states[k - 1], admitted[k - 1], now, states[k], t);
      AdmittedToTake(admitted, k - 1, t);
    }
  }

  lemma AdmissionRespectsCap(
      inputs: SchedulingInputs, known: set<string>, now: int, states: seq<SchedulingInputs>, admitted: seq<Admission>,
      k: nat, t: string)
    requires BatchRun(inputs, known, now, states, admitted) && k < |admitted| && admitted[k].w.tenant == t
    requires t in inputs.quotas && inputs.quotas[t].maxGPUs != 0
    ensures TenantGPUs(inputs.scheduled, t) + TenantGPUs(inputs.running, t) + AdmittedTo(admitted[..k], t)
            + admitted[k].w.gpuCount <= inputs.quotas[t].maxGPUs
  {
    HeldAtStep(now, states, admitted, k, t);
    JustifiedAt(inputs, known, now, states, admitted, k);
    JustifiedIsSound(states[k], known, admitted[k]);
  }

  /** Some admission among the first `k` goes to tenant `t`. */
  predicate Serves(admitted: seq<Admission>, k: nat, t: string)
    requires k <= |admitted|
  {
    exists j | 0 <= j < k :: admitted[j].w.tenant == t
  }

  /** The tenant cap holds after every admission of the batch, and a tenant already above its cap
      is admitted nothing. */
  lemma BatchRespectsCap(
      inputs: SchedulingInputs, known: set<string>, now: int, states: seq<SchedulingInputs>, admitted: seq<Admission>,
      k: nat, t: string)
    requires BatchRun(inputs, known, now, states, admitted) && k <= |admitted|
    requires t in inputs.quotas && inputs.quotas[t].maxGPUs != 0
    ensures TenantGPUs(inputs.scheduled, t) + TenantGPUs(inputs.running, t) <= inputs.quotas[t].maxGPUs
            || Serves(admitted, k, t) ==>
              TenantGPUs(inputs.scheduled, t) + TenantGPUs(inputs.running, t) + AdmittedTo(admitted[..k], t)
              <= inputs.quotas[t].maxGPUs
    ensures !Serves(admitted, k, t) ==> AdmittedTo(admitted[..k], t) == 0
    ensures ValidInputs(inputs) && now != 0
            && TenantGPUs(inputs.scheduled, t) + TenantGPUs(inputs.running, t) > inputs.quotas[t].maxGPUs ==>
              !Serves(admitted, k, t)
  {
    var held, cap := TenantGPUs(inputs.scheduled, t) + TenantGPUs(inputs.running, t), inputs.quotas[t].maxGPUs;
    forall j | 0 <= j < |admitted| ensures StaysUnder(admitted, j, t, held, cap) {
      if admitted[j].w.tenant == t {
        AdmissionRespectsCap(inputs, known, now, states, admitted, j, t);
      }
    }
    CapHolds(admitted, k, t, held, cap);
    if ValidInputs(inputs) && now != 0 {
      AdmissionsPositive(inputs, known, now, states, admitted);
      AdmittedToNonNegative(admitted, k, t);
    }
  }

  lemma AdmissionsPositive(
      inputs: SchedulingInputs, known: set<string>, now: int, states: seq<SchedulingInputs>, admitted: seq<Admission>)
    requires ValidInputs(inputs) && now != 0 && BatchRun(inputs, known, now, states, admitted)
    ensures forall j | 0 <= j < |admitted| :: admitted[j].w.gpuCount > 0
  {
    BatchAdmitsDistinct(inputs, known, now, states, admitted);
    assert forall j | 0 <= j < |admitted| :: QueuedOk(admitted[j].w);
  }

  lemma {:induction false} AdmittedToNonNegative(admitted: seq<Admission>, k: nat, t: string)
    requires k <= |admitted| && forall j | 0 <= j < |admitted| :: admitted[j].w.gpuCount > 0
    ensures AdmittedTo(admitted[..k], t) >= 0
  {
    if k > 0 {
      AdmittedToNonNegative(admitted, k - 1, t);
      AdmittedToTake(admitted, k - 1, t);
    }
  }

  /** An admission to `t` leaves what it then holds within `cap`. */
  predicate StaysUnder(admitted: seq<Admission>, k: nat, t: string, held: int, cap: int)
    requires k < |admitted|
  {
    admitted[k].w.tenant == t ==> held + AdmittedTo(admitted[..k], t) + admitted[k].w.gpuCount <= cap
  }

  lemma {:induction false} CapHolds(admitted: seq<Admission>, k: nat, t: string, held: int, cap: int)
    requires k <= |admitted| && forall j | 0 <= j < |admitted| :: StaysUnder(admitted, j, t, held, cap)
    ensures held <= cap || Serves(admitted, k, t) ==> held + AdmittedTo(admitted[..k], t) <= cap
    ensures !Serves(admitted, k, t) ==> AdmittedTo(admitted[..k], t) == 0
  {
    if k > 0 {
      CapHolds(admitted, k - 1, t, held, cap);
      AdmittedToTake(admitted, k - 1, t);
      assert StaysUnder(admitted, k - 1, t, held, cap);
      assert Serves(admitted, k, t) <==> Serves(admitted, k - 1, t) || admitted[k - 1].w.tenant == t;
    }
  }

  // ---------------------------------------------------------------- memory

  /** Free memory is that of the free devices, on every profile. */
  ghost predicate MemoryMatches(f: FleetFreeCapacity) {
    forall p | p in f.byProfile :: MemoryOf(f.byProfile[p])
  }

  predicate MemoryOf(c: ProfileFreeCapacity) {
    c.freeMemoryMiB == c.freeDevices * c.memoryMiBPerDevice
  }

  /** Pools filed under one profile have devices of one size. */
  ghost predicate OneMemory(pools: seq<Pool>) {
    forall p, q | p in pools && q in pools && NormalizeProfile(p.profile) == NormalizeProfile(q.profile) ::
      p.memoryMiBPerDevice == q.memoryMiBPerDevice
  }

  lemma {:induction false} SameMemory(pools: seq<Pool>, memMiB: int)
    requires forall p | p in pools :: p.memoryMiBPerDevice == memMiB
    ensures SumBy(pools, PoolMemory) == SumBy(pools, PoolDevices) * memMiB
    ensures FirstMemory(pools) == if pools == [] then 0 else memMiB
  {
    if pools != [] {
      assert pools[0] in pools;
      SameMemory(pools[1..], memMiB);
      assert (PoolDevices(pools[0]) + SumBy(pools[1..], PoolDevices)) * memMiB
          == PoolDevices(pools[0]) * memMiB + SumBy(pools[1..], PoolDevices) * memMiB;
    }
  }

  lemma {:induction false} PoolsOfProfile(pools: seq<Pool>, key: string)
    ensures forall p | p in PoolsOf(pools, key) :: p in pools && NormalizeProfile(p.profile) == key
  {
    if pools != [] {
      PoolsOfProfile(pools[1..], key);
    }
  }

  /** So it is where every profile has one device memory. */
  lemma OneMemoryMatches(pools: seq<Pool>, f: FleetFreeCapacity)
    requires Aggregates(pools, f) && OneMemory(pools)
    ensures MemoryMatches(f)
  {
    forall key | key in f.byProfile ensures MemoryOf(f.byProfile[key]) {
      var mine := PoolsOf(pools, key);
      PoolsOfProfile(pools, key);
      if mine != [] {
        assert mine[0] in mine;
        SameMemory(mine, mine[0].memoryMiBPerDevice);
      }
      assert f.byProfile[key] == Aggregated(pools, key);
    }
  }

  lemma MatchesAfter(s: SchedulingInputs, a: Admission, now: int, next: SchedulingInputs)
    requires MemoryMatches(s.fleet) && Applied(s, a, now, next)
    ensures MemoryMatches(next.fleet)
  {
    var c := s.fleet.byProfile[a.w.profile];
    assert MemoryOf(c);
    assert (c.freeDevices - a.w.gpuCount) * c.memoryMiBPerDevice
        == c.freeDevices * c.memoryMiBPerDevice - a.w.gpuCount * c.memoryMiBPerDevice;
    forall p | p in next.fleet.byProfile ensures MemoryOf(next.fleet.byProfile[p]) {
      if p != a.w.profile {
        assert MemoryOf(s.fleet.byProfile[p]);
      }
    }
  }

  lemma {:induction false} MatchesAtStep(now: int, states: seq<SchedulingInputs>, admitted: seq<Admission>, k: nat)
    requires Chained(now, states, admitted) && k < |states| && MemoryMatches(states[0].fleet)
    ensures MemoryMatches(states[k].fleet)
  {
    if k > 0 {
      MatchesAtStep(now, states, admitted, k - 1);
      MatchesAfter(states[k - 1], admitted[k - 1], now, states[k]);
    }
  }

  lemma FitsMemory(c: ProfileFreeCapacity, gpuCount: int)
    requires CapacityOk(c) && MemoryOf(c) && 0 < gpuCount <= c.freeDevices
    ensures gpuCount * c.memoryMiBPerDevice <= c.freeMemoryMiB
  {
    assert gpuCount * c.memoryMiBPerDevice <= c.freeDevices * c.memoryMiBPerDevice;
  }

  lemma FailsIfShort(s: SchedulingInputs, a: Admission, now: int)
    requires ValidInputs(s) && MemoryMatches(s.fleet) && a.w.gpuCount > 0 && a.w.profile in s.fleet.byProfile
    ensures AfterAdmission(s, a.w, now).Err? <==> FreeOn(s, a.w.profile) < a.w.gpuCount
  {
    var c := s.fleet.byProfile[a.w.profile];
    assert CapacityOk(c) && MemoryOf(c);
    if a.w.gpuCount <= c.freeDevices {
      FitsMemory(c, a.w.gpuCount);
    }
  }

  /** Where free memory is that of the free devices at the start of a cycle, virtual admission fails
      exactly after an eviction. */
  lemma FailsExactlyAfterEviction(
      inputs: SchedulingInputs, known: set<string>, now: int, states: seq<SchedulingInputs>, admitted: seq<Admission>,
      k: nat)
    requires ValidInputs(inputs) && now != 0 && MemoryMatches(inputs.fleet)
    requires BatchRun(inputs, known, now, states, admitted) && k < |admitted|
    ensures AfterAdmission(states[k], admitted[k].w, now).Err? <==> admitted[k].victims != []
  {
    MatchesAtStep(now, states, admitted, k);
    BatchStaysValid(inputs, known, now, states, admitted, k);
    AdmissionsPositive(inputs, known, now, states, admitted);
    JustifiedAt(inputs, known, now, states, admitted, k);
    JustifiedIsSound(states[k], known, admitted[k]);
    FailsIfShort(states[k], admitted[k], now);
  }

  lemma OnlyInLine(inputs: SchedulingInputs, w: QueuedWorkload)
    requires inputs.queued == [w]
    ensures FairOrder(inputs) == [w]
  {
    FairOrderMembers(inputs);
    assert FairOrder(inputs)[0] in FairOrder(inputs);
  }

  lemma FirstIsChosen(inputs: SchedulingInputs, known: set<string>, fair: seq<QueuedWorkload>) returns (d: Decision)
    requires fair == FairOrder(inputs) && |fair| > 0 && FitsNow(inputs, known, fair[0])
    ensures ChosenToFit(inputs, known, d, 0) && d.victims == []
  {
    d := Decision(
      fair[0].workloadID, [], "SelectedForAdmission", "Scheduler selected this workload for admission", "");
  }

  lemma FitsAlone(inputs: SchedulingInputs, known: set<string>, w: QueuedWorkload)
    requires inputs.queued == [w] && FitsNow(inputs, known, w)
    ensures Justified(inputs, known, Admission(w, []))
  {
    OnlyInLine(inputs, w);
    var fair := FairOrder(inputs);
    assert fair[0] == w;
    var d := FirstIsChosen(inputs, known, fair);
    assert Admission(w, []) == Admission(fair[0], d.victims);
  }

  lemma OneAdmission(inputs: SchedulingInputs, known: set<string>, now: int, a: Admission)
    requires Justified(inputs, known, a)
    ensures BatchRun(inputs, known, now, [inputs], [a])
  {
    assert JustifiedBy(known)(inputs, a);
  }

  lemma TwoPools(profile: string, big: int, small: int, f: FleetFreeCapacity)
    requires big > 0 && NormalizeProfile(profile) != ""
    requires Aggregates([Pool(profile, big, 1), Pool(profile, small, 1)], f)
    ensures NormalizeProfile(profile) in f.byProfile
    ensures f.byProfile[NormalizeProfile(profile)] == ProfileFreeCapacity(2, big + small, big)
  {
    var p, q, key := Pool(profile, big, 1), Pool(profile, small, 1), NormalizeProfile(profile);
    assert p in [p, q];
    assert [p, q][1..] == [q] && [q][1..] == [];
    assert PoolsOf([q], key) == [q];
    assert PoolsOf([p, q], key) == [p, q];
    assert SumBy([q], PoolDevices) == 1 && SumBy([q], PoolMemory) == small;
    assert f.byProfile[key] == Aggregated([p, q], key);
  }

  /** Two pools of one profile, the second with the smaller devices: a workload that takes both devices
      fits, and its virtual admission fails with nothing evicted. */
  lemma MixedMemoryStops(
      inputs: SchedulingInputs, known: set<string>, now: int, w: QueuedWorkload, profile: string, big: int, small: int)
    requires big > small && big > 0 && w.profile == NormalizeProfile(profile) != ""
    requires Aggregates([Pool(profile, big, 1), Pool(profile, small, 1)], inputs.fleet)
    requires inputs.queued == [w] && w.gpuCount == 2 && 0 < w.gpuMemoryMiB <= big
    requires WithinCap(inputs, w) && Compatible(inputs, known, w)
    ensures BatchRun(inputs, known, now, [inputs], [Admission(w, [])]) && AfterAdmission(inputs, w, now).Err?
  {
    TwoPools(profile, big, small, inputs.fleet);
    FitsAlone(inputs, known, w);
    OneAdmission(inputs, known, now, Admission(w, []));
  }

  // ---------------------------------------------------------------- the loop

  lemma ChosenIsQueued(s: SchedulingInputs, known: set<string>, d: Decision, i: nat) returns (w: QueuedWorkload)
    requires ChosenToFit(s, known, d, i) || ChosenToPreempt(s, known, d, i)
    ensures i < |FairOrder(s)| && w == FairOrder(s)[i] && w in s.queued && w.workloadID == d.selectedID
  {
    FairOrderMembers(s);
    w := FairOrder(s)[i];
    assert w in FairOrder(s);
  }

  /** The identifier names the very workload the policy picked. */
  lemma SelectedIsFound(s: SchedulingInputs, known: set<string>, d: Decision, found: Option<QueuedWorkload>)
    requires ValidInputs(s)
    requires exists i: nat :: ChosenToFit(s, known, d, i) || ChosenToPreempt(s, known, d, i)
    requires found.None? <==> d.selectedID !in QueuedIDs(s.queued)
    requires found.Some? ==> forall w | w in s.queued && w.workloadID == d.selectedID :: w == found.value
    ensures found.Some? && Justified(s, known, Admission(found.value, d.victims))
  {
    var i: nat :| ChosenToFit(s, known, d, i) || ChosenToPreempt(s, known, d, i);
    var w := ChosenIsQueued(s, known, d, i);
    var k := IndexOf(s.queued, w);
    assert QueuedIDs(s.queued)[k] == d.selectedID;
  }

  lemma RunDecides(
      inputs: SchedulingInputs, known: set<string>, now: int, states: seq<SchedulingInputs>, admitted: seq<Admission>,
      a: Admission)
    requires BatchRun(inputs, known, now, states, admitted) && |states| == |admitted| + 1
    requires Justified(states[|admitted|], known, a)
    ensures BatchRun(inputs, known, now, states, admitted + [a])
  {
    var admitted' := admitted + [a];
    assert JustifiedBy(known)(states[|admitted|], a);
    PairedSnoc(JustifiedBy(known), states, admitted, a);
    forall k | 0 <= k < |states| - 1 ensures Applied(states[k], admitted'[k], now, states[k + 1]) {
      assert admitted'[k] == admitted[k];
    }
  }

  lemma RunApplies(
      inputs: SchedulingInputs, known: set<string>, now: int, states: seq<SchedulingInputs>, admitted: seq<Admission>,
      next: SchedulingInputs)
    requires BatchRun(inputs, known, now, states, admitted) && |states| == |admitted|
    requires Applied(states[|states| - 1], admitted[|states| - 1], now, next)
    ensures BatchRun(inputs, known, now, states + [next], admitted)
  {
    var states' := states + [next];
    PairedLonger(JustifiedBy(known), states, next, admitted);
    forall k | 0 <= k < |states'| - 1 ensures Applied(states'[k], admitted[k], now, states'[k + 1]) {
      assert states'[k] == states[k];
      if k < |states| - 1 {
        assert states'[k + 1] == states[k + 1];
      }
    }
  }

  /** The batch so far, with `working` the snapshot for the next selection. */
  ghost predicate Underway(
      inputs: SchedulingInputs, known: set<string>, now: int, states: seq<SchedulingInputs>, admitted: seq<Admission>,
      working: SchedulingInputs)
  {
    && BatchRun(inputs, known, now, states, admitted) && |states| == |admitted| + 1
    && states[|admitted|] == working && ValidInputs(working)
  }

  lemma RunContinues(
      inputs: SchedulingInputs, known: set<string>, now: int, states: seq<SchedulingInputs>, admitted: seq<Admission>,
      working: SchedulingInputs, a: Admission, next: SchedulingInputs)
    requires Underway(inputs, known, now, states, admitted, working) && now != 0
    requires Justified(working, known, a) && Applied(working, a, now, next)
    ensures Underway(inputs, known, now, states + [next], admitted + [a], next)
  {
    RunDecides(inputs, known, now, states, admitted, a);
    RunApplies(inputs, known, now, states, admitted + [a], next);
    AppliedKeepsValid(working, known, a, now, next);
  }

  /** Nothing queued can be admitted any more. */
  ghost predicate Exhausted(s: SchedulingInputs, known: set<string>) {
    forall w | w in s.queued :: !Admissible(s, known, w)
  }

  /** Why a batch of fewer admissions than allowed ended: the last virtual admission failed, or
      nothing further was admissible, unless marking or patching failed. */
  ghost predicate Ended(
      known: set<string>, now: int, states: seq<SchedulingInputs>, admitted: seq<Admission>, environmentFailed: bool)
  {
    var n := |admitted|;
    || (|states| == n > 0 && AfterAdmission(states[n - 1], admitted[n - 1].w, now).Err?)
    || (|states| == n + 1 && (environmentFailed || Exhausted(states[n], known)))
  }

  /** One turn of the loop up to the decision: select, mark victims, patch, look the workload up. */
  method DecideOne(working: SchedulingInputs, known: set<string>, preemptSucceeds: bool, patchSucceeds: bool)
    returns (a: Option<Admission>)
    requires ValidInputs(working)
    ensures a.Some? ==> Justified(working, known, a.value) && a.value.w in working.queued
    ensures a.None? ==> !preemptSucceeds || !patchSucceeds || Exhausted(working, known)
  {
    var d := SelectOneForAdmission(working, known);
    if d.selectedID == "" {
      return None;
    }
    if |d.victims| > 0 && !preemptSucceeds {
      return None;
    }
    if !patchSucceeds {
      return None;
    }
    var found := QueuedWorkloadByID(working, d.selectedID);
    SelectedIsFound(working, known, d, found);
    return Some(Admission(found.value, d.victims));
  }

  /** A whole turn: decide, then admit virtually. */
  method TakeTurn(
      ghost inputs: SchedulingInputs, known: set<string>, now: int, ghost states: seq<SchedulingInputs>,
      ghost admitted: seq<Admission>, working: SchedulingInputs, preemptSucceeds: bool, patchSucceeds: bool)
    returns (a: Option<Admission>, next: Option<SchedulingInputs>)
    requires Underway(inputs, known, now, states, admitted, working) && now != 0
    ensures a.None? ==> Ended(known, now, states, admitted, !preemptSucceeds || !patchSucceeds)
    ensures a.Some? && next.None? ==>
              && BatchRun(inputs, known, now, states, admitted + [a.value])
              && Ended(known, now, states, admitted + [a.value], false)
    ensures a.Some? && next.Some? ==>
              Underway(inputs, known, now, states + [next.value], admitted + [a.value], next.value)
  {
    a := DecideOne(working, known, preemptSucceeds, patchSucceeds);
    if a.None? {
      return a, None;
    }
    var r := ApplyVirtualAdmission(working, a.value.w, now);
    if r.Err? {
      RunDecides(inputs, known, now, states, admitted, a.value);
      return a, None;
    }
    RunContinues(inputs, known, now, states, admitted, working, a.value, r.value);
    return a, Some(r.value);
  }

  /** On every profile, what is admitted is covered by what was free and what is evicted. */
  ghost predicate Conserves(inputs: SchedulingInputs, admitted: seq<Admission>) {
    forall p :: AdmittedOn(admitted, p) <= FreeOn(inputs, p) + EvictedOn(admitted, p)
  }

  lemma BatchConservesEverywhere(
      inputs: SchedulingInputs, known: set<string>, now: int, states: seq<SchedulingInputs>, admitted: seq<Admission>)
    requires ValidInputs(inputs) && now != 0 && BatchRun(inputs, known, now, states, admitted)
    ensures Conserves(inputs, admitted)
  {
    forall p ensures AdmittedOn(admitted, p) <= FreeOn(inputs, p) + EvictedOn(admitted, p) {
      BatchConservesCapacity(inputs, known, now, states, admitted, p);
    }
  }

  /** The loop itself. Whether marking victims and patching the workload succeed is decided by the
      environment, attempt by attempt. */
  method RunBatch(
      inputs: SchedulingInputs, known: set<string>, maxAdmissionsPerCycle: int, now: int,
      preemptSucceeds: nat -> bool, patchSucceeds: nat -> bool)
    returns (admitted: seq<Admission>, ghost states: seq<SchedulingInputs>)
    requires ValidInputs(inputs) && now != 0
    ensures BatchRun(inputs, known, now, states, admitted)
    ensures |admitted| <= if maxAdmissionsPerCycle <= 0 then 1 else maxAdmissionsPerCycle
    ensures |admitted| < (if maxAdmissionsPerCycle <= 0 then 1 else maxAdmissionsPerCycle) ==>
              Ended(known, now, states, admitted, !preemptSucceeds(|admitted|) || !patchSucceeds(|admitted|))
    ensures Conserves(inputs, admitted)
  {
    var maxAdmissions := if maxAdmissionsPerCycle <= 0 then 1 else maxAdmissionsPerCycle;
    admitted := [];
    var working := inputs;
    states := [inputs];
    while |admitted| < maxAdmissions
      invariant |admitted| <= maxAdmissions
      invariant Underway(inputs, known, now, states, admitted, working)
      decreases maxAdmissions - |admitted|
    {
      var a, next := TakeTurn(
        inputs, known, now, states, admitted, working, preemptSucceeds(|admitted|), patchSucceeds(|admitted|));
      if a.None? {
        break;
      }
      admitted := admitted + [a.value];
      if next.None? {
        break;
      }
      working := next.value;
      states := states + [working];
    }
    BatchConservesEverywhere(inputs, known, now, states, admitted);
  }
}
