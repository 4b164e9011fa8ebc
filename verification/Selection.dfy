/** The two-pass admission policy of internal/scheduler/selection.go. */
module Selection {
  import opened Sequences
  import opened Workloads
  import opened Checks
  import opened Inputs
  import opened Preemption
  import opened RoundRobin

  predicate Capped(inputs: SchedulingInputs, tenant: string) {
    tenant in inputs.quotas && inputs.quotas[tenant].maxGPUs != 0
  }

  /** The tenant's cap leaves room beside what it has scheduled and running. */
  predicate WithinCap(inputs: SchedulingInputs, w: QueuedWorkload) {
    Capped(inputs, w.tenant) ==>
      TenantGPUs(inputs.scheduled, w.tenant) + TenantGPUs(inputs.running, w.tenant) + w.gpuCount
      <= inputs.quotas[w.tenant].maxGPUs
  }

  predicate Compatible(inputs: SchedulingInputs, known: set<string>, w: QueuedWorkload) {
    CompatibleProfileAndKind(w, inputs.fleet, known).Ok?
  }

  /** First pass: admissible on free capacity alone. */
  predicate FitsNow(inputs: SchedulingInputs, known: set<string>, w: QueuedWorkload) {
    && WithinCap(inputs, w)
    && Compatible(inputs, known, w)
    && FitsGPUCount(w, inputs.fleet) == Ok(true)
    && FitsPerDeviceMemory(w, inputs.fleet) == Ok(true)
  }

  /** Second pass: short of devices, and evictions can make up for it. */
  ghost predicate CanPreempt(inputs: SchedulingInputs, known: set<string>, w: QueuedWorkload) {
    && WithinCap(inputs, w)
    && var c := ContextOf(w, inputs.running, inputs.fleet, known);
       c.Ok? && c.value.Shortfall? && CanFree(c.value.candidates, c.value.needToFree)
  }

  /** Admissible at all: of a kind and on a profile the fleet and the simulator know, small enough for one
      device, no larger than everything free or running on the profile, and within what the tenant's cap
      leaves beside its scheduled and running workloads. */
  predicate Admissible(inputs: SchedulingInputs, known: set<string>, w: QueuedWorkload) {
    && (w.tenant in inputs.quotas && inputs.quotas[w.tenant].maxGPUs != 0 ==>
          TenantGPUs(inputs.scheduled, w.tenant) + TenantGPUs(inputs.running, w.tenant) + w.gpuCount
          <= inputs.quotas[w.tenant].maxGPUs)
    && !w.kind.OtherKind?
    && NormalizeProfile(w.profile) in known && NormalizeProfile(w.profile) in inputs.fleet.byProfile
    && NormalizeProfile(w.profile) != ""
    && w.profile in inputs.fleet.byProfile
    && inputs.fleet.byProfile[w.profile].memoryMiBPerDevice >= w.gpuMemoryMiB
    && w.gpuCount <= inputs.fleet.byProfile[w.profile].freeDevices + SumBy(OfProfile(inputs.running, w.profile), Gpus)
  }

  lemma RunningPositive(inputs: SchedulingInputs)
    requires ValidInputs(inputs)
    ensures forall r | r in inputs.running :: r.gpuCount > 0
  {
    assert forall r | r in inputs.running :: CommittedOk(r, true);
  }

  lemma CandidatesFreeable(inputs: SchedulingInputs, profile: string, need: int)
    requires ValidInputs(inputs)
    ensures CanFree(Candidates(inputs.running, profile), need)
       <==> SumBy(OfProfile(inputs.running, profile), Gpus) >= need
    ensures SumBy(OfProfile(inputs.running, profile), Gpus) >= 0
  {
    RunningPositive(inputs);
    CandidatesNonNegative(inputs.running, profile);
    CanFreeIsSum(Candidates(inputs.running, profile), need);
    CandidatesFacts(inputs.running, profile);
    SumByPermuted(Candidates(inputs.running, profile), OfProfile(inputs.running, profile), Gpus);
    SumByNonNegative(Candidates(inputs.running, profile), Gpus);
  }

  /** A shortfall that evictions can make up for, in numbers. */
  lemma CanPreemptIff(inputs: SchedulingInputs, known: set<string>, w: QueuedWorkload)
    requires ValidInputs(inputs) && w.gpuCount > 0 && w.gpuMemoryMiB > 0 && w.profile != ""
    ensures CanPreempt(inputs, known, w) <==>
              && WithinCap(inputs, w) && Compatible(inputs, known, w) && w.profile in inputs.fleet.byProfile
              && var c := inputs.fleet.byProfile[w.profile];
                 && c.freeDevices < w.gpuCount && c.memoryMiBPerDevice > 0 && c.memoryMiBPerDevice >= w.gpuMemoryMiB
                 && w.gpuCount - c.freeDevices <= SumBy(OfProfile(inputs.running, w.profile), Gpus)
  {
    if w.profile in inputs.fleet.byProfile {
      CandidatesFreeable(inputs, w.profile, w.gpuCount - inputs.fleet.byProfile[w.profile].freeDevices);
    }
  }

  /** The two passes together find every admissible workload. */
  lemma AdmissibleIff(inputs: SchedulingInputs, known: set<string>, w: QueuedWorkload)
    requires ValidInputs(inputs) && w in inputs.queued
    ensures Admissible(inputs, known, w) <==> FitsNow(inputs, known, w) || CanPreempt(inputs, known, w)
    ensures !(FitsNow(inputs, known, w) && CanPreempt(inputs, known, w))
  {
    assert QueuedOk(w);
    assert w.profile != "" by {
      assert Blank("");
    }
    CanPreemptIff(inputs, known, w);
    CandidatesFreeable(inputs, w.profile, 0);
  }

  datatype Decision = Decision(
    selectedID: string, victims: seq<RunningWorkload>, reason: string, message: string, noAdmissionReason: string)

  function FairOrder(inputs: SchedulingInputs): seq<QueuedWorkload> {
    Fair(OrderQueued(inputs.queued), inputs.quotas)
  }

  lemma FairOrderMembers(inputs: SchedulingInputs)
    ensures multiset(FairOrder(inputs)) == multiset(inputs.queued) && |FairOrder(inputs)| == |inputs.queued|
    ensures forall w :: w in FairOrder(inputs) <==> w in inputs.queued
  {
    FairPermutes(OrderQueued(inputs.queued), inputs.quotas);
    forall w ensures w in FairOrder(inputs) <==> w in inputs.queued {
      assert w in FairOrder(inputs) <==> w in multiset(FairOrder(inputs));
      assert w in inputs.queued <==> w in multiset(inputs.queued);
    }
  }

  /** The `i`-th workload in fair order is chosen without evicting anyone. */
  ghost predicate ChosenToFit(inputs: SchedulingInputs, known: set<string>, d: Decision, i: nat) {
    var fair := FairOrder(inputs);
    && i < |fair| && FitsNow(inputs, known, fair[i])
    && (forall j | 0 <= j < i :: !FitsNow(inputs, known, fair[j]))
    && d == Decision(fair[i].workloadID, [], "SelectedForAdmission",
                     "Scheduler selected this workload for admission", "")
  }

  /** The `i`-th workload in fair order is chosen, nothing fits without evictions, and the victims
      are those of the greedy selector. */
  ghost predicate ChosenToPreempt(inputs: SchedulingInputs, known: set<string>, d: Decision, i: nat) {
    var fair := FairOrder(inputs);
    && i < |fair| && CanPreempt(inputs, known, fair[i])
    && (forall j | 0 <= j < |fair| :: !FitsNow(inputs, known, fair[j]))
    && (forall j | 0 <= j < i :: !CanPreempt(inputs, known, fair[j]))
    && d.victims != []
    && GreedyAnswer(fair[i], inputs.running, inputs.fleet, known, Ok(d.victims))
    && d == Decision(fair[i].workloadID, d.victims, "AdmittedWithPreemption",
                     "Scheduler selected this workload for admission with preemption", "")
  }

  ghost predicate NothingChosen(inputs: SchedulingInputs, known: set<string>, d: Decision) {
    && (forall w | w in inputs.queued :: !Admissible(inputs, known, w))
    && d == Decision("", [], "", "",
                     if inputs.queued == [] then ""
                     else if forall w | w in inputs.queued :: !WithinCap(inputs, w) then "quota"
                     else "no_fit")
  }

  // ---------------------------------------------------------------- one tenant's workloads

  lemma {:induction false} RankedItems(q: seq<QueuedWorkload>, t: string)
    requires Ranked(q)
    ensures Ranked(Items(q, t))
  {
    if q != [] {
      RankedItems(q[1..], t);
      forall w | w in Items(q[1..], t)
        ensures q[0].priority >= w.priority && (q[0].priority == w.priority ==> q[0].queuedAt <= w.queuedAt)
      {
        ItemsWithin(q[1..], t, w);
        var i := IndexOf(q[1..], w);
        assert q[i + 1] == w;
      }
    }
  }

  lemma {:induction false} ItemsWithin(q: seq<QueuedWorkload>, t: string, w: QueuedWorkload)
    requires w in Items(q, t)
    ensures w in q
  {
    if w in Items(q[1..], t) {
      ItemsWithin(q[1..], t, w);
    }
  }

  /** Of two workloads of one tenant the earlier one in `f` is preferred, if the tenant's own list is ranked. */
  lemma {:induction false} RankedBack(f: seq<QueuedWorkload>, t: string, i: nat, j: nat)
    requires Ranked(Items(f, t)) && i < j < |f| && f[i].tenant == f[j].tenant == t
    ensures f[i].priority >= f[j].priority
    ensures f[i].priority == f[j].priority ==> f[i].queuedAt <= f[j].queuedAt
  {
    var mine, rest := Items(f, t), Items(f[1..], t);
    if i == 0 {
      ItemsMembers(f[1..], t);
      assert f[1..][j - 1] == f[j] && f[j] in rest;
      var k := IndexOf(rest, f[j]);
      assert mine[0] == f[0] && mine[k + 1] == f[j];
    } else {
      if f[0].tenant == t {
        assert mine[1..] == rest;
        RankedTail(mine);
      }
      RankedBack(f[1..], t, i - 1, j - 1);
    }
  }

  lemma RankedTail(s: seq<QueuedWorkload>)
    requires Ranked(s) && s != []
    ensures Ranked(s[1..])
  {
    forall i, j | 0 <= i < j < |s[1..]| ensures s[1..][i].priority >= s[1..][j].priority {
      assert s[i + 1].priority >= s[j + 1].priority;
    }
    forall i, j | 0 <= i < j < |s[1..]| && s[1..][i].priority == s[1..][j].priority
      ensures s[1..][i].queuedAt <= s[1..][j].queuedAt
    {
      assert s[i + 1].queuedAt <= s[j + 1].queuedAt;
    }
  }

  /** In fair order each tenant's workloads come by falling priority, then by arrival. */
  lemma FairWithinTenant(inputs: SchedulingInputs, i: nat, j: nat)
    requires i <= j < |FairOrder(inputs)| && FairOrder(inputs)[i].tenant == FairOrder(inputs)[j].tenant
    ensures FairOrder(inputs)[i].priority >= FairOrder(inputs)[j].priority
    ensures FairOrder(inputs)[i].priority == FairOrder(inputs)[j].priority ==>
              FairOrder(inputs)[i].queuedAt <= FairOrder(inputs)[j].queuedAt
  {
    if i < j {
      var ordered, t := OrderQueued(inputs.queued), FairOrder(inputs)[i].tenant;
      assert Ranked(ordered);
      RankedItems(ordered, t);
      FairKeepsTenantOrder(ordered, inputs.quotas, t);
      RankedBack(FairOrder(inputs), t, i, j);
    }
  }

  /** No workload of the same tenant that was eligible the same way outranks `s` or, at its priority, was
      queued before it. */
  ghost predicate NonePassedOver(
      inputs: SchedulingInputs, known: set<string>, s: QueuedWorkload, evicting: bool)
  {
    forall w | w in inputs.queued && w.tenant == s.tenant
               && (if evicting then CanPreempt(inputs, known, w) else FitsNow(inputs, known, w)) ::
      w.priority < s.priority || (w.priority == s.priority && w.queuedAt >= s.queuedAt)
  }

  lemma FirstIsPreferred(inputs: SchedulingInputs, known: set<string>, i: nat, evicting: bool)
    requires i < |FairOrder(inputs)|
    requires forall j | 0 <= j < i ::
               if evicting then !CanPreempt(inputs, known, FairOrder(inputs)[j])
               else !FitsNow(inputs, known, FairOrder(inputs)[j])
    ensures NonePassedOver(inputs, known, FairOrder(inputs)[i], evicting)
  {
    var fair := FairOrder(inputs);
    var s := fair[i];
    FairOrderMembers(inputs);
    forall w | w in inputs.queued && w.tenant == s.tenant
               && (if evicting then CanPreempt(inputs, known, w) else FitsNow(inputs, known, w))
      ensures w.priority < s.priority || (w.priority == s.priority && w.queuedAt >= s.queuedAt)
    {
      var j := IndexOf(fair, w);
      assert i <= j;
      FairWithinTenant(inputs, i, j);
    }
  }

  lemma PreemptionAnswer(
      inputs: SchedulingInputs, known: set<string>, w: QueuedWorkload, g: Result<seq<RunningWorkload>>)
    requires WithinCap(inputs, w) && Compatible(inputs, known, w)
    requires GreedyAnswer(w, inputs.running, inputs.fleet, known, g)
    ensures g.Ok? && g.value != [] <==> CanPreempt(inputs, known, w)
  {
    ShortfallFacts(w, inputs.running, inputs.fleet, known);
  }

  /** The usage map answers the cap question for every workload. */
  ghost predicate CountsUsage(inputs: SchedulingInputs, usage: map<string, int>) {
    forall w :: ExceedsTenantGPUCap(w, usage, inputs.quotas) <==> !WithinCap(inputs, w)
  }

  lemma UsageCounts(inputs: SchedulingInputs, usage: map<string, int>)
    requires forall t :: UsageOf(usage, t) == TenantGPUs(inputs.scheduled + inputs.running, t)
    ensures CountsUsage(inputs, usage)
  {
    forall w ensures ExceedsTenantGPUCap(w, usage, inputs.quotas) <==> !WithinCap(inputs, w) {
      TenantGPUsConcat(inputs.scheduled, inputs.running, w.tenant);
    }
  }

  /** First pass: the first workload that fits without preemption. */
  method FirstThatFits(inputs: SchedulingInputs, known: set<string>, fair: seq<QueuedWorkload>, usage: map<string, int>)
    returns (r: Option<nat>)
    requires CountsUsage(inputs, usage)
    ensures r.Some? ==> r.value < |fair| && FitsNow(inputs, known, fair[r.value])
    ensures forall j | 0 <= j < (if r.Some? then r.value else |fair|) :: !FitsNow(inputs, known, fair[j])
  {
    for i := 0 to |fair|
      invariant forall j | 0 <= j < i :: !FitsNow(inputs, known, fair[j])
    {
      var w := fair[i];
      if ExceedsTenantGPUCap(w, usage, inputs.quotas) {
        continue;
      }
      if CompatibleProfileAndKind(w, inputs.fleet, known).Err? {
        continue;
      }
      var count := FitsGPUCount(w, inputs.fleet);
      if count.Err? || !count.value {
        continue;
      }
      var memory := FitsPerDeviceMemory(w, inputs.fleet);
      if memory.Err? || !memory.value {
        continue;
      }
      return Some(i);
    }
    return None;
  }

  /** Second pass: the first workload that evictions can admit, with its victims. */
  method FirstToPreempt(
      inputs: SchedulingInputs, known: set<string>, fair: seq<QueuedWorkload>, usage: map<string, int>)
    returns (r: Option<nat>, victims: seq<RunningWorkload>)
    requires CountsUsage(inputs, usage)
    ensures r.Some? ==>
              && r.value < |fair| && CanPreempt(inputs, known, fair[r.value]) && victims != []
              && GreedyAnswer(fair[r.value], inputs.running, inputs.fleet, known, Ok(victims))
    ensures forall j | 0 <= j < (if r.Some? then r.value else |fair|) :: !CanPreempt(inputs, known, fair[j])
  {
    for i := 0 to |fair|
      invariant forall j | 0 <= j < i :: !CanPreempt(inputs, known, fair[j])
    {
      var w := fair[i];
      if ExceedsTenantGPUCap(w, usage, inputs.quotas) {
        continue;
      }
      if CompatibleProfileAndKind(w, inputs.fleet, known).Err? {
        continue;
      }
      var answer := SelectPreemptionVictimsGreedyMinimal(w, inputs.running, inputs.fleet, known);
      PreemptionAnswer(inputs, known, w, answer);
      if answer.Ok? && |answer.value| > 0 {
        assert answer == Ok(answer.value);
        return Some(i), answer.value;
      }
    }
    return None, [];
  }

  /** Whether the cap alone explains that nothing was admitted. */
  method AllOverCap(inputs: SchedulingInputs, fair: seq<QueuedWorkload>, usage: map<string, int>) returns (all: bool)
    requires CountsUsage(inputs, usage)
    ensures all <==> forall j | 0 <= j < |fair| :: !WithinCap(inputs, fair[j])
  {
    for i := 0 to |fair|
      invariant forall j | 0 <= j < i :: !WithinCap(inputs, fair[j])
    {
      if !ExceedsTenantGPUCap(fair[i], usage, inputs.quotas) {
        return false;
      }
    }
    return true;
  }

  lemma NothingAdmissible(inputs: SchedulingInputs, known: set<string>)
    requires ValidInputs(inputs)
    requires forall j | 0 <= j < |FairOrder(inputs)| ::
               !FitsNow(inputs, known, FairOrder(inputs)[j]) && !CanPreempt(inputs, known, FairOrder(inputs)[j])
    ensures forall w | w in inputs.queued :: !Admissible(inputs, known, w)
  {
    FairOrderMembers(inputs);
    forall w | w in inputs.queued ensures !Admissible(inputs, known, w) {
      AdmissibleIff(inputs, known, w);
      var i := IndexOf(FairOrder(inputs), w);
    }
  }

  lemma ChosenIsAdmissible(inputs: SchedulingInputs, known: set<string>, i: nat)
    requires ValidInputs(inputs) && i < |FairOrder(inputs)|
    requires FitsNow(inputs, known, FairOrder(inputs)[i]) || CanPreempt(inputs, known, FairOrder(inputs)[i])
    ensures FairOrder(inputs)[i] in inputs.queued && FairOrder(inputs)[i].workloadID != ""
    ensures Admissible(inputs, known, FairOrder(inputs)[i])
  {
    FairOrderMembers(inputs);
    QueuedNamed(inputs);
    AdmissibleIff(inputs, known, FairOrder(inputs)[i]);
  }

  lemma OverCapEverywhere(inputs: SchedulingInputs)
    ensures (forall j | 0 <= j < |FairOrder(inputs)| :: !WithinCap(inputs, FairOrder(inputs)[j]))
       <==> (forall w | w in inputs.queued :: !WithinCap(inputs, w))
  {
    FairOrderMembers(inputs);
    var fair := FairOrder(inputs);
    if forall j | 0 <= j < |fair| :: !WithinCap(inputs, fair[j]) {
      forall w | w in inputs.queued ensures !WithinCap(inputs, w) {
        var i := IndexOf(fair, w);
      }
    }
  }

  /** Selects exactly when something is admissible, in fair order, preferring free capacity. */
  method SelectOneForAdmission(inputs: SchedulingInputs, known: set<string>) returns (d: Decision)
    requires ValidInputs(inputs)
    ensures d.selectedID != "" ==>
              exists i: nat :: ChosenToFit(inputs, known, d, i) || ChosenToPreempt(inputs, known, d, i)
    ensures d.selectedID == "" ==> NothingChosen(inputs, known, d)
    ensures d.selectedID != "" <==> exists w | w in inputs.queued :: Admissible(inputs, known, w)
    ensures d.selectedID != "" ==>
              exists s | s in inputs.queued ::
                && s.workloadID == d.selectedID && Admissible(inputs, known, s)
                && NonePassedOver(inputs, known, s, d.victims != [])
    ensures d.noAdmissionReason == "quota" <==>
              && inputs.queued != []
              && forall w | w in inputs.queued ::
                   && w.tenant in inputs.quotas && inputs.quotas[w.tenant].maxGPUs != 0
                   && TenantGPUs(inputs.scheduled, w.tenant) + TenantGPUs(inputs.running, w.tenant) + w.gpuCount
                      > inputs.quotas[w.tenant].maxGPUs
  {
    var ordered := OrderQueued(inputs.queued);
    var fair := WeightedRoundRobinByTenant(ordered, inputs.quotas);
    var usage := TenantGPUsUsed(inputs.scheduled + inputs.running);
    UsageCounts(inputs, usage);

    var fits := FirstThatFits(inputs, known, fair, usage);
    if fits.Some? {
      d := Decision(fair[fits.value].workloadID, [], "SelectedForAdmission",
                    "Scheduler selected this workload for admission", "");
      ChosenIsAdmissible(inputs, known, fits.value);
      assert ChosenToFit(inputs, known, d, fits.value);
      FirstIsPreferred(inputs, known, fits.value, false);
      return;
    }

    var preempts, victims := FirstToPreempt(inputs, known, fair, usage);
    if preempts.Some? {
      d := Decision(fair[preempts.value].workloadID, victims, "AdmittedWithPreemption",
                    "Scheduler selected this workload for admission with preemption", "");
      ChosenIsAdmissible(inputs, known, preempts.value);
      assert ChosenToPreempt(inputs, known, d, preempts.value);
      FirstIsPreferred(inputs, known, preempts.value, true);
      return;
    }

    NothingAdmissible(inputs, known);
    FairOrderMembers(inputs);
    if |fair| == 0 {
      return Decision("", [], "", "", "");
    }
    var allSkippedDueToQuota := AllOverCap(inputs, fair, usage);
    OverCapEverywhere(inputs);
    if allSkippedDueToQuota {
      return Decision("", [], "", "", "quota");
    }
    return Decision("", [], "", "", "no_fit");
  }

  lemma QueuedNamed(inputs: SchedulingInputs)
    requires ValidInputs(inputs)
    ensures forall w | w in inputs.queued :: w.workloadID != ""
  {
    forall w | w in inputs.queued ensures w.workloadID != "" {
      assert QueuedOk(w);
      assert Blank("");
    }
  }
}
