/** Compatibility, fit and quota checks of internal/scheduler (compat.go, fit.go, fairness.go). */
module Checks {
  import opened Sequences
  import opened Workloads

  /** Whether the kind is one of the eight runtime kinds. */
  predicate Supported(k: Kind) {
    !k.OtherKind?
  }

  /** `known` is the simulator's hardware profile registry. */
  function CompatibleProfileAndKind(w: QueuedWorkload, fleet: FleetFreeCapacity, known: set<string>)
    : (r: Result<()>)
  {
    if !Supported(w.kind) then Err(UnsupportedKind)
    else
      var profile := NormalizeProfile(w.profile);
      if profile == "" then Err(ProfileRequired)
      else if profile !in fleet.byProfile then Err(ProfileNotInFleet)
      else if profile !in known then Err(ProfileUnknown)
      else Ok(())
  }

  function FitsGPUCount(w: QueuedWorkload, fleet: FleetFreeCapacity): (r: Result<bool>) {
    if w.gpuCount <= 0 then Err(CountNotPositive)
    else if w.profile == "" then Err(ProfileRequired)
    else if w.profile !in fleet.byProfile then Err(NoCapacityEntry)
    else Ok(fleet.byProfile[w.profile].freeDevices >= w.gpuCount)
  }

  function FitsPerDeviceMemory(w: QueuedWorkload, fleet: FleetFreeCapacity): (r: Result<bool>) {
    if w.gpuMemoryMiB <= 0 then Err(MemoryNotPositive)
    else if w.profile == "" then Err(ProfileRequired)
    else if w.profile !in fleet.byProfile then Err(NoCapacityEntry)
    else if fleet.byProfile[w.profile].memoryMiBPerDevice <= 0 then Err(MissingDeviceMemory)
    else Ok(fleet.byProfile[w.profile].memoryMiBPerDevice >= w.gpuMemoryMiB)
  }

  // ---------------------------------------------------------------- tenant quota

  function OfTenant(ws: seq<RunningWorkload>, tenant: string): seq<RunningWorkload> {
    if ws == [] then []
    else if ws[0].tenant == tenant then [ws[0]] + OfTenant(ws[1..], tenant)
    else OfTenant(ws[1..], tenant)
  }

  /** GPUs that a list of workloads commits for one tenant. */
  function TenantGPUs(ws: seq<RunningWorkload>, tenant: string): int {
    SumBy(OfTenant(ws, tenant), Gpus)
  }

  lemma {:induction false} TenantGPUsConcat(a: seq<RunningWorkload>, b: seq<RunningWorkload>, tenant: string)
    ensures TenantGPUs(a + b, tenant) == TenantGPUs(a, tenant) + TenantGPUs(b, tenant)
  {
    if a == [] {
      assert a + b == b;
    } else {
      assert (a + b)[1..] == a[1..] + b;
      TenantGPUsConcat(a[1..], b, tenant);
    }
  }

  lemma TenantGPUsOne(w: RunningWorkload, tenant: string)
    ensures TenantGPUs([w], tenant) == if w.tenant == tenant then w.gpuCount else 0
  {
    assert OfTenant([w][1..], tenant) == [];
    assert OfTenant([w], tenant) == if w.tenant == tenant then [w] else [];
    SumBySnoc([], w, Gpus);
    assert [] + [w] == [w];
  }

  /** Usage looked up the way Go reads a map: a missing tenant counts 0. */
  function UsageOf(usage: map<string, int>, tenant: string): int {
    if tenant in usage then usage[tenant] else 0
  }

  method TenantGPUsUsed(running: seq<RunningWorkload>) returns (out: map<string, int>)
    ensures forall t :: UsageOf(out, t) == TenantGPUs(running, t)
    ensures forall t :: t in out <==> exists r | r in running :: r.tenant == t
  {
    out := map[];
    for i := 0 to |running|
      invariant forall t :: UsageOf(out, t) == TenantGPUs(running[..i], t)
      invariant forall t :: t in out <==> exists r | r in running[..i] :: r.tenant == t
    {
      var w := running[i];
      ghost var before := out;
      out := out[w.tenant := UsageOf(out, w.tenant) + w.gpuCount];
      assert running[..i + 1] == running[..i] + [w];
      forall t ensures UsageOf(out, t) == TenantGPUs(running[..i + 1], t) {
        TenantGPUsConcat(running[..i], [w], t);
        TenantGPUsOne(w, t);
        assert UsageOf(before, t) == TenantGPUs(running[..i], t);
      }
    }
    assert running[..|running|] == running;
  }

  predicate ExceedsTenantGPUCap(w: QueuedWorkload, usage: map<string, int>, quotas: map<string, TenantQuota>) {
    w.tenant in quotas && quotas[w.tenant].maxGPUs != 0
    && UsageOf(usage, w.tenant) + w.gpuCount > quotas[w.tenant].maxGPUs
  }
}
