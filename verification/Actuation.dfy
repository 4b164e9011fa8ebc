/** Actuation of an admitted workload: executeAdmission of
    internal/controller/gpuworkload_controller.go, retried while status writes fail. */
module Actuation {
  import opened Sequences
  import opened Phases
  import opened Placement
  import opened AcceleratorSim

  /** What the API server stores of the workload. */
  class Record {
    var phase: Phase

    constructor (p: Phase)
      ensures phase == p
    {
      phase := p;
    }

    /** A status write; the environment decides whether it succeeds. */
    method UpdateStatus(p: Phase, succeeds: bool) returns (ok: bool)
      modifies this
      ensures ok == succeeds
      ensures phase == if succeeds then p else old(phase)
    {
      if succeeds {
        phase := p;
      }
      return succeeds;
    }
  }

  /** The request of one workload: what it asks of the simulator. */
  datatype Request = Request(
    id: string, gpuCount: int, memMiB: int, profile: string, inputAccepted: bool, estimate: nat -> Option<int>)

  function OptionsOf(q: Request): Options {
    AdmissionOptions(q.profile)
  }

  // ---------------------------------------------------------------- at most one of each

  /** Since `s0` the workload was given at most one allocation, placed as it would have been then. */
  ghost predicate AllocatedAtMostOnce(s0: Sim, allocations: map<string, seq<string>>, q: Request) {
    || allocations == s0.allocations
    || (q.id !in s0.allocations && exists ids :: AllocatedOnce(s0, allocations, q, ids))
  }

  ghost predicate AllocatedOnce(s0: Sim, allocations: map<string, seq<string>>, q: Request, ids: seq<string>) {
    && Reservable(s0, q.gpuCount, q.memMiB, OptionsOf(q), ids)
    && allocations == s0.allocations[q.id := ids]
  }

  /** Since `s0` at most one run was started, and only if none was running. */
  ghost predicate StartedAtMostOnce(s0: Sim, runs: map<string, Run>, nextRunID: nat, q: Request) {
    || (runs == s0.runs && nextRunID == s0.nextRunID)
    || (&& (forall id :: !IsRunning(s0.runs, q.id, id))
        && nextRunID == s0.nextRunID + 1
        && exists r: Run :: StartedOnce(s0, runs, q, r))
  }

  ghost predicate StartedOnce(s0: Sim, runs: map<string, Run>, q: Request, r: Run) {
    r.workloadID == q.id && r.status == RunRunning && runs == s0.runs[RunName(s0.nextRunID + 1) := r]
  }

  ghost predicate AtMostOneOfEach(s0: Sim, s: Sim, q: Request) {
    && s.pools == s0.pools
    && AllocatedAtMostOnce(s0, s.allocations, q)
    && StartedAtMostOnce(s0, s.runs, s.nextRunID, q)
  }

  /** Placement looks at pools and allocations only. */
  lemma ReservableDependsOn(s: Sim, s': Sim, gpuCount: int, memMiB: int, opts: Options, ids: seq<string>)
    requires s.pools == s'.pools && s.allocations == s'.allocations && Reservable(s, gpuCount, memMiB, opts, ids)
    ensures Reservable(s', gpuCount, memMiB, opts, ids)
  {
    var order :| PlacementAnswer(s, gpuCount, memMiB, opts, order, Devices(ids));
    assert UsedDevices(s) == UsedDevices(s');
    assert PlacementAnswer(s', gpuCount, memMiB, opts, order, Devices(ids));
  }

  /** An allocation made for a workload that has none is the first. */
  lemma AllocateOnce(s0: Sim, s: Sim, q: Request, ids: seq<string>)
    requires AtMostOneOfEach(s0, s, q) && q.id !in s.allocations
    requires Reservable(s, q.gpuCount, q.memMiB, OptionsOf(q), ids)
    ensures AtMostOneOfEach(s0, Reserve(s, q.id, ids), q)
  {
    assert s.allocations == s0.allocations;
    ReservableDependsOn(s, s0, q.gpuCount, q.memMiB, OptionsOf(q), ids);
    assert AllocatedOnce(s0, Reserve(s, q.id, ids).allocations, q, ids);
  }

  ghost predicate HasRunning(runs: map<string, Run>, w: string) {
    exists id :: IsRunning(runs, w, id)
  }

  lemma FirstOrRunning(s0: Sim, runs: map<string, Run>, nextRunID: nat, q: Request)
    requires StartedAtMostOnce(s0, runs, nextRunID, q)
    ensures (runs == s0.runs && nextRunID == s0.nextRunID) || HasRunning(runs, q.id)
  {
    if r: Run :| StartedOnce(s0, runs, q, r) {
      assert IsRunning(runs, q.id, RunName(s0.nextRunID + 1));
    }
  }

  /** A run started for a workload that has none running is the first. */
  lemma StartOnce(s0: Sim, s: Sim, q: Request, now: int, seconds: int, s': Sim)
    requires AtMostOneOfEach(s0, s, q) && Step(s, Start(q.id, now, seconds), s')
    ensures AtMostOneOfEach(s0, s', q)
  {
    if s' != s {
      FirstOrRunning(s0, s.runs, s.nextRunID, q);
      assert StartedOnce(s0, s'.runs, q, Run(q.id, now, now + seconds, RunRunning));
    }
  }

  lemma StartKeepsRunning(s: Sim, w: string, now: int, seconds: int, s': Sim)
    requires Step(s, Start(w, now, seconds), s')
    ensures HasRunning(s.runs, w) ==> HasRunning(s'.runs, w)
    ensures s' != s ==> HasRunning(s'.runs, w)
  {
    if s' != s {
      assert IsRunning(s'.runs, w, RunName(s.nextRunID + 1));
    }
  }

  // ---------------------------------------------------------------- one attempt

  predicate WellFormed(q: Request) {
    q.id != "" && q.gpuCount > 0 && q.memMiB > 0 && q.inputAccepted
  }

  predicate HasDevices(allocations: map<string, seq<string>>, w: string) {
    w in allocations && allocations[w] != []
  }

  /** Reserve; an allocation made before is no error. */
  method ReserveFor(sim: Simulator, q: Request, ghost s0: Sim) returns (ok: bool)
    requires AtMostOneOfEach(s0, sim.Value(), q)
    modifies sim
    ensures AtMostOneOfEach(s0, sim.Value(), q) && sim.runs == old(sim.runs)
    ensures ok ==> q.id in sim.allocations
    ensures WellFormed(q) ==> (ok <==> q.id in sim.allocations)
  {
    ghost var before := sim.Value();
    var allocation := sim.AllocateWithOptions(q.id, q.gpuCount, q.memMiB, OptionsOf(q));
    if allocation.Allocated? {
      AllocateOnce(s0, before, q, allocation.ids);
    }
    return allocation.Allocated? || allocation.AlreadyAllocated?;
  }

  /** Start; a run started before is no error. */
  method StartFor(sim: Simulator, q: Request, now: int, ghost s0: Sim) returns (ok: bool)
    requires AtMostOneOfEach(s0, sim.Value(), q)
    modifies sim
    ensures AtMostOneOfEach(s0, sim.Value(), q) && sim.allocations == old(sim.allocations)
    ensures HasRunning(old(sim.runs), q.id) ==> HasRunning(sim.runs, q.id)
    ensures ok ==> HasDevices(sim.allocations, q.id) && HasRunning(sim.runs, q.id)
    ensures WellFormed(q) ==> (ok <==> HasDevices(sim.allocations, q.id) && HasRunning(sim.runs, q.id))
  {
    ghost var before := sim.Value();
    var started := sim.StartWithRuntimeInput(q.id, q.inputAccepted, q.estimate, now);
    ghost var seconds :| Step(before, Start(q.id, now, seconds), sim.Value());
    StartOnce(s0, before, q, now, seconds, sim.Value());
    StartKeepsRunning(before, q.id, now, seconds, sim.Value());
    return started.Started? || started.AlreadyRunning?;
  }

  /** `local` is the phase in the fetched copy; the two flags say whether the writes of Scheduled and
      Running would succeed. */
  method ExecuteAdmission(
      sim: Simulator, record: Record, q: Request, local: Phase, now: int,
      scheduledWrite: bool, runningWrite: bool, ghost s0: Sim)
    returns (ok: bool)
    requires AtMostOneOfEach(s0, sim.Value(), q)
    modifies sim, record
    ensures AtMostOneOfEach(s0, sim.Value(), q)
    ensures HasRunning(old(sim.runs), q.id) ==> HasRunning(sim.runs, q.id)
    ensures ok ==> HasRunning(sim.runs, q.id) && q.id in sim.allocations
    ensures record.phase == Running ==> old(record.phase) == Running || HasRunning(sim.runs, q.id)
    ensures ok ==> record.phase == Running
    ensures WellFormed(q) && (local == Scheduled || scheduledWrite) && runningWrite ==>
              (ok <==> HasDevices(sim.allocations, q.id) && HasRunning(sim.runs, q.id))
    ensures !ok && local == Scheduled ==> record.phase == old(record.phase)
  {
    var phase := local;
    if phase != Scheduled {
      phase := Scheduled;
      var written := record.UpdateStatus(phase, scheduledWrite);
      if !written {
        return false;
      }
    }
    var reserved := ReserveFor(sim, q, s0);
    if !reserved {
      return false;
    }
    var started := StartFor(sim, q, now, s0);
    if !started {
      return false;
    }
    if phase != Running {
      phase := Running;
      ok := record.UpdateStatus(phase, runningWrite);
      return;
    }
    return true;
  }

  // ---------------------------------------------------------------- any number of attempts

  /** One attempt: when it happens, and whether its write would reach the API server. */
  datatype Attempt = Attempt(now: int, reachesServer: bool)

  /** Any number of attempts one after another, by reconcilers whose caches still show Scheduled. The final
      write carries the version read, so it can succeed only while the record is still Scheduled. At
      most one allocation and one run come of it, and the record says Running only once a run
      exists. Attempts that overlap are the subject of module Races. */
  method RetryAdmission(sim: Simulator, record: Record, q: Request, attempts: seq<Attempt>)
    requires record.phase == Scheduled
    modifies sim, record
    ensures AtMostOneOfEach(old(sim.Value()), sim.Value(), q)
    ensures record.phase in {Scheduled, Running}
    ensures record.phase == Running ==> HasRunning(sim.runs, q.id)
    ensures sim.nextRunID <= old(sim.nextRunID) + 1
  {
    for i := 0 to |attempts|
      invariant AtMostOneOfEach(old(sim.Value()), sim.Value(), q)
      invariant record.phase in {Scheduled, Running}
      invariant record.phase == Running ==> HasRunning(sim.runs, q.id)
    {
      var current := record.phase == Scheduled;
      var done := ExecuteAdmission(sim, record, q, Scheduled, attempts[i].now, true,
                                   attempts[i].reachesServer && current, old(sim.Value()));
    }
  }

  // ---------------------------------------------------------------- evictions

  /** Namespace and name can be told apart. */
  predicate Addressable(id: string) {
    exists i | 0 < i < |id| - 1 :: id[i] == '/' && '/' !in id[..i]
  }

  function AddressableIn(victims: seq<string>): set<string> {
    set v | v in victims && Addressable(v)
  }

  /** Holds no devices and runs nothing. */
  ghost predicate Cleared(s: Sim, w: string) {
    w !in s.allocations && !HasRunning(s.runs, w)
  }

  lemma EvictionClears(s: Sim, mid: Sim, s': Sim, v: string)
    requires Valid(s) && Step(s, Preempt(v), mid) && Step(mid, Release(v), s')
    ensures Valid(s') && Cleared(s', v) && s'.pools == s.pools && s'.allocations == s.allocations - {v}
    ensures forall w | Cleared(s, w) :: Cleared(s', w)
  {
    StepKeepsValid(s, Preempt(v), mid);
    StepKeepsValid(mid, Release(v), s');
    PreemptStopsWorkload(s, v, mid);
    forall w, id | IsRunning(s'.runs, w, id) ensures IsRunning(s.runs, w, id) {
    }
  }

  lemma AddressableSnoc(victims: seq<string>, v: string)
    ensures AddressableIn(victims + [v]) == AddressableIn(victims) + if Addressable(v) then {v} else {}
  {
  }

  /** No two names share a record. */
  ghost predicate OwnRecords(records: map<string, Record>) {
    forall a, b | a in records && b in records && records[a] == records[b] :: a == b
  }

  /** Nothing to do if the record is gone or already marked. */
  method MarkPreempted(records: map<string, Record>, v: string, write: bool) returns (ok: bool)
    requires OwnRecords(records)
    modifies records.Values
    ensures forall u | u in records :: records[u].phase == if ok && u == v then Preempted else old(records[u].phase)
    ensures !ok ==> v in records && !write && records[v].phase != Preempted
  {
    if v in records && records[v].phase != Preempted {
      ok := records[v].UpdateStatus(Preempted, write);
      return;
    }
    return true;
  }

  method PreemptAndRelease(sim: Simulator, v: string)
    requires Valid(sim.Value()) && v != ""
    modifies sim
    ensures Valid(sim.Value()) && sim.pools == old(sim.pools) && sim.allocations == old(sim.allocations) - {v}
    ensures Cleared(sim.Value(), v) && forall w | Cleared(old(sim.Value()), w) :: Cleared(sim.Value(), w)
  {
    sim.PreemptWorkload(v);
    ghost var mid := sim.Value();
    sim.ReleaseWorkload(v);
    EvictionClears(old(sim.Value()), mid, sim.Value(), v);
  }

  /** Marks the record of each victim that still has one, then stops its run and frees its devices;
      gives up at the first write that fails. The first `n` victims have been dealt with. */
  method MarkVictimsPreemptedAndRelease(
      sim: Simulator, victims: seq<string>, records: map<string, Record>, writes: nat -> bool)
    returns (ok: bool, ghost n: nat)
    requires Valid(sim.Value()) && OwnRecords(records)
    modifies sim, records.Values
    ensures Valid(sim.Value()) && sim.pools == old(sim.pools) && n <= |victims|
    ensures sim.allocations == old(sim.allocations) - AddressableIn(victims[..n])
    ensures forall v | v in AddressableIn(victims[..n]) :: Cleared(sim.Value(), v)
    ensures forall v | v in records ::
              records[v].phase == if v in AddressableIn(victims[..n]) then Preempted else old(records[v].phase)
    ensures if ok then n == |victims|
            else n < |victims| && Addressable(victims[n]) && victims[n] in records && !writes(n)
                 && records[victims[n]].phase != Preempted
  {
    for i := 0 to |victims|
      invariant Valid(sim.Value()) && sim.pools == old(sim.pools)
      invariant sim.allocations == old(sim.allocations) - AddressableIn(victims[..i])
      invariant forall v | v in AddressableIn(victims[..i]) :: Cleared(sim.Value(), v)
      invariant forall v | v in records ::
                  records[v].phase == if v in AddressableIn(victims[..i]) then Preempted else old(records[v].phase)
    {
      var v := victims[i];
      assert victims[..i + 1] == victims[..i] + [v];
      AddressableSnoc(victims[..i], v);
      if !Addressable(v) {
        continue;
      }
      var marked := MarkPreempted(records, v, writes(i));
      if !marked {
        return false, i;
      }
      PreemptAndRelease(sim, v);
    }
    return true, |victims|;
  }
}
