/** The phase protocol and the simulator together: what a phase says about the runs and devices the
    simulator holds (internal/controller/gpuworkload_controller.go, internal/controller/scheduler_loop.go). */
module Lifecycle {
  import opened Sequences
  import opened Phases
  import opened AcceleratorSim
  import opened Actuation
  import opened Capacity
  import P = PhaseProtocol

  datatype System = System(p: P.State, sim: Sim)

  datatype Act =
    | Proto(step: P.Step)                            // a step of the phase protocol
    | ReserveAs(n: nat, gpuCount: int, memMiB: int, profile: string)   // reconciler n, executing an admission
    | BeginAs(n: nat, now: int, seconds: int)        // the same, starting the run
    | PollAs(n: nat, now: int)                       // reconciler n, polling a running workload
    | TidyAs(n: nat)                                 // reconciler n, releasing a terminal or deleting workload
    | Clear(id: string)                              // the loop, stopping and releasing a victim it has marked
    | Pools(op: Op)                                  // pools come and go

  ghost predicate LockOutcome(s: Sim, id: string, gpuCount: int, memMiB: int, opts: Options, s': Sim) {
    exists r :: Placed(s, gpuCount, memMiB, opts, r) && s' == if r.Allocated? then Reserve(s, id, r.ids) else s
  }

  /** An allocation: refused by its unlocked checks, or what the locked part makes of it. That the workload
      already has one is only a reason to refuse if it was so when the checks were made. */
  ghost predicate Reserves(s: Sim, id: string, gpuCount: int, memMiB: int, opts: Options, s': Sim) {
    match Refusal(s, id, gpuCount, memMiB, opts)
    case None => LockOutcome(s, id, gpuCount, memMiB, opts, s')
    case Some(why) => s' == s || (why.AlreadyAllocated? && LockOutcome(s, id, gpuCount, memMiB, opts, s'))
  }

  /** Reconciler `n` holds a version of `id`, possibly an old one, in one of these phases. */
  predicate HoldsPhase(p: P.State, n: nat, id: string, phases: set<Phase>) {
    var a := P.Reconciler(n);
    P.HoldsVersion(p, a) && P.Held(p, a).id == id && P.Held(p, a).phase in phases
  }

  function HeldID(p: P.State, n: nat): string {
    var a := P.Reconciler(n);
    if P.HoldsVersion(p, a) then P.Held(p, a).id else ""
  }

  predicate Actuates(p: P.State, n: nat) {
    && HoldsPhase(p, n, HeldID(p, n), {Scheduled})
    && !P.Held(p, P.Reconciler(n)).deleting && P.Held(p, P.Reconciler(n)).finalizer
  }

  ghost predicate IsLive(p: P.State, id: string, phase: Phase) {
    id in p.live && p.live[id] < |p.log| && p.log[p.live[id]].phase == phase
  }

  ghost predicate WasPreempted(p: P.State, id: string) {
    exists v | 0 <= v < |p.log| :: p.log[v].id == id && p.log[v].phase == Preempted
  }

  /** The status of a run that makes the poller write a phase. */
  function StatusOf(phase: Phase): Option<Status> {
    match phase
    case Succeeded => Some(RunSucceeded)
    case Failed => Some(RunFailed)
    case Preempted => Some(RunPreempted)
    case _ => None
  }

  ghost predicate HasRunOf(runs: map<string, Run>, w: string, st: Status) {
    exists r | r in runs :: runs[r].workloadID == w && runs[r].status == st
  }

  /** Saying Running takes a running run; saying how it ended takes a run that ended so. */
  ghost predicate Backed(s: System, step: P.Step) {
    match step
    case StartRun(a) => P.HoldsVersion(s.p, a) && HasRunning(s.sim.runs, P.Held(s.p, a).id)
    case Write(a, Finish(target)) =>
      && P.HoldsVersion(s.p, a) && StatusOf(target).Some?
      && HasRunOf(s.sim.runs, P.Held(s.p, a).id, StatusOf(target).value)
    case _ => true
  }

  ghost predicate Acts(s: System, act: Act, s': System) {
    match act
    case Proto(step) => P.Enabled(s.p, step) && Backed(s, step) && s' == s.(p := P.Next(s.p, step))
    case ReserveAs(n, gpuCount, memMiB, profile) =>
      && Actuates(s.p, n) && s' == s.(sim := s'.sim)
      && Reserves(s.sim, HeldID(s.p, n), gpuCount, memMiB, AdmissionOptions(profile), s'.sim)
    case BeginAs(n, now, seconds) =>
      Actuates(s.p, n) && s' == s.(sim := s'.sim) && Step(s.sim, Start(HeldID(s.p, n), now, seconds), s'.sim)
    case PollAs(n, now) =>
      && HoldsPhase(s.p, n, HeldID(s.p, n), {Running})
      && s' == s.(sim := s'.sim) && Step(s.sim, PollLatest(HeldID(s.p, n), now), s'.sim)
    case TidyAs(n) =>
      && P.HoldsVersion(s.p, P.Reconciler(n))
      && (Terminal(P.Held(s.p, P.Reconciler(n)).phase) || P.Held(s.p, P.Reconciler(n)).deleting)
      && s' == s.(sim := s'.sim) && Step(s.sim, Release(HeldID(s.p, n)), s'.sim)
    case Clear(id) =>
      && (id in s.p.live ==> WasPreempted(s.p, id))
      && s' == s.(sim := s'.sim) && exists mid :: Step(s.sim, Preempt(id), mid) && Step(mid, Release(id), s'.sim)
    case Pools(op) => (op.Register? || op.Delete?) && s' == s.(sim := s'.sim) && Step(s.sim, op, s'.sim)
  }

  ghost function ActsOf(): (System, Act, System) -> bool {
    (s: System, act: Act, s': System) => Acts(s, act, s')
  }

  /** Any interleaving of loop, reconcilers, users and pools. */
  ghost predicate IsHistory(states: seq<System>, acts: seq<Act>) {
    Linked(ActsOf(), states, acts) && states[0].p == P.INITIAL && Valid(states[0].sim)
  }

  lemma ActAt(states: seq<System>, acts: seq<Act>, k: nat)
    requires IsHistory(states, acts) && k < |acts|
    ensures Acts(states[k], acts[k], states[k + 1])
  {
    assert ActsOf()(states[k], acts[k], states[k + 1]);
  }

  // ---------------------------------------------------------------- what every history keeps

  lemma ReservesIsStep(s: Sim, id: string, gpuCount: int, memMiB: int, opts: Options, s': Sim)
    requires Reserves(s, id, gpuCount, memMiB, opts, s')
    ensures Step(s, Allocate(id, gpuCount, memMiB, opts), s')
  {
    if s' != s {
      var r :| Placed(s, gpuCount, memMiB, opts, r) && s' == if r.Allocated? then Reserve(s, id, r.ids) else s;
      PlacedIsReservable(s, gpuCount, memMiB, opts, r.ids);
    }
  }

  lemma SimAfter(s: System, act: Act, s': System)
    requires Valid(s.sim) && Acts(s, act, s')
    ensures Valid(s'.sim) && Evolves(s.sim, s'.sim)
  {
    match act
    case Proto(_) =>
    case ReserveAs(n, gpuCount, memMiB, profile) =>
      ReservesIsStep(s.sim, HeldID(s.p, n), gpuCount, memMiB, AdmissionOptions(profile), s'.sim);
      Stepped(s.sim, Allocate(HeldID(s.p, n), gpuCount, memMiB, AdmissionOptions(profile)), s'.sim);
    case BeginAs(n, now, seconds) => Stepped(s.sim, Start(HeldID(s.p, n), now, seconds), s'.sim);
    case PollAs(n, now) => Stepped(s.sim, PollLatest(HeldID(s.p, n), now), s'.sim);
    case TidyAs(n) => Stepped(s.sim, Release(HeldID(s.p, n)), s'.sim);
    case Clear(id) =>
      var mid :| Step(s.sim, Preempt(id), mid) && Step(mid, Release(id), s'.sim);
      Stepped(s.sim, Preempt(id), mid);
      Stepped(mid, Release(id), s'.sim);
    case Pools(op) => Stepped(s.sim, op, s'.sim);
  }

  lemma Stepped(s: Sim, op: Op, s': Sim)
    requires Valid(s) && Step(s, op, s')
    ensures Valid(s') && Evolves(s, s')
  {
    StepKeepsValid(s, op, s');
    StepEvolves(s, op, s');
  }

  /** Whoever was started has a run on record; whoever is said to have finished has a run that ended so. */
  ghost predicate OnRecord(s: System) {
    && (forall id | id in s.p.started :: HasRun(s.sim.runs, id))
    && (forall v | 0 <= v < |s.p.log| && s.p.log[v].phase in {Succeeded, Failed} ::
          HasRunOf(s.sim.runs, s.p.log[v].id, StatusOf(s.p.log[v].phase).value))
  }

  ghost predicate HasRun(runs: map<string, Run>, w: string) {
    exists r | r in runs :: runs[r].workloadID == w
  }

  lemma RunsRemain(s: Sim, s': Sim, w: string, st: Status)
    requires Evolves(s, s')
    ensures HasRun(s.runs, w) ==> HasRun(s'.runs, w)
    ensures st != RunRunning && HasRunOf(s.runs, w, st) ==> HasRunOf(s'.runs, w, st)
  {
    if HasRun(s.runs, w) {
      var r :| r in s.runs && s.runs[r].workloadID == w;
      assert r in s'.runs && s'.runs[r].workloadID == w;
    }
    if st != RunRunning && HasRunOf(s.runs, w, st) {
      var r :| r in s.runs && s.runs[r].workloadID == w && s.runs[r].status == st;
      assert r in s'.runs && s'.runs[r].workloadID == w && s'.runs[r].status == st;
    }
  }

  lemma RecordKept(s: System, s': System)
    requires OnRecord(s) && s'.p == s.p && Evolves(s.sim, s'.sim)
    ensures OnRecord(s')
  {
    forall id | id in s'.p.started ensures HasRun(s'.sim.runs, id) {
      RunsRemain(s.sim, s'.sim, id, RunSucceeded);
    }
    forall v | 0 <= v < |s'.p.log| && s'.p.log[v].phase in {Succeeded, Failed}
      ensures HasRunOf(s'.sim.runs, s'.p.log[v].id, StatusOf(s'.p.log[v].phase).value)
    {
      RunsRemain(s.sim, s'.sim, s.p.log[v].id, StatusOf(s.p.log[v].phase).value);
    }
  }

  lemma RecordGrows(s: System, step: P.Step)
    requires OnRecord(s) && P.Inv(s.p) && P.Enabled(s.p, step) && Backed(s, step)
    ensures OnRecord(s.(p := P.Next(s.p, step)))
  {
    var p' := P.Next(s.p, step);
    forall id | id in p'.started ensures HasRun(s.sim.runs, id) {
      if id !in s.p.started {
        var r :| IsRunning(s.sim.runs, id, r);
      }
    }
    forall v | 0 <= v < |p'.log| && p'.log[v].phase in {Succeeded, Failed}
      ensures HasRunOf(s.sim.runs, p'.log[v].id, StatusOf(p'.log[v].phase).value)
    {
      if v < |s.p.log| {
        assert p'.log[v] == s.p.log[v];
      }
    }
  }

  lemma {:induction false} HistoryKeeps(states: seq<System>, acts: seq<Act>, k: nat)
    requires IsHistory(states, acts) && k < |states|
    ensures P.Inv(states[k].p) && Valid(states[k].sim) && OnRecord(states[k])
  {
    if k > 0 {
      HistoryKeeps(states, acts, k - 1);
      ActAt(states, acts, k - 1);
      var s, act := states[k - 1], acts[k - 1];
      SimAfter(s, act, states[k]);
      if act.Proto? {
        P.StepKeeps(s.p, act.step);
        RecordGrows(s, act.step);
      } else {
        RecordKept(s, states[k]);
      }
    }
  }

  /** In every history a workload in phase Running, Succeeded or Failed has a run in the simulator, and
      one said to have succeeded has a run that succeeded. */
  lemma PhaseIsOnRecord(states: seq<System>, acts: seq<Act>, k: nat, id: string)
    requires IsHistory(states, acts) && k < |states| && id in states[k].p.live &&
      states[k].p.live[id] < |states[k].p.log|
    ensures P.PhaseOf(states[k].p, id) in {Running, Succeeded, Failed} ==> HasRun(states[k].sim.runs, id)
    ensures P.PhaseOf(states[k].p, id) == Succeeded ==> HasRunOf(states[k].sim.runs, id, RunSucceeded)
  {
    HistoryKeeps(states, acts, k);
  }

  // ---------------------------------------------------------------- evicted for good?

  /** The simulator has what the request asks for. */
  ghost predicate CanReserve(s: Sim, gpuCount: int, memMiB: int, opts: Options) {
    gpuCount > 0 && memMiB > 0 && |EligibleSet(s, memMiB, opts)| >= gpuCount
  }

  /** The act is an admission of `id` by a reconciler that holds a Scheduled version of it, and enough
      eligible devices are free. */
  ghost predicate WouldRevive(s: System, act: Act, id: string) {
    && act.ReserveAs? && Actuates(s.p, act.n) && HeldID(s.p, act.n) == id != ""
    && CanReserve(s.sim, act.gpuCount, act.memMiB, AdmissionOptions(act.profile))
  }

  lemma LockIff(s: Sim, id: string, gpuCount: int, memMiB: int, profile: string, s': Sim)
    requires Valid(s) && id !in s.allocations && LockOutcome(s, id, gpuCount, memMiB, AdmissionOptions(profile), s')
    ensures s'.runs == s.runs
    ensures id in s'.allocations <==> |EligibleSet(s, memMiB, AdmissionOptions(profile))| >= gpuCount
    ensures forall w | w != id :: w in s'.allocations <==> w in s.allocations
  {
    var opts := AdmissionOptions(profile);
    var r :| Placed(s, gpuCount, memMiB, opts, r) && s' == if r.Allocated? then Reserve(s, id, r.ids) else s;
    AllocationSucceedsIff(s, gpuCount, memMiB, opts, r);
  }

  lemma NothingEligible(s: Sim, memMiB: int, opts: Options)
    requires s.pools == map[]
    ensures EligibleSet(s, memMiB, opts) == {}
  {
  }

  /** A workload without an allocation gets one exactly if the request is in order and can be met. */
  lemma ReservesIff(s: Sim, id: string, gpuCount: int, memMiB: int, profile: string, s': Sim)
    requires Valid(s) && id !in s.allocations && Reserves(s, id, gpuCount, memMiB, AdmissionOptions(profile), s')
    ensures s'.runs == s.runs
    ensures id in s'.allocations <==> id != "" && CanReserve(s, gpuCount, memMiB, AdmissionOptions(profile))
  {
    if s.pools == map[] {
      NothingEligible(s, memMiB, AdmissionOptions(profile));
    }
    if Refusal(s, id, gpuCount, memMiB, AdmissionOptions(profile)).None? {
      LockIff(s, id, gpuCount, memMiB, profile, s');
    }
  }

  /** An admission for another workload leaves this one alone. */
  lemma ReservesElsewhere(s: Sim, w: string, gpuCount: int, memMiB: int, opts: Options, s': Sim, id: string)
    requires Reserves(s, w, gpuCount, memMiB, opts, s') && id != w
    ensures s'.runs == s.runs && (id in s'.allocations <==> id in s.allocations)
  {
  }

  lemma StartsNothingFor(s: Sim, w: string, now: int, seconds: int, s': Sim, id: string)
    requires Step(s, Start(w, now, seconds), s') && id !in s.allocations
    ensures s'.allocations == s.allocations && (HasRunning(s'.runs, id) ==> HasRunning(s.runs, id))
  {
    if r :| IsRunning(s'.runs, id, r) {
      assert IsRunning(s.runs, id, r);
    }
  }

  lemma PollStartsNothing(s: Sim, w: string, now: int, s': Sim, id: string)
    requires Step(s, PollLatest(w, now), s')
    ensures s'.allocations == s.allocations && (HasRunning(s'.runs, id) ==> HasRunning(s.runs, id))
  {
    if r :| IsRunning(s'.runs, id, r) {
      assert IsRunning(s.runs, id, r);
    }
  }

  /** A workload that holds nothing goes on holding nothing exactly unless the act would revive it. */
  lemma ClearedUnlessRevived(s: System, act: Act, s': System, id: string)
    requires Valid(s.sim) && Acts(s, act, s') && Cleared(s.sim, id)
    ensures Cleared(s'.sim, id) <==> !WouldRevive(s, act, id)
  {
    if act.Clear? {
      var mid :| Step(s.sim, Preempt(act.id), mid) && Step(mid, Release(act.id), s'.sim);
      EvictionClears(s.sim, mid, s'.sim, act.id);
    } else if act.BeginAs? {
      StartsNothingFor(s.sim, HeldID(s.p, act.n), act.now, act.seconds, s'.sim, id);
    } else if act.PollAs? {
      PollStartsNothing(s.sim, HeldID(s.p, act.n), act.now, s'.sim, id);
    } else if act.ReserveAs? {
      var w := HeldID(s.p, act.n);
      if w == id {
        ReservesIff(s.sim, id, act.gpuCount, act.memMiB, act.profile, s'.sim);
      } else {
        ReservesElsewhere(s.sim, w, act.gpuCount, act.memMiB, AdmissionOptions(act.profile), s'.sim, id);
      }
    }
  }

  /** In state `j` the workload holds neither devices nor a running run. */
  ghost function ClearedAt(states: seq<System>, id: string): nat -> bool {
    (j: nat) => j < |states| && Cleared(states[j].sim, id)
  }

  /** Act `j` would revive the workload in the state in which it is taken. */
  ghost function RevivableAt(states: seq<System>, acts: seq<Act>, id: string): nat -> bool {
    (j: nat) => j < |acts| < |states| && WouldRevive(states[j], acts[j], id)
  }

  lemma ClearedNext(states: seq<System>, acts: seq<Act>, k: nat, id: string)
    requires IsHistory(states, acts) && k < |acts| && ClearedAt(states, id)(k)
    ensures ClearedAt(states, id)(k + 1) <==> !RevivableAt(states, acts, id)(k)
  {
    HistoryKeeps(states, acts, k);
    ActAt(states, acts, k);
    ClearedUnlessRevived(states[k], acts[k], states[k + 1], id);
  }

  /** From the moment a workload holds neither devices nor a run, it goes on holding neither exactly as
      long as no reconciler with a Scheduled version of it acts while enough eligible devices are free. */
  lemma StaysClearedIff(states: seq<System>, acts: seq<Act>, e: nat, k: nat, id: string)
    requires IsHistory(states, acts) && e <= k < |states| && ClearedAt(states, id)(e)
    ensures (forall j | e <= j <= k :: ClearedAt(states, id)(j))
       <==> (forall j | e <= j < k :: !RevivableAt(states, acts, id)(j))
  {
    var cleared, revived := ClearedAt(states, id), RevivableAt(states, acts, id);
    forall j | e <= j < k && cleared(j) ensures cleared(j + 1) <==> !revived(j) {
      ClearedNext(states, acts, j, id);
    }
    Unbroken(cleared, revived, e, k);
  }

  /** Once it is Preempted, such a reconciler holds an outdated version. */
  lemma RevivedByStaleVersion(s: System, act: Act, id: string)
    requires WouldRevive(s, act, id) && IsLive(s.p, id, Preempted)
    ensures P.HoldsVersion(s.p, P.Reconciler(act.n)) && P.LocalOf(s.p, P.Reconciler(act.n)).v != s.p.live[id]
  {
  }

  // ---------------------------------------------------------------- over all histories with the same acts

  ghost predicate StartsCleared(states: seq<System>, acts: seq<Act>, e: nat, id: string) {
    IsHistory(states, acts) && e <= |acts| && ClearedAt(states, id)(e)
  }

  /** However allocations turn out, the workload stays cleared from state `e` on. */
  ghost predicate AlwaysCleared(acts: seq<Act>, e: nat, id: string) {
    forall k, states | e <= k <= |acts| && StartsCleared(states, acts[..k], e, id) :: ClearedAt(states, id)(k)
  }

  /** No act from `e` on can find a cleared workload and would revive it. */
  ghost predicate NeverRevivable(acts: seq<Act>, e: nat, id: string) {
    forall k, states | e <= k < |acts| && StartsCleared(states, acts[..k], e, id) && ClearedAt(states, id)(k) ::
      !WouldRevive(states[k], acts[k], id)
  }

  lemma HistoryFrom(states: seq<System>, acts: seq<Act>, act: Act, s': System)
    requires IsHistory(states, acts) && Acts(states[|acts|], act, s')
    ensures IsHistory(states + [s'], acts + [act])
  {
    assert ActsOf()(states[|acts|], act, s');
    LinkedSnoc(ActsOf(), states, acts, act, s');
  }

  /** A reconciler that would revive the workload can: the act is possible. */
  lemma ReviveIsPossible(s: System, act: Act, id: string) returns (s': System)
    requires Valid(s.sim) && Cleared(s.sim, id) && WouldRevive(s, act, id)
    ensures Acts(s, act, s') && !Cleared(s'.sim, id)
  {
    var opts := AdmissionOptions(act.profile);
    var ids := CanAllocate(s.sim, act.gpuCount, act.memMiB, opts);
    if s.sim.pools == map[] {
      NothingEligible(s.sim, act.memMiB, opts);
    }
    s' := s.(sim := Reserve(s.sim, id, ids));
    assert LockOutcome(s.sim, id, act.gpuCount, act.memMiB, opts, s'.sim);
  }

  lemma PrefixHistory(states: seq<System>, acts: seq<Act>, n: nat)
    requires IsHistory(states, acts) && n <= |acts|
    ensures IsHistory(states[..n + 1], acts[..n])
  {
    LinkedPrefix(ActsOf(), states, acts, n);
  }

  lemma ClearedOnward(acts: seq<Act>, e: nat, id: string, k: nat, states: seq<System>, j: nat)
    requires NeverRevivable(acts, e, id) && e <= j < k <= |acts| && StartsCleared(states, acts[..k], e, id)
    requires ClearedAt(states, id)(j)
    ensures ClearedAt(states, id)(j + 1)
  {
    var before := states[..j + 1];
    PrefixHistory(states, acts[..k], j);
    assert acts[..k][..j] == acts[..j] && acts[..k][j] == acts[j];
    assert before[e] == states[e] && before[j] == states[j];
    assert StartsCleared(before, acts[..j], e, id) && ClearedAt(before, id)(j);
    ClearedNext(states, acts[..k], j, id);
  }

  lemma ClearedUpTo(acts: seq<Act>, e: nat, id: string, k: nat, states: seq<System>)
    requires NeverRevivable(acts, e, id) && e <= k <= |acts| && StartsCleared(states, acts[..k], e, id)
    ensures ClearedAt(states, id)(k)
  {
    var cleared := ClearedAt(states, id);
    forall j | e <= j < k && cleared(j) ensures cleared(j + 1) {
      ClearedOnward(acts, e, id, k, states, j);
    }
    KeptThroughout(cleared, e, k);
  }

  /** An act that meets the guard in some history extends it to one in which the workload is revived. */
  lemma ExtendedByRevival(states: seq<System>, acts: seq<Act>, act: Act, id: string) returns (s': System)
    requires IsHistory(states, acts) && ClearedAt(states, id)(|acts|) && WouldRevive(states[|acts|], act, id)
    ensures IsHistory(states + [s'], acts + [act]) && !Cleared(s'.sim, id)
  {
    assert Valid(states[|acts|].sim) by {
      HistoryKeeps(states, acts, |acts|);
    }
    s' := ReviveIsPossible(states[|acts|], act, id);
    HistoryFrom(states, acts, act, s');
  }

  lemma GuardedHistory(acts: seq<Act>, e: nat, id: string, k: nat, states: seq<System>) returns (longer: seq<System>)
    requires e <= k < |acts| && StartsCleared(states, acts[..k], e, id) && ClearedAt(states, id)(k)
    requires WouldRevive(states[k], acts[k], id)
    ensures StartsCleared(longer, acts[..k + 1], e, id) && !ClearedAt(longer, id)(k + 1)
  {
    var s' := ExtendedByRevival(states, acts[..k], acts[k], id);
    assert acts[..k] + [acts[k]] == acts[..k + 1];
    longer := states + [s'];
    assert longer[e] == states[e];
  }

  /** The exact condition on schedules: a cleared workload stays cleared however allocations turn out if
      and only if no act meets the guard in any history that leads up to it. */
  lemma AlwaysClearedIff(acts: seq<Act>, e: nat, id: string)
    ensures AlwaysCleared(acts, e, id) <==> NeverRevivable(acts, e, id)
  {
    if NeverRevivable(acts, e, id) {
      forall k, states | e <= k <= |acts| && StartsCleared(states, acts[..k], e, id) ensures ClearedAt(states, id)(k) {
        ClearedUpTo(acts, e, id, k, states);
      }
    }
    if AlwaysCleared(acts, e, id) {
      forall k, states | e <= k < |acts| && StartsCleared(states, acts[..k], e, id) && ClearedAt(states, id)(k)
        ensures !WouldRevive(states[k], acts[k], id)
      {
        if WouldRevive(states[k], acts[k], id) {
          var longer := GuardedHistory(acts, e, id, k, states);
        }
      }
    }
  }

  // ---------------------------------------------------------------- a history in which it happens

  ghost predicate Plain(step: P.Step) {
    !step.StartRun? && !(step.Write? && step.action.Finish?)
  }

  /** A run of the protocol that starts nothing is a history in which the simulator stands still. */
  lemma {:induction false} Lifted(ps: seq<P.State>, steps: seq<P.Step>, sim: Sim)
    returns (states: seq<System>, acts: seq<Act>)
    requires P.IsRun(ps, steps) && Valid(sim) && forall k | 0 <= k < |steps| :: Plain(steps[k])
    ensures IsHistory(states, acts) && |acts| == |steps|
    ensures states[|acts|] == System(ps[|steps|], sim)
  {
    if steps == [] {
      states, acts := [System(ps[0], sim)], [];
    } else {
      var n := |steps| - 1;
      states, acts := Lifted(ps[..n + 1], steps[..n], sim);
      assert P.Enabled(ps[n], steps[n]) && ps[n + 1] == P.Next(ps[n], steps[n]);
      HistoryFrom(states, acts, Proto(steps[n]), System(ps[n + 1], sim));
      states, acts := states + [System(ps[n + 1], sim)], acts + [Proto(steps[n])];
    }
  }

  /** The protocol part: the workload is Preempted while a reconciler still holds its Scheduled version. */
  lemma EvictedBehindTheBack(id: string) returns (ps: seq<P.State>, steps: seq<P.Step>)
    ensures P.IsRun(ps, steps) && forall k | 0 <= k < |steps| :: Plain(steps[k])
    ensures IsLive(ps[|steps|], id, Preempted) && Actuates(ps[|steps|], 0) && HeldID(ps[|steps|], 0) == id
  {
    var o := P.Version(id, 0, Scheduled, false, true);
    ps, steps := P.Scheduling(id);
    var read := P.Read(P.Reconciler(0), 3);
    P.RunFrom(ps, steps, read);
    ps, steps := ps + [P.Next(ps[|steps|], read)], steps + [read];
    ps, steps := P.ReadAndWrite(ps, steps, o, P.Loop, P.Evict);
    assert ps[|steps|].log[3] == o;
  }

  /** The simulator part: one device, allocated to the workload and put to use. */
  lemma RevivedSim(id: string) returns (held: Sim, going: Sim)
    requires id != ""
    ensures Reserves(Fleet("pool", 1, 1, ""), id, 1, 1, AdmissionOptions(""), held)
    ensures Step(held, Start(id, 0, 1), going) && HasRunning(going.runs, id) && HasDevices(going.allocations, id)
  {
    var sim, opts := Fleet("pool", 1, 1, ""), AdmissionOptions("");
    FleetIsValid("pool", 1);
    RestIsEligible(sim, "pool", 1, 1, opts);
    var ids := CanAllocate(sim, 1, 1, opts);
    held := Reserve(sim, id, ids);
    assert LockOutcome(sim, id, 1, 1, opts, held);
    assert "pool" in sim.pools;
    going := WithRun(held, RunName(1), Run(id, 0, 1, RunRunning)).(nextRunID := 1);
    assert IsRunning(going.runs, id, RunName(1));
  }

  lemma RevivingActs(p: P.State, id: string, held: Sim, going: Sim)
    requires IsLive(p, id, Preempted) && Actuates(p, 0) && HeldID(p, 0) == id && P.Inv(p)
    requires Reserves(Fleet("pool", 1, 1, ""), id, 1, 1, AdmissionOptions(""), held) &&
      Step(held, Start(id, 0, 1), going)
    ensures var sim := Fleet("pool", 1, 1, "");
            && Acts(System(p, sim), Clear(id), System(p, sim)) && Cleared(sim, id)
            && Acts(System(p, sim), ReserveAs(0, 1, 1, ""), System(p, held))
            && Acts(System(p, held), BeginAs(0, 0, 1), System(p, going))
  {
    var sim := Fleet("pool", 1, 1, "");
    assert p.log[p.live[id]].id == id;
    assert WasPreempted(p, id);
    assert Step(sim, Preempt(id), sim) && Step(sim, Release(id), sim);
  }

  /** A workload is admitted and, as a later admission of the batch may do, evicted: marked, stopped and
      released. Then a reconciler that still holds the Scheduled version allocates and starts it. It
      is then Preempted, with devices and a running run; the next reconcile releases the devices, but
      the run goes on. */
  lemma PreemptedYetRunning(id: string) returns (states: seq<System>, acts: seq<Act>, e: nat)
    requires id != ""
    ensures IsHistory(states, acts) && 0 < e < |acts| && acts[e - 1] == Clear(id) && Cleared(states[e].sim, id)
    ensures IsLive(states[e].p, id, Preempted) && IsLive(states[|acts|].p, id, Preempted)
    ensures HasRunning(states[|acts|].sim.runs, id) && HasDevices(states[|acts|].sim.allocations, id)
  {
    var ps, steps := EvictedBehindTheBack(id);
    var p, sim := ps[|steps|], Fleet("pool", 1, 1, "");
    P.RunKeepsInv(ps, steps, |steps|);
    FleetIsValid("pool", 1);
    states, acts := Lifted(ps, steps, sim);
    var held, going := RevivedSim(id);
    RevivingActs(p, id, held, going);
    HistoryFrom(states, acts, Clear(id), System(p, sim));
    states, acts := states + [System(p, sim)], acts + [Clear(id)];
    e := |acts|;
    HistoryFrom(states, acts, ReserveAs(0, 1, 1, ""), System(p, held));
    states, acts := states + [System(p, held)], acts + [ReserveAs(0, 1, 1, "")];
    HistoryFrom(states, acts, BeginAs(0, 0, 1), System(p, going));
    states, acts := states + [System(p, going)], acts + [BeginAs(0, 0, 1)];
  }

  /** Releasing a terminal workload's devices stops no run. */
  lemma TidyKeepsRunning(s: System, n: nat, s': System, id: string)
    requires Acts(s, TidyAs(n), s')
    ensures HasRunning(s'.sim.runs, id) <==> HasRunning(s.sim.runs, id)
    ensures HeldID(s.p, n) !in s'.sim.allocations
  {
  }
}
