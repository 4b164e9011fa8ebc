/** One scheduling cycle of one namespace from end to end: watch events, index, snapshot, validation and
    batch (runSchedulingCycle in internal/controller/scheduler_loop.go). */
module Cycle {
  import opened Sequences
  import opened Workloads
  import opened Phases
  import opened Inputs
  import opened Index
  import opened Batch

  datatype Outcome = NoFleet | NothingQueued | Invalid(problem: Problem) | Admitted(admissions: seq<Admission>)

  predicate EntryOk(x: Entry) {
    match x
    case QueuedEntry(q) => QueuedOk(q)
    case ScheduledEntry(r) => CommittedOk(r, false)
    case RunningEntry(r) => CommittedOk(r, true)
  }

  /** Everything last seen in the namespace is well-formed. */
  ghost predicate EntriesOk(seen: map<Key, Entry>, ns: string) {
    forall k | k in seen && k.ns == ns :: EntryOk(seen[k])
  }

  ghost predicate SomethingQueued(seen: map<Key, Entry>, ns: string) {
    exists k | k in seen :: k.ns == ns && seen[k].QueuedEntry?
  }

  // ---------------------------------------------------------------- what a snapshot says about the events

  /** `s` holds what was last seen in the namespace, no more and no less. */
  ghost predicate Mirrors(s: SchedulingInputs, seen: map<Key, Entry>, ns: string) {
    && (forall q :: q in s.queued <==> exists k | k in seen :: k.ns == ns && seen[k] == QueuedEntry(q))
    && (forall r :: r in s.scheduled <==> exists k | k in seen :: k.ns == ns && seen[k] == ScheduledEntry(r))
    && (forall r :: r in s.running <==> exists k | k in seen :: k.ns == ns && seen[k] == RunningEntry(r))
  }

  ghost predicate SnapshotOf(ix: Buckets, ns: string, s: SchedulingInputs) {
    Copies(ix.queued, ns, s.queued) && Copies(ix.scheduled, ns, s.scheduled) && Copies(ix.running, ns, s.running)
  }

  lemma QueuedMirrored(ix: Buckets, seen: map<Key, Entry>, ns: string, out: seq<QueuedWorkload>, q: QueuedWorkload)
    requires Agrees(ix, seen) && Copies(ix.queued, ns, out)
    ensures q in out <==> exists k | k in seen :: k.ns == ns && seen[k] == QueuedEntry(q)
  {
    CopiesMembers(ix.queued, ns, out, q);
    if q in out {
      var id :| Has(ix.queued, ns, id) && ix.queued[ns][id] == q;
      assert AgreesAt(ix, seen, ns, id);
      assert seen[Key(ns, id)] == QueuedEntry(q);
    }
    if k :| k in seen && k.ns == ns && seen[k] == QueuedEntry(q) {
      assert AgreesAt(ix, seen, ns, k.id);
      assert k == Key(ns, k.id);
      assert Has(ix.queued, ns, k.id) && ix.queued[ns][k.id] == q;
    }
  }

  lemma ScheduledMirrored(ix: Buckets, seen: map<Key, Entry>, ns: string, out: seq<RunningWorkload>, r: RunningWorkload)
    requires Agrees(ix, seen) && Copies(ix.scheduled, ns, out)
    ensures r in out <==> exists k | k in seen :: k.ns == ns && seen[k] == ScheduledEntry(r)
  {
    CopiesMembers(ix.scheduled, ns, out, r);
    if r in out {
      var id :| Has(ix.scheduled, ns, id) && ix.scheduled[ns][id] == r;
      assert AgreesAt(ix, seen, ns, id);
      assert seen[Key(ns, id)] == ScheduledEntry(r);
    }
    if k :| k in seen && k.ns == ns && seen[k] == ScheduledEntry(r) {
      assert AgreesAt(ix, seen, ns, k.id);
      assert k == Key(ns, k.id);
      assert Has(ix.scheduled, ns, k.id) && ix.scheduled[ns][k.id] == r;
    }
  }

  lemma RunningMirrored(ix: Buckets, seen: map<Key, Entry>, ns: string, out: seq<RunningWorkload>, r: RunningWorkload)
    requires Agrees(ix, seen) && Copies(ix.running, ns, out)
    ensures r in out <==> exists k | k in seen :: k.ns == ns && seen[k] == RunningEntry(r)
  {
    CopiesMembers(ix.running, ns, out, r);
    if r in out {
      var id :| Has(ix.running, ns, id) && ix.running[ns][id] == r;
      assert AgreesAt(ix, seen, ns, id);
      assert seen[Key(ns, id)] == RunningEntry(r);
    }
    if k :| k in seen && k.ns == ns && seen[k] == RunningEntry(r) {
      assert AgreesAt(ix, seen, ns, k.id);
      assert k == Key(ns, k.id);
      assert Has(ix.running, ns, k.id) && ix.running[ns][k.id] == r;
    }
  }

  lemma SnapshotMirrors(ix: Buckets, seen: map<Key, Entry>, ns: string, s: SchedulingInputs)
    requires Agrees(ix, seen)
    requires SnapshotOf(ix, ns, s)
    ensures Mirrors(s, seen, ns)
  {
    forall q ensures q in s.queued <==> exists k | k in seen :: k.ns == ns && seen[k] == QueuedEntry(q) {
      QueuedMirrored(ix, seen, ns, s.queued, q);
    }
    forall r ensures r in s.scheduled <==> exists k | k in seen :: k.ns == ns && seen[k] == ScheduledEntry(r) {
      ScheduledMirrored(ix, seen, ns, s.scheduled, r);
    }
    forall r ensures r in s.running <==> exists k | k in seen :: k.ns == ns && seen[k] == RunningEntry(r) {
      RunningMirrored(ix, seen, ns, s.running, r);
    }
  }

  // ---------------------------------------------------------------- what it says about the index

  /** Everything the index holds for the namespace is well-formed. */
  ghost predicate BucketsOk(ix: Buckets, ns: string) {
    && (forall id | Has(ix.queued, ns, id) :: QueuedOk(ix.queued[ns][id]))
    && (forall id | Has(ix.scheduled, ns, id) :: CommittedOk(ix.scheduled[ns][id], false))
    && (forall id | Has(ix.running, ns, id) :: CommittedOk(ix.running[ns][id], true))
  }

  ghost predicate HasQueued(ix: Buckets, ns: string) {
    exists id :: Has(ix.queued, ns, id)
  }

  lemma CopiedQueuedOk(ix: Buckets, ns: string, out: seq<QueuedWorkload>)
    requires Copies(ix.queued, ns, out)
    ensures AllQueuedOk(out) <==> forall id | Has(ix.queued, ns, id) :: QueuedOk(ix.queued[ns][id])
    ensures out != [] <==> HasQueued(ix, ns)
  {
    forall q ensures q in out <==> exists id :: Has(ix.queued, ns, id) && ix.queued[ns][id] == q {
      CopiesMembers(ix.queued, ns, out, q);
    }
    if out != [] {
      assert out[0] in out;
    }
    if id :| Has(ix.queued, ns, id) {
      assert ix.queued[ns][id] in out;
    }
  }

  lemma CopiedCommittedOk(b: Bucket<RunningWorkload>, ns: string, out: seq<RunningWorkload>, running: bool)
    requires Copies(b, ns, out)
    ensures AllCommittedOk(out, running) <==> forall id | Has(b, ns, id) :: CommittedOk(b[ns][id], running)
  {
    forall r ensures r in out <==> exists id :: Has(b, ns, id) && b[ns][id] == r {
      CopiesMembers(b, ns, out, r);
    }
  }

  /** A snapshot is valid exactly if no workload of the namespace is in two buckets and everything in them
      is well-formed, and so are fleet and quotas. */
  lemma SnapshotValidIff(ix: Buckets, ns: string, s: SchedulingInputs)
    requires Keyed(ix) && SnapshotOf(ix, ns, s) && (Distinct(AllIDs(s)) <==> DisjointIn(ix, ns))
    ensures ValidInputs(s) <==> DisjointIn(ix, ns) && BucketsOk(ix, ns) && FleetOk(s.fleet) && QuotasOk(s.quotas)
    ensures s.queued != [] <==> HasQueued(ix, ns)
  {
    CopiedQueuedOk(ix, ns, s.queued);
    CopiedCommittedOk(ix.scheduled, ns, s.scheduled, false);
    CopiedCommittedOk(ix.running, ns, s.running, true);
  }

  /** After a forward trace the index has no workload twice, and the rest can be read off the events. */
  lemma ForwardIndex(trace: seq<Event>, ns: string)
    requires ForwardTrace(trace)
    ensures var ix, seen := ApplyEvents(trace), LastSeen(trace);
            && Agrees(ix, seen) && DisjointIn(ix, ns) && (BucketsOk(ix, ns) <==> EntriesOk(seen, ns))
            && (HasQueued(ix, ns) <==> SomethingQueued(seen, ns))
  {
    var ix, seen := ApplyEvents(trace), LastSeen(trace);
    assert trace[..|trace|] == trace;
    ForwardIsCorrect(trace, |trace|);
    AgreementIsDisjoint(ix, seen);
    AgreedOk(ix, seen, ns);
  }

  lemma AgreedOk(ix: Buckets, seen: map<Key, Entry>, ns: string)
    requires Agrees(ix, seen)
    ensures BucketsOk(ix, ns) <==> EntriesOk(seen, ns)
    ensures HasQueued(ix, ns) <==> SomethingQueued(seen, ns)
  {
    if BucketsOk(ix, ns) {
      forall k | k in seen && k.ns == ns ensures EntryOk(seen[k]) {
        assert k == Key(ns, k.id) && AgreesAt(ix, seen, ns, k.id);
      }
    }
    if EntriesOk(seen, ns) {
      forall id ensures Has(ix.queued, ns, id) ==> QueuedOk(ix.queued[ns][id])
        ensures Has(ix.scheduled, ns, id) ==> CommittedOk(ix.scheduled[ns][id], false)
        ensures Has(ix.running, ns, id) ==> CommittedOk(ix.running[ns][id], true)
      {
        assert AgreesAt(ix, seen, ns, id);
        assert Key(ns, id) in seen ==> EntryOk(seen[Key(ns, id)]);
      }
    }
    if id :| Has(ix.queued, ns, id) {
      assert AgreesAt(ix, seen, ns, id);
      assert seen[Key(ns, id)].QueuedEntry?;
    }
    if k :| k in seen && k.ns == ns && seen[k].QueuedEntry? {
      assert k == Key(ns, k.id) && AgreesAt(ix, seen, ns, k.id);
      assert Has(ix.queued, ns, k.id);
    }
  }

  /** The cycle up to its batch. */
  method RunCycle(
      st: SchedulerState, ghost trace: seq<Event>, ns: string, fleet: Option<FleetFreeCapacity>,
      quotas: map<string, TenantQuota>, known: set<string>, maxAdmissionsPerCycle: int, now: int,
      preemptSucceeds: nat -> bool, patchSucceeds: nat -> bool)
    returns (r: Outcome, ghost states: seq<SchedulingInputs>)
    requires st.Value() == ApplyEvents(trace) && now != 0
    ensures r.NoFleet? <==> fleet.None?
    ensures r.NothingQueued? <==> fleet.Some? && !HasQueued(ApplyEvents(trace), ns)
    ensures r.Admitted? <==>
              && fleet.Some? && HasQueued(ApplyEvents(trace), ns) && DisjointIn(ApplyEvents(trace), ns)
              && BucketsOk(ApplyEvents(trace), ns) && FleetOk(fleet.value) && QuotasOk(quotas)
    ensures r.Admitted? ==>
              && |states| > 0 && SnapshotOf(ApplyEvents(trace), ns, states[0]) && states[0].fleet == fleet.value
              && BatchRun(states[0], known, now, states, r.admissions) && Conserves(states[0], r.admissions)
    ensures ForwardTrace(trace) ==> (r.NothingQueued? <==> fleet.Some? && !SomethingQueued(LastSeen(trace), ns))
    ensures ForwardTrace(trace) ==>
              (r.Admitted? <==> && fleet.Some? && SomethingQueued(LastSeen(trace), ns)
                                && EntriesOk(LastSeen(trace), ns) && FleetOk(fleet.value) && QuotasOk(quotas))
    ensures ForwardTrace(trace) && r.Admitted? ==> Mirrors(states[0], LastSeen(trace), ns)
  {
    states := [];
    if ForwardTrace(trace) {
      ForwardIndex(trace, ns);
    }
    var snapshot := st.SnapshotForNamespace(ns, fleet, quotas);
    if snapshot.None? {
      return NoFleet, states;
    }
    assert Keyed(ApplyEvents(trace)) by {
      assert trace[..|trace|] == trace;
      ShapeAfter(trace, |trace|);
    }
    SnapshotValidIff(ApplyEvents(trace), ns, snapshot.value);
    if |snapshot.value.queued| == 0 {
      return NothingQueued, states;
    }
    var problem := Validate(snapshot.value);
    if problem.Some? {
      return Invalid(problem.value), states;
    }
    if ForwardTrace(trace) {
      SnapshotMirrors(ApplyEvents(trace), LastSeen(trace), ns, snapshot.value);
    }
    var admitted, working := RunBatch(
      snapshot.value, known, maxAdmissionsPerCycle, now, preemptSucceeds, patchSucceeds);
    return Admitted(admitted), working;
  }

  /** Every admission of the cycle is of a workload whose latest event shows it queued in the namespace, with
      the demands that event shows. */
  lemma AdmissionsWereQueued(
      trace: seq<Event>, ns: string, known: set<string>, now: int, states: seq<SchedulingInputs>,
      admitted: seq<Admission>, k: nat)
    returns (i: nat)
    requires |states| > 0 && Mirrors(states[0], LastSeen(trace), ns) && ValidInputs(states[0]) && now != 0
    requires BatchRun(states[0], known, now, states, admitted) && k < |admitted|
    ensures i < |trace| && !Removes(trace[i]) && trace[i].o.ns == ns && trace[i].o.phase == Queued
    ensures forall m | i < m < |trace| :: EventKey(trace[m]) != EventKey(trace[i])
    ensures var w, o := admitted[k].w, trace[i].o;
            && w.workloadID == ns + "/" + o.name && w.tenant == o.tenant && w.priority == o.priority
            && w.gpuCount == o.gpuCount && w.gpuMemoryMiB == o.gpuMemoryMiB
            && w.profile == NormalizeProfile(o.profile) && w.tokens == o.tokens && w.kind == o.kind
            && (o.queuedAt.Some? ==> w.queuedAt == o.queuedAt.value)
  {
    BatchAdmitsDistinct(states[0], known, now, states, admitted);
    var seen := LastSeen(trace);
    var key :| key in seen && key.ns == ns && seen[key] == QueuedEntry(admitted[k].w);
    i := EntryStems(trace, key);
  }

  /** One queued object without a memory demand, which its schema admits, keeps the whole namespace from
      being scheduled. */
  lemma ZeroMemoryBlocks(trace: seq<Event>, e: Event)
    requires !Removes(e) && e.o.phase == Queued && e.o.gpuMemoryMiB == 0
    ensures !EntriesOk(LastSeen(trace + [e]), e.o.ns)
  {
    assert (trace + [e])[..|trace|] == trace;
    var seen := LastSeen(trace + [e]);
    assert seen == Observe(LastSeen(trace), e);
    assert EventKey(e) in seen && seen[EventKey(e)] == QueuedEntry(ToQueued(e));
    assert !EntryOk(seen[EventKey(e)]);
  }
}
