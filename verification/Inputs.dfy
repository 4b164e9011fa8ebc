/** Validation, virtual admission and fleet aggregation (internal/scheduler/inputs.go and
    aggregateFleetFromPools of internal/controller/scheduler_loop.go). */
module Inputs {
  import opened Sequences
  import opened Workloads
  import opened Checks

  // ---------------------------------------------------------------- what Validate demands

  function QueuedIDs(ws: seq<QueuedWorkload>): (ids: seq<string>)
    ensures |ids| == |ws| && forall i | 0 <= i < |ws| :: ids[i] == ws[i].workloadID
  {
    seq(|ws|, i requires 0 <= i < |ws| => ws[i].workloadID)
  }

  function IDs(ws: seq<RunningWorkload>): (ids: seq<string>)
    ensures |ids| == |ws| && forall i | 0 <= i < |ws| :: ids[i] == ws[i].workloadID
  {
    seq(|ws|, i requires 0 <= i < |ws| => ws[i].workloadID)
  }

  /** Every workload of a snapshot, whatever its list. */
  function AllIDs(inputs: SchedulingInputs): seq<string> {
    QueuedIDs(inputs.queued) + IDs(inputs.scheduled) + IDs(inputs.running)
  }

  predicate QueuedOk(w: QueuedWorkload) {
    && !Blank(w.workloadID) && !Blank(w.tenant) && w.queuedAt != 0
    && w.gpuCount > 0 && w.gpuMemoryMiB > 0 && !Blank(w.profile) && w.tokens > 0 && Supported(w.kind)
  }

  predicate CommittedOk(w: RunningWorkload, started: bool) {
    && !Blank(w.workloadID) && !Blank(w.tenant) && (started ==> w.startedAt != 0)
    && w.gpuCount > 0 && w.gpuMemoryMiB > 0 && !Blank(w.profile) && w.tokens > 0 && Supported(w.kind)
  }

  predicate AllQueuedOk(ws: seq<QueuedWorkload>) {
    forall w | w in ws :: QueuedOk(w)
  }

  predicate AllCommittedOk(ws: seq<RunningWorkload>, started: bool) {
    forall w | w in ws :: CommittedOk(w, started)
  }

  predicate CapacityOk(c: ProfileFreeCapacity) {
    c.freeDevices >= 0 && c.freeMemoryMiB >= 0 && (c.freeDevices > 0 ==> c.memoryMiBPerDevice > 0)
  }

  function DeviceMap(byProfile: map<string, ProfileFreeCapacity>): map<string, int> {
    map p | p in byProfile :: byProfile[p].freeDevices
  }

  function MemoryMap(byProfile: map<string, ProfileFreeCapacity>): map<string, int> {
    map p | p in byProfile :: byProfile[p].freeMemoryMiB
  }

  /** Totals are the per-profile sums and nothing is negative. */
  ghost predicate FleetOk(f: FleetFreeCapacity) {
    && f.totalFreeDevices >= 0 && f.totalFreeMemoryMiB >= 0
    && (forall p | p in f.byProfile :: !Blank(p) && CapacityOk(f.byProfile[p]))
    && MapSum(DeviceMap(f.byProfile)) == f.totalFreeDevices
    && MapSum(MemoryMap(f.byProfile)) == f.totalFreeMemoryMiB
  }

  predicate QuotaOk(tenant: string, q: TenantQuota) {
    !Blank(tenant) && q.maxGPUs >= 0 && q.maxMemoryMiB >= 0 && q.weight >= 0
  }

  predicate QuotasOk(quotas: map<string, TenantQuota>) {
    forall t | t in quotas :: QuotaOk(t, quotas[t])
  }

  ghost predicate WorkloadsOk(inputs: SchedulingInputs) {
    && AllQueuedOk(inputs.queued)
    && AllCommittedOk(inputs.scheduled, false)
    && AllCommittedOk(inputs.running, true)
    && Distinct(AllIDs(inputs))
  }

  ghost predicate ValidInputs(inputs: SchedulingInputs) {
    && WorkloadsOk(inputs)
    && FleetOk(inputs.fleet)
    && QuotasOk(inputs.quotas)
  }

  // ---------------------------------------------------------------- Validate

  datatype Problem = BadQueued(i: nat) | BadScheduled(i: nat) | BadRunning(i: nat) | BadFleet | BadQuota

  ghost predicate Fresh(ids: seq<string>, seen: set<string>) {
    Distinct(ids) && forall id | id in ids :: id !in seen
  }

  /** The identifier at position `i` was seen before, in `seen` or earlier in `ids`. */
  ghost predicate Repeats(ids: seq<string>, i: nat, seen: set<string>)
    requires i < |ids|
  {
    ids[i] in seen || ids[i] in ids[..i]
  }

  lemma FreshSnoc(ids: seq<string>, i: nat, seen: set<string>)
    requires i < |ids| && Fresh(ids[..i], seen)
    ensures Fresh(ids[..i + 1], seen) <==> !Repeats(ids, i, seen)
    ensures Repeats(ids, i, seen) ==> !Fresh(ids, seen)
  {
    assert ids[..i + 1] == ids[..i] + [ids[i]];
    if ids[i] in ids[..i] {
      var k := IndexOf(ids[..i], ids[i]);
      assert ids[..i + 1][k] == ids[..i + 1][i];
    }
  }

  method ValidateQueued(ws: seq<QueuedWorkload>, seen: set<string>) returns (bad: Option<nat>, seen': set<string>)
    ensures bad.None? <==> AllQueuedOk(ws) && Fresh(QueuedIDs(ws), seen)
    ensures bad.None? ==> seen' == seen + set id | id in QueuedIDs(ws)
    ensures bad.Some? ==> bad.value < |ws| && AllQueuedOk(ws[..bad.value]) && Fresh(QueuedIDs(ws)[..bad.value], seen)
                          && (!QueuedOk(ws[bad.value]) || Repeats(QueuedIDs(ws), bad.value, seen))
  {
    seen' := seen;
    ghost var ids := QueuedIDs(ws);
    for i := 0 to |ws|
      invariant AllQueuedOk(ws[..i]) && Fresh(ids[..i], seen)
      invariant seen' == seen + set id | id in ids[..i]
    {
      FreshSnoc(ids, i, seen);
      if ws[i].workloadID in seen' || !QueuedOk(ws[i]) {
        return Some(i), seen';
      }
      assert ids[..i + 1] == ids[..i] + [ws[i].workloadID];
      seen' := seen' + {ws[i].workloadID};
    }
    assert ids[..|ws|] == ids && ws[..|ws|] == ws;
    return None, seen';
  }

  method ValidateCommitted(ws: seq<RunningWorkload>, started: bool, seen: set<string>)
    returns (bad: Option<nat>, seen': set<string>)
    ensures bad.None? <==> AllCommittedOk(ws, started) && Fresh(IDs(ws), seen)
    ensures bad.None? ==> seen' == seen + set id | id in IDs(ws)
    ensures bad.Some? ==>
              && bad.value < |ws| && AllCommittedOk(ws[..bad.value], started) && Fresh(IDs(ws)[..bad.value], seen)
              && (!CommittedOk(ws[bad.value], started) || Repeats(IDs(ws), bad.value, seen))
  {
    seen' := seen;
    ghost var ids := IDs(ws);
    for i := 0 to |ws|
      invariant AllCommittedOk(ws[..i], started) && Fresh(ids[..i], seen)
      invariant seen' == seen + set id | id in ids[..i]
    {
      FreshSnoc(ids, i, seen);
      if ws[i].workloadID in seen' || !CommittedOk(ws[i], started) {
        return Some(i), seen';
      }
      assert ids[..i + 1] == ids[..i] + [ws[i].workloadID];
      seen' := seen' + {ws[i].workloadID};
    }
    assert ids[..|ws|] == ids && ws[..|ws|] == ws;
    return None, seen';
  }

  /** Visits the profiles in any order. */
  lemma SumsWithout(byProfile: map<string, ProfileFreeCapacity>, p: string)
    requires p in byProfile
    ensures MapSum(DeviceMap(byProfile)) == byProfile[p].freeDevices + MapSum(DeviceMap(byProfile - {p}))
    ensures MapSum(MemoryMap(byProfile)) == byProfile[p].freeMemoryMiB + MapSum(MemoryMap(byProfile - {p}))
  {
    MapSumRemove(DeviceMap(byProfile), p);
    MapSumRemove(MemoryMap(byProfile), p);
    assert DeviceMap(byProfile - {p}) == DeviceMap(byProfile) - {p};
    assert MemoryMap(byProfile - {p}) == MemoryMap(byProfile) - {p};
  }

  method ValidateFleet(f: FleetFreeCapacity) returns (ok: bool)
    ensures ok <==> FleetOk(f)
  {
    if f.totalFreeDevices < 0 || f.totalFreeMemoryMiB < 0 {
      return false;
    }
    var todo := f.byProfile;
    var sumDevices, sumMemory := 0, 0;
    while todo != map[]
      invariant forall p | p in todo :: p in f.byProfile && todo[p] == f.byProfile[p]
      invariant forall p | p in f.byProfile && p !in todo :: !Blank(p) && CapacityOk(f.byProfile[p])
      invariant sumDevices + MapSum(DeviceMap(todo)) == MapSum(DeviceMap(f.byProfile))
      invariant sumMemory + MapSum(MemoryMap(todo)) == MapSum(MemoryMap(f.byProfile))
      decreases |todo|
    {
      var p :| p in todo;
      var c := todo[p];
      if Blank(p) || !CapacityOk(c) {
        return false;
      }
      SumsWithout(todo, p);
      sumDevices := sumDevices + c.freeDevices;
      sumMemory := sumMemory + c.freeMemoryMiB;
      todo := todo - {p};
    }
    return sumDevices == f.totalFreeDevices && sumMemory == f.totalFreeMemoryMiB;
  }

  method ValidateQuotas(quotas: map<string, TenantQuota>) returns (ok: bool)
    ensures ok <==> QuotasOk(quotas)
  {
    var todo := quotas;
    while todo != map[]
      invariant forall t | t in todo :: t in quotas && todo[t] == quotas[t]
      invariant forall t | t in quotas && t !in todo :: QuotaOk(t, quotas[t])
      decreases |todo|
    {
      var t :| t in todo;
      var q := todo[t];
      if Blank(t) || q.maxGPUs < 0 || q.maxMemoryMiB < 0 || q.weight < 0 {
        assert !QuotaOk(t, quotas[t]);
        return false;
      }
      todo := todo - {t};
    }
    return true;
  }

  lemma FreshConcat(a: seq<string>, b: seq<string>, seen: set<string>)
    ensures Fresh(a + b, seen) <==> Fresh(a, seen) && Fresh(b, seen + set id | id in a)
  {
    var all := a + b;
    assert forall i | 0 <= i < |a| :: all[i] == a[i];
    assert forall i | 0 <= i < |b| :: all[|a| + i] == b[i];
    if Fresh(a, seen) && Fresh(b, seen + set id | id in a) {
      forall i, j | 0 <= i < j < |all| ensures all[i] != all[j] {
        if i < |a| <= j {
          assert all[i] in a && all[j] in b;
        }
      }
    }
  }

  lemma FreshParts(a: seq<string>, b: seq<string>, c: seq<string>)
    ensures Distinct(a + b + c)
       <==> Fresh(a, {}) && Fresh(b, set id | id in a) && Fresh(c, (set id | id in a) + set id | id in b)
  {
    FreshConcat(a + b, c, {});
    FreshConcat(a, b, {});
    assert {} + (set id | id in a + b) == (set id | id in a) + set id | id in b;
    assert {} + (set id | id in a) == set id | id in a;
  }

  /** Position `i` of `ids` is the first after `before` that is malformed or repeats an identifier. */
  ghost predicate FirstBad(before: seq<string>, ids: seq<string>, i: nat, malformed: bool)
    requires i < |ids|
  {
    Distinct(before + ids[..i]) && (malformed || ids[i] in before + ids[..i])
  }

  /** Everything before the reported problem is in order, and the problem is real. */
  ghost predicate FirstProblem(inputs: SchedulingInputs, problem: Problem) {
    var q, s, r := inputs.queued, inputs.scheduled, inputs.running;
    match problem
    case BadQueued(i) =>
      i < |q| && AllQueuedOk(q[..i]) && FirstBad([], QueuedIDs(q), i, !QueuedOk(q[i]))
    case BadScheduled(i) =>
      && i < |s| && AllQueuedOk(q) && AllCommittedOk(s[..i], false)
      && FirstBad(QueuedIDs(q), IDs(s), i, !CommittedOk(s[i], false))
    case BadRunning(i) =>
      && i < |r| && AllQueuedOk(q) && AllCommittedOk(s, false) && AllCommittedOk(r[..i], true)
      && FirstBad(QueuedIDs(q) + IDs(s), IDs(r), i, !CommittedOk(r[i], true))
    case BadFleet =>
      WorkloadsOk(inputs) && !FleetOk(inputs.fleet)
    case BadQuota =>
      WorkloadsOk(inputs) && FleetOk(inputs.fleet) && !QuotasOk(inputs.quotas)
  }

  lemma BadIsFirst(before: seq<string>, ids: seq<string>, i: nat, malformed: bool)
    requires Distinct(before) && i < |ids| && Fresh(ids[..i], set id | id in before)
    requires malformed || Repeats(ids, i, set id | id in before)
    ensures FirstBad(before, ids, i, malformed)
  {
    FreshConcat(before, ids[..i], {});
    assert {} + (set id | id in before) == set id | id in before;
  }

  /** Accepts exactly the valid inputs; otherwise reports the first problem. */
  lemma TrimsToNothing()
    ensures forall s :: Blank(s) <==> Trim(s) == ""
  {
    forall s ensures Blank(s) <==> Trim(s) == "" {
      BlankIff(s);
    }
  }

  method Validate(inputs: SchedulingInputs) returns (problem: Option<Problem>)
    ensures problem.None? <==> ValidInputs(inputs)
    ensures problem.Some? ==> FirstProblem(inputs, problem.value)
    ensures problem.None? ==>
              && (forall w | w in inputs.queued ::
                    && w.queuedAt != 0 && w.gpuCount > 0 && w.gpuMemoryMiB > 0 && w.tokens > 0 && !w.kind.OtherKind?
                    && Trim(w.workloadID) != "" && Trim(w.tenant) != "" && Trim(w.profile) != "")
              && (forall w | w in inputs.scheduled + inputs.running ::
                    && w.gpuCount > 0 && w.gpuMemoryMiB > 0 && w.tokens > 0 && !w.kind.OtherKind?
                    && Trim(w.workloadID) != "" && Trim(w.tenant) != "" && Trim(w.profile) != "")
              && (forall w | w in inputs.running :: w.startedAt != 0)
              && (forall t | t in inputs.quotas ::
                    && Trim(t) != "" && inputs.quotas[t].maxGPUs >= 0 && inputs.quotas[t].maxMemoryMiB >= 0
                    && inputs.quotas[t].weight >= 0)
              && (forall p | p in inputs.fleet.byProfile ::
                    && Trim(p) != "" && inputs.fleet.byProfile[p].freeDevices >= 0
                    && inputs.fleet.byProfile[p].freeMemoryMiB >= 0
                    && (inputs.fleet.byProfile[p].freeDevices > 0 ==> inputs.fleet.byProfile[p].memoryMiBPerDevice > 0))
  {
    TrimsToNothing();
    ghost var q, s, r := QueuedIDs(inputs.queued), IDs(inputs.scheduled), IDs(inputs.running);
    FreshParts(q, s, r);
    FreshConcat(q, s, {});
    var bad, seen := ValidateQueued(inputs.queued, {});
    if bad.Some? {
      BadIsFirst([], q, bad.value, !QueuedOk(inputs.queued[bad.value]));
      return Some(BadQueued(bad.value));
    }
    assert seen == set id | id in q;
    bad, seen := ValidateCommitted(inputs.scheduled, false, seen);
    if bad.Some? {
      BadIsFirst(q, s, bad.value, !CommittedOk(inputs.scheduled[bad.value], false));
      return Some(BadScheduled(bad.value));
    }
    assert seen == set id | id in q + s;
    bad, seen := ValidateCommitted(inputs.running, true, seen);
    if bad.Some? {
      BadIsFirst(q + s, r, bad.value, !CommittedOk(inputs.running[bad.value], true));
      return Some(BadRunning(bad.value));
    }
    var ok := ValidateFleet(inputs.fleet);
    if !ok {
      return Some(BadFleet);
    }
    ok := ValidateQuotas(inputs.quotas);
    return if ok then None else Some(BadQuota);
  }

  // ---------------------------------------------------------------- virtual admission

  function AsRunning(w: QueuedWorkload, now: int): RunningWorkload {
    RunningWorkload(w.workloadID, w.tenant, w.priority, now, w.gpuCount, w.gpuMemoryMiB, w.profile, w.tokens, w.kind)
  }

  function WithoutID(ws: seq<QueuedWorkload>, id: string): seq<QueuedWorkload> {
    if ws == [] then []
    else if ws[0].workloadID != id then [ws[0]] + WithoutID(ws[1..], id)
    else WithoutID(ws[1..], id)
  }

  /** The snapshot after one admission, if the free capacity covers it. */
  function AfterAdmission(inputs: SchedulingInputs, w: QueuedWorkload, now: int): Result<SchedulingInputs> {
    var f := inputs.fleet;
    if w.profile !in f.byProfile then Err(ProfileNotInFleet)
    else
      var c := f.byProfile[w.profile];
      var memory := w.gpuCount * c.memoryMiBPerDevice;
      if c.freeDevices < w.gpuCount || c.freeMemoryMiB < memory then Err(CapacityWouldBeNegative)
      else
        var c' := c.(freeDevices := c.freeDevices - w.gpuCount, freeMemoryMiB := c.freeMemoryMiB - memory);
        Ok(SchedulingInputs(
          WithoutID(inputs.queued, w.workloadID), inputs.scheduled, inputs.running + [AsRunning(w, now)],
          FleetFreeCapacity(f.totalFreeDevices - w.gpuCount, f.totalFreeMemoryMiB - memory,
            f.byProfile[w.profile := c']),
          inputs.quotas))
  }

  lemma {:induction false} WithoutIDSnoc(ws: seq<QueuedWorkload>, w: QueuedWorkload, id: string)
    ensures WithoutID(ws + [w], id) == if w.workloadID != id then WithoutID(ws, id) + [w] else WithoutID(ws, id)
  {
    if ws == [] {
      assert ws + [w] == [w];
      assert WithoutID([w][1..], id) == [];
    } else {
      assert (ws + [w])[1..] == ws[1..] + [w];
      WithoutIDSnoc(ws[1..], w, id);
    }
  }

  /** The running workload is the queued one, field by field but for the time. */
  predicate Continues(r: RunningWorkload, w: QueuedWorkload) {
    && r.workloadID == w.workloadID && r.tenant == w.tenant && r.priority == w.priority && r.gpuCount == w.gpuCount
    && r.gpuMemoryMiB == w.gpuMemoryMiB && r.profile == w.profile && r.tokens == w.tokens && r.kind == w.kind
  }

  /** Go sizes the new queue as one less than the old, so the queue must not be empty. */
  method ApplyVirtualAdmission(inputs: SchedulingInputs, admitted: QueuedWorkload, now: int)
    returns (r: Result<SchedulingInputs>)
    requires |inputs.queued| >= 1
    ensures r == AfterAdmission(inputs, admitted, now)
    ensures r.Ok? <==>
              && admitted.profile in inputs.fleet.byProfile
              && var c := inputs.fleet.byProfile[admitted.profile];
                 admitted.gpuCount <= c.freeDevices && admitted.gpuCount * c.memoryMiBPerDevice <= c.freeMemoryMiB
    ensures r.Ok? ==>
              var next := r.value;
              && (forall w :: w in next.queued <==> w in inputs.queued && w.workloadID != admitted.workloadID)
              && next.scheduled == inputs.scheduled && next.quotas == inputs.quotas
              && |next.running| == |inputs.running| + 1 && inputs.running <= next.running
              && Continues(next.running[|inputs.running|], admitted) && next.running[|inputs.running|].startedAt == now
    ensures r.Ok? ==>
              var before, after := inputs.fleet, r.value.fleet;
              && after.byProfile.Keys == before.byProfile.Keys
              && (forall p | p in before.byProfile ::
                    var taken := if p == admitted.profile then admitted.gpuCount else 0;
                    && after.byProfile[p].memoryMiBPerDevice == before.byProfile[p].memoryMiBPerDevice
                    && after.byProfile[p].freeDevices + taken == before.byProfile[p].freeDevices
                    && after.byProfile[p].freeMemoryMiB + taken * before.byProfile[p].memoryMiBPerDevice
                       == before.byProfile[p].freeMemoryMiB)
              && after.totalFreeDevices + admitted.gpuCount == before.totalFreeDevices
              && after.totalFreeMemoryMiB
                 + admitted.gpuCount * before.byProfile[admitted.profile].memoryMiBPerDevice
                   == before.totalFreeMemoryMiB
  {
    WithoutIDFacts(inputs.queued, admitted.workloadID);
    var queued: seq<QueuedWorkload> := [];
    for i := 0 to |inputs.queued|
      invariant queued == WithoutID(inputs.queued[..i], admitted.workloadID)
    {
      assert inputs.queued[..i + 1] == inputs.queued[..i] + [inputs.queued[i]];
      WithoutIDSnoc(inputs.queued[..i], inputs.queued[i], admitted.workloadID);
      if inputs.queued[i].workloadID != admitted.workloadID {
        queued := queued + [inputs.queued[i]];
      }
    }
    assert inputs.queued[..|inputs.queued|] == inputs.queued;
    var out := SchedulingInputs(
      queued, inputs.scheduled, inputs.running + [AsRunning(admitted, now)], inputs.fleet, inputs.quotas);
    if admitted.profile !in out.fleet.byProfile {
      return Err(ProfileNotInFleet);
    }
    var c := out.fleet.byProfile[admitted.profile];
    c := c.(freeDevices := c.freeDevices - admitted.gpuCount,
            freeMemoryMiB := c.freeMemoryMiB - admitted.gpuCount * c.memoryMiBPerDevice);
    if c.freeDevices < 0 || c.freeMemoryMiB < 0 {
      return Err(CapacityWouldBeNegative);
    }
    out := out.(fleet := FleetFreeCapacity(
      out.fleet.totalFreeDevices - admitted.gpuCount,
      out.fleet.totalFreeMemoryMiB - admitted.gpuCount * c.memoryMiBPerDevice,
      out.fleet.byProfile[admitted.profile := c]));
    return Ok(out);
  }

  lemma {:induction false} WithoutIDFacts(ws: seq<QueuedWorkload>, id: string)
    ensures forall w :: w in WithoutID(ws, id) <==> w in ws && w.workloadID != id
  {
    if ws != [] {
      WithoutIDFacts(ws[1..], id);
      assert forall w :: w in ws <==> w == ws[0] || w in ws[1..];
    }
  }

  lemma {:induction false} WithoutAbsentID(ws: seq<QueuedWorkload>, id: string)
    requires id !in QueuedIDs(ws)
    ensures WithoutID(ws, id) == ws
  {
    if ws != [] {
      assert QueuedIDs(ws)[0] == ws[0].workloadID;
      assert QueuedIDs(ws[1..]) == QueuedIDs(ws)[1..];
      WithoutAbsentID(ws[1..], id);
      assert ws == [ws[0]] + ws[1..];
    }
  }

  lemma QueuedIDsCons(w: QueuedWorkload, ws: seq<QueuedWorkload>)
    ensures QueuedIDs([w] + ws) == [w.workloadID] + QueuedIDs(ws)
    ensures multiset(QueuedIDs([w] + ws)) == multiset{w.workloadID} + multiset(QueuedIDs(ws))
  {
    assert QueuedIDs([w] + ws) == [w.workloadID] + QueuedIDs(ws);
  }

  /** Removing a workload whose identifier occurs once removes exactly that identifier. */
  lemma {:induction false} WithoutIDCounts(ws: seq<QueuedWorkload>, id: string)
    requires multiset(QueuedIDs(ws))[id] == 1
    ensures |WithoutID(ws, id)| == |ws| - 1
    ensures multiset(QueuedIDs(ws)) == multiset(QueuedIDs(WithoutID(ws, id))) + multiset{id}
  {
    assert ws != [];
    var head, tail := ws[0], ws[1..];
    assert ws == [head] + tail;
    QueuedIDsCons(head, tail);
    if head.workloadID == id {
      assert id !in multiset(QueuedIDs(tail));
      WithoutAbsentID(tail, id);
    } else {
      WithoutIDCounts(tail, id);
      QueuedIDsCons(head, WithoutID(tail, id));
    }
  }

  lemma QueuedPartDistinct(inputs: SchedulingInputs)
    requires Distinct(AllIDs(inputs))
    ensures Distinct(QueuedIDs(inputs.queued))
  {
    FreshParts(QueuedIDs(inputs.queued), IDs(inputs.scheduled), IDs(inputs.running));
  }

  lemma AdmissionMovesOneID(inputs: SchedulingInputs, w: QueuedWorkload, now: int)
    requires Distinct(AllIDs(inputs)) && w in inputs.queued
    requires AfterAdmission(inputs, w, now).Ok?
    ensures var out := AfterAdmission(inputs, w, now).value;
            multiset(AllIDs(out)) == multiset(AllIDs(inputs)) && |out.queued| == |inputs.queued| - 1
  {
    var out := AfterAdmission(inputs, w, now).value;
    QueuedPartDistinct(inputs);
    var i := IndexOf(inputs.queued, w);
    assert QueuedIDs(inputs.queued)[i] == w.workloadID;
    DistinctCounts(QueuedIDs(inputs.queued));
    assert w.workloadID in multiset(QueuedIDs(inputs.queued));
    WithoutIDCounts(inputs.queued, w.workloadID);
    assert IDs(out.running) == IDs(inputs.running) + [w.workloadID];
  }

  lemma TotalsUpdate(byProfile: map<string, ProfileFreeCapacity>, p: string, c: ProfileFreeCapacity)
    ensures MapSum(DeviceMap(byProfile[p := c]))
         == MapSum(DeviceMap(byProfile)) + c.freeDevices - (if p in byProfile then byProfile[p].freeDevices else 0)
    ensures MapSum(MemoryMap(byProfile[p := c]))
         == MapSum(MemoryMap(byProfile)) + c.freeMemoryMiB - (if p in byProfile then byProfile[p].freeMemoryMiB else 0)
  {
    assert DeviceMap(byProfile[p := c]) == DeviceMap(byProfile)[p := c.freeDevices];
    assert MemoryMap(byProfile[p := c]) == MemoryMap(byProfile)[p := c.freeMemoryMiB];
    MapSumUpdate(DeviceMap(byProfile), p, c.freeDevices);
    MapSumUpdate(MemoryMap(byProfile), p, c.freeMemoryMiB);
  }

  lemma AdmissionKeepsFleetOk(inputs: SchedulingInputs, w: QueuedWorkload, now: int)
    requires FleetOk(inputs.fleet) && w.gpuCount > 0
    requires AfterAdmission(inputs, w, now).Ok?
    ensures FleetOk(AfterAdmission(inputs, w, now).value.fleet)
  {
    var f, f' := inputs.fleet, AfterAdmission(inputs, w, now).value.fleet;
    var p := w.profile;
    TotalsUpdate(f.byProfile, p, f'.byProfile[p]);
    MapSumNonNegative(DeviceMap(f'.byProfile));
    MapSumNonNegative(MemoryMap(f'.byProfile));
  }

  lemma {:induction false} MapSumNonNegative(m: map<string, int>)
    requires forall k | k in m :: m[k] >= 0
    ensures MapSum(m) >= 0
    decreases |m|
  {
    if m != map[] {
      MapSumNonNegative(m - {AnyKey(m)});
    }
  }

  /** Validity is a batch invariant: a successful virtual admission of a queued workload leads from
      valid inputs to valid inputs over the same identifiers, so nothing need be validated again. */
  lemma AdmissionKeepsValid(inputs: SchedulingInputs, w: QueuedWorkload, now: int)
    requires ValidInputs(inputs) && w in inputs.queued && now != 0
    requires AfterAdmission(inputs, w, now).Ok?
    ensures var out := AfterAdmission(inputs, w, now).value;
            && ValidInputs(out)
            && multiset(AllIDs(out)) == multiset(AllIDs(inputs))
            && |out.queued| == |inputs.queued| - 1
            && (forall v :: v in out.queued <==> v in inputs.queued && v.workloadID != w.workloadID)
  {
    var out := AfterAdmission(inputs, w, now).value;
    AdmissionMovesOneID(inputs, w, now);
    DistinctPermuted(AllIDs(inputs), AllIDs(out));
    WithoutIDFacts(inputs.queued, w.workloadID);
    AdmissionKeepsFleetOk(inputs, w, now);
    assert CommittedOk(AsRunning(w, now), true);
  }

  /** The scan for a queued workload; under validity the identifier names at most one. */
  method QueuedWorkloadByID(inputs: SchedulingInputs, id: string) returns (r: Option<QueuedWorkload>)
    ensures r.None? <==> id !in QueuedIDs(inputs.queued)
    ensures r.Some? ==> r.value in inputs.queued && r.value.workloadID == id
    ensures r.Some? && Distinct(AllIDs(inputs)) ==> forall w | w in inputs.queued && w.workloadID == id :: w == r.value
  {
    for i := 0 to |inputs.queued|
      invariant id !in QueuedIDs(inputs.queued)[..i]
    {
      if inputs.queued[i].workloadID == id {
        assert QueuedIDs(inputs.queued)[i] == id;
        if Distinct(AllIDs(inputs)) {
          QueuedPartDistinct(inputs);
          forall w | w in inputs.queued && w.workloadID == id ensures w == inputs.queued[i] {
            var k := IndexOf(inputs.queued, w);
            assert QueuedIDs(inputs.queued)[k] == id;
          }
        }
        return Some(inputs.queued[i]);
      }
    }
    assert QueuedIDs(inputs.queued)[..|inputs.queued|] == QueuedIDs(inputs.queued);
    return None;
  }

  // ---------------------------------------------------------------- fleet aggregation

  datatype Pool = Pool(profile: string, memoryMiBPerDevice: int, availableDevices: int)

  function PoolDevices(p: Pool): int { p.availableDevices }

  function PoolMemory(p: Pool): int { p.availableDevices * p.memoryMiBPerDevice }

  /** The pools filed under one normalized profile. */
  function PoolsOf(pools: seq<Pool>, key: string): seq<Pool> {
    if pools == [] then []
    else if NormalizeProfile(pools[0].profile) == key then [pools[0]] + PoolsOf(pools[1..], key)
    else PoolsOf(pools[1..], key)
  }

  function FirstMemory(pools: seq<Pool>): int {
    if pools == [] then 0
    else if pools[0].memoryMiBPerDevice != 0 then pools[0].memoryMiBPerDevice
    else FirstMemory(pools[1..])
  }

  /** What the pools of one profile add up to. */
  function Aggregated(pools: seq<Pool>, key: string): ProfileFreeCapacity {
    var mine := PoolsOf(pools, key);
    ProfileFreeCapacity(SumBy(mine, PoolDevices), SumBy(mine, PoolMemory), FirstMemory(mine))
  }

  lemma {:induction false} PoolsOfSnoc(pools: seq<Pool>, p: Pool, key: string)
    ensures PoolsOf(pools + [p], key) == PoolsOf(pools, key) + if NormalizeProfile(p.profile) == key then [p] else []
  {
    if pools == [] {
      assert pools + [p] == [p];
      assert PoolsOf([p][1..], key) == [];
    } else {
      assert (pools + [p])[1..] == pools[1..] + [p];
      PoolsOfSnoc(pools[1..], p, key);
    }
  }

  lemma {:induction false} FirstMemorySnoc(pools: seq<Pool>, p: Pool)
    ensures FirstMemory(pools + [p]) == if FirstMemory(pools) == 0 then p.memoryMiBPerDevice else FirstMemory(pools)
  {
    if pools == [] {
      assert pools + [p] == [p];
      assert FirstMemory([p][1..]) == 0;
    } else {
      assert (pools + [p])[1..] == pools[1..] + [p];
      FirstMemorySnoc(pools[1..], p);
    }
  }

  /** One more pool of the same profile. */
  function Merge(c: ProfileFreeCapacity, p: Pool): ProfileFreeCapacity {
    ProfileFreeCapacity(c.freeDevices + PoolDevices(p), c.freeMemoryMiB + PoolMemory(p),
                        if c.memoryMiBPerDevice == 0 then p.memoryMiBPerDevice else c.memoryMiBPerDevice)
  }

  lemma AggregatedSnoc(pools: seq<Pool>, p: Pool, key: string)
    ensures Aggregated(pools + [p], key) ==
              if NormalizeProfile(p.profile) == key then Merge(Aggregated(pools, key), p) else Aggregated(pools, key)
  {
    PoolsOfSnoc(pools, p, key);
    var mine := PoolsOf(pools, key);
    assert mine + [] == mine;
    if NormalizeProfile(p.profile) == key {
      SumBySnoc(mine, p, PoolDevices);
      SumBySnoc(mine, p, PoolMemory);
      FirstMemorySnoc(mine, p);
    }
  }

  /** The profiles of a list of pools, normalized; blank ones are skipped. */
  function Profiles(pools: seq<Pool>): set<string> {
    set p | p in pools && NormalizeProfile(p.profile) != "" :: NormalizeProfile(p.profile)
  }

  lemma ProfilesSnoc(pools: seq<Pool>, p: Pool)
    ensures Profiles(pools + [p])
         == Profiles(pools) + if NormalizeProfile(p.profile) == "" then {} else {NormalizeProfile(p.profile)}
  {
    assert forall q :: q in pools + [p] <==> q in pools || q == p;
  }

  /** A missing profile reads as Go's zero value. */
  function Lookup(byProfile: map<string, ProfileFreeCapacity>, key: string): ProfileFreeCapacity {
    if key in byProfile then byProfile[key] else ProfileFreeCapacity(0, 0, 0)
  }

  /** Profile by profile, the map holds what the pools add up to. */
  ghost predicate PerProfile(pools: seq<Pool>, byProfile: map<string, ProfileFreeCapacity>) {
    && (forall key :: key in byProfile <==> key in Profiles(pools))
    && (forall key | key in byProfile :: byProfile[key] == Aggregated(pools, key))
  }

  /** The fleet adds up to its pools, and the totals to the profiles. */
  ghost predicate Aggregates(pools: seq<Pool>, f: FleetFreeCapacity) {
    && PerProfile(pools, f.byProfile)
    && f.totalFreeDevices == MapSum(DeviceMap(f.byProfile))
    && f.totalFreeMemoryMiB == MapSum(MemoryMap(f.byProfile))
  }

  lemma AbsentPools(pools: seq<Pool>, key: string)
    requires key != "" && key !in Profiles(pools)
    ensures Aggregated(pools, key) == ProfileFreeCapacity(0, 0, 0)
  {
    NoPoolsOf(pools, key);
  }

  lemma {:induction false} NoPoolsOf(pools: seq<Pool>, key: string)
    requires key != "" && key !in Profiles(pools)
    ensures PoolsOf(pools, key) == []
  {
    if pools != [] {
      assert pools[0] in pools;
      assert forall p | p in pools[1..] :: p in pools;
      NoPoolsOf(pools[1..], key);
    }
  }

  lemma LookupIsAggregated(pools: seq<Pool>, byProfile: map<string, ProfileFreeCapacity>, key: string)
    requires PerProfile(pools, byProfile) && key != ""
    ensures Lookup(byProfile, key) == Aggregated(pools, key)
  {
    if key !in byProfile {
      AbsentPools(pools, key);
    }
  }

  lemma PerProfileSkip(pools: seq<Pool>, byProfile: map<string, ProfileFreeCapacity>, p: Pool)
    requires PerProfile(pools, byProfile) && NormalizeProfile(p.profile) == ""
    ensures PerProfile(pools + [p], byProfile)
  {
    ProfilesSnoc(pools, p);
    forall k | k in byProfile ensures Aggregated(pools + [p], k) == byProfile[k] {
      AggregatedSnoc(pools, p, k);
    }
  }

  lemma PerProfileSnoc(pools: seq<Pool>, byProfile: map<string, ProfileFreeCapacity>, p: Pool, key: string)
    requires PerProfile(pools, byProfile) && key == NormalizeProfile(p.profile) != ""
    ensures PerProfile(pools + [p], byProfile[key := Merge(Lookup(byProfile, key), p)])
  {
    ProfilesSnoc(pools, p);
    LookupIsAggregated(pools, byProfile, key);
    var out := byProfile[key := Merge(Lookup(byProfile, key), p)];
    forall k | k in out ensures Aggregated(pools + [p], k) == out[k] {
      AggregatedSnoc(pools, p, k);
    }
  }

  /** Adding a pool that has a profile. */
  lemma AggregatesSnoc(pools: seq<Pool>, f: FleetFreeCapacity, p: Pool, key: string)
    requires Aggregates(pools, f) && key == NormalizeProfile(p.profile) != ""
    ensures Aggregates(pools + [p], FleetFreeCapacity(
              f.totalFreeDevices + PoolDevices(p), f.totalFreeMemoryMiB + PoolMemory(p),
              f.byProfile[key := Merge(Lookup(f.byProfile, key), p)]))
  {
    PerProfileSnoc(pools, f.byProfile, p, key);
    TotalsUpdate(f.byProfile, key, Merge(Lookup(f.byProfile, key), p));
  }

  lemma AggregatesSkip(pools: seq<Pool>, f: FleetFreeCapacity, p: Pool)
    requires Aggregates(pools, f) && NormalizeProfile(p.profile) == ""
    ensures Aggregates(pools + [p], f)
  {
    PerProfileSkip(pools, f.byProfile, p);
  }

  method AggregateFleetFromPools(pools: seq<Pool>) returns (out: FleetFreeCapacity)
    ensures Aggregates(pools, out)
  {
    out := FleetFreeCapacity(0, 0, map[]);
    for i := 0 to |pools|
      invariant Aggregates(pools[..i], out)
    {
      var p := pools[i];
      assert pools[..i + 1] == pools[..i] + [p];
      var key := NormalizeProfile(p.profile);
      if key == "" {
        AggregatesSkip(pools[..i], out, p);
        continue;
      }
      var memory := p.availableDevices * p.memoryMiBPerDevice;
      var existing := Lookup(out.byProfile, key);
      existing := existing.(freeDevices := existing.freeDevices + p.availableDevices,
                            freeMemoryMiB := existing.freeMemoryMiB + memory);
      if existing.memoryMiBPerDevice == 0 {
        existing := existing.(memoryMiBPerDevice := p.memoryMiBPerDevice);
      }
      assert existing == Merge(Lookup(out.byProfile, key), p);
      AggregatesSnoc(pools[..i], out, p, key);
      out := FleetFreeCapacity(out.totalFreeDevices + p.availableDevices, out.totalFreeMemoryMiB + memory,
                               out.byProfile[key := existing]);
    }
    assert pools[..|pools|] == pools;
  }

  lemma {:induction false} LowerTrimNotBlank(s: string)
    requires Trim(s) != []
    ensures !Blank(Lower(Trim(s)))
    decreases |s|
  {
    if IsSpace(s[0]) {
      LowerTrimNotBlank(s[1..]);
    } else if IsSpace(s[|s| - 1]) {
      LowerTrimNotBlank(s[..|s| - 1]);
    } else {
      assert Lower(s)[0] == LowerChar(s[0]) && Lower(s)[0] in Lower(s);
    }
  }

  lemma {:induction false} PoolsOfWithin(pools: seq<Pool>, key: string, p: Pool)
    requires p in PoolsOf(pools, key)
    ensures p in pools
  {
    if p in PoolsOf(pools[1..], key) {
      PoolsOfWithin(pools[1..], key, p);
    }
  }

  lemma AggregatedCapacityOk(pools: seq<Pool>, key: string)
    requires forall p | p in pools :: p.availableDevices >= 0 && p.memoryMiBPerDevice >= 1
    ensures CapacityOk(Aggregated(pools, key))
  {
    var mine := PoolsOf(pools, key);
    forall p | p in mine ensures p in pools && PoolDevices(p) >= 0 && PoolMemory(p) >= 0 {
      PoolsOfWithin(pools, key, p);
      assert p.availableDevices * p.memoryMiBPerDevice >= 0;
    }
    SumByNonNegative(mine, PoolDevices);
    SumByNonNegative(mine, PoolMemory);
    if mine != [] {
      assert mine[0] in pools;
    }
  }

  /** For pools as the API admits them, with availability never negative, the aggregate satisfies
      every capacity clause of Validate. */
  lemma AggregateIsValid(pools: seq<Pool>, f: FleetFreeCapacity)
    requires Aggregates(pools, f)
    requires forall p | p in pools :: p.availableDevices >= 0 && p.memoryMiBPerDevice >= 1
    ensures FleetOk(f)
  {
    forall key | key in f.byProfile ensures !Blank(key) && CapacityOk(f.byProfile[key]) {
      var p :| p in pools && NormalizeProfile(p.profile) == key && key != "";
      LowerTrimNotBlank(p.profile);
      AggregatedCapacityOk(pools, key);
    }
    MapSumNonNegative(DeviceMap(f.byProfile));
    MapSumNonNegative(MemoryMap(f.byProfile));
  }
}
