/** Runs over time: what polls of internal/sim/contract.go report and when, in every sequence of operations. */
module Timing {
  import opened Sequences
  import opened AcceleratorSim

  // ---------------------------------------------------------------- one operation, one run

  predicate IsPoll(op: Op) { op.Poll? || op.PollLatest? }

  /** The operation may look at the run: it polls it by name, or polls its workload, of which no other run
      was started later. */
  ghost predicate MayLook(s: Sim, op: Op, id: string)
    requires id in s.runs
  {
    || (op.Poll? && op.runID == id)
    || (&& op.PollLatest? && op.w == s.runs[id].workloadID
        && forall k | k in s.runs && s.runs[k].workloadID == op.w :: s.runs[k].startedAt <= s.runs[id].startedAt)
  }

  /** The operation does look at the run: the same, with every other run of the workload started earlier. */
  ghost predicate Looks(s: Sim, op: Op, id: string)
    requires id in s.runs
  {
    || (op.Poll? && op.runID == id)
    || (&& op.PollLatest? && op.w == s.runs[id].workloadID
        && forall k | k in s.runs && k != id && s.runs[k].workloadID == op.w ::
             s.runs[k].startedAt < s.runs[id].startedAt)
  }

  /** What an operation does to a running run. */
  lemma RunningNext(s: Sim, op: Op, s': Sim, id: string)
    requires Valid(s) && Step(s, op, s') && id in s.runs && s.runs[id].status == RunRunning
    ensures id in s'.runs && s'.runs[id] == s.runs[id].(status := s'.runs[id].status)
    ensures s'.runs[id].status in {RunRunning, RunSucceeded, RunPreempted}
    ensures s'.runs[id].status == RunSucceeded ==> MayLook(s, op, id) && s.runs[id].endsAt <= op.now
    ensures IsPoll(op) && Looks(s, op, id) && s.runs[id].endsAt <= op.now ==> s'.runs[id].status == RunSucceeded
    ensures s'.runs[id].status == RunPreempted <==> op == Preempt(s.runs[id].workloadID)
  {
    NextRunIsNew(s);
    if op.Preempt? {
      assert IsRunning(s.runs, s.runs[id].workloadID, id);
      forall k | IsRunning(s.runs, s.runs[id].workloadID, k) ensures k == id {
      }
    }
  }

  /** A run comes into being by a start, running, with the time it will take. */
  lemma BornByStart(s: Sim, op: Op, s': Sim, id: string)
    requires Step(s, op, s') && id !in s.runs && id in s'.runs
    ensures op.Start? && s'.runs[id] == Run(op.w, op.now, op.now + op.seconds, RunRunning)
  {
  }

  // ---------------------------------------------------------------- whole traces

  /** Run `id` is started by operation `j`. */
  ghost predicate StartedBy(states: seq<Sim>, ops: seq<Op>, j: nat, id: string) {
    && IsTrace(states, ops) && j < |ops| && id !in states[j].runs && id in states[j + 1].runs
  }

  lemma BornAt(states: seq<Sim>, ops: seq<Op>, j: nat, id: string)
    requires StartedBy(states, ops, j, id)
    ensures ops[j].Start?
    ensures states[j + 1].runs[id] == Run(ops[j].w, ops[j].now, ops[j].now + ops[j].seconds, RunRunning)
  {
    assert Step(states[j], ops[j], states[j + 1]);
    BornByStart(states[j], ops[j], states[j + 1], id);
  }

  /** In every later state the run is there, as it was started but for its status. */
  lemma StaysOnRecord(states: seq<Sim>, ops: seq<Op>, j: nat, k: nat, id: string)
    requires StartedBy(states, ops, j, id) && j < k < |states|
    ensures ops[j].Start? && id in states[k].runs
    ensures states[k].runs[id]
         == Run(ops[j].w, ops[j].now, ops[j].now + ops[j].seconds, states[k].runs[id].status)
  {
    BornAt(states, ops, j, id);
    TraceEvolves(states, ops, j + 1, k);
  }

  /** Operation `m` ended the run: a poll that may have looked at it, at or after its end. */
  ghost predicate EndedBy(states: seq<Sim>, ops: seq<Op>, m: nat, id: string)
    requires |ops| < |states|
  {
    && m < |ops| && id in states[m].runs && states[m].runs[id].status == RunRunning
    && IsPoll(ops[m]) && MayLook(states[m], ops[m], id) && states[m].runs[id].endsAt <= ops[m].now
  }

  lemma StepAt(states: seq<Sim>, ops: seq<Op>, k: nat)
    requires IsTrace(states, ops) && k < |ops|
    ensures Valid(states[k]) && Step(states[k], ops[k], states[k + 1]) && Evolves(states[k], states[k + 1])
  {
    TraceStaysValid(states, ops, k);
    assert Step(states[k], ops[k], states[k + 1]);
    StepEvolves(states[k], ops[k], states[k + 1]);
  }

  /** In state `k` the run has this status. */
  ghost function StatusAt(states: seq<Sim>, id: string, status: Status): nat -> bool {
    (k: nat) => k < |states| && id in states[k].runs && states[k].runs[id].status == status
  }

  lemma EndedHere(states: seq<Sim>, ops: seq<Op>, k: nat, id: string)
    requires IsTrace(states, ops) && k < |ops| && id in states[k].runs
    requires !StatusAt(states, id, RunSucceeded)(k) && StatusAt(states, id, RunSucceeded)(k + 1)
    ensures EndedBy(states, ops, k, id)
  {
    StepAt(states, ops, k);
    RunningNext(states[k], ops[k], states[k + 1], id);
  }

  lemma SucceededBecause(states: seq<Sim>, ops: seq<Op>, j: nat, k: nat, id: string) returns (m: nat)
    requires StartedBy(states, ops, j, id) && j < k < |states| && StatusAt(states, id, RunSucceeded)(k)
    ensures j < m < k && EndedBy(states, ops, m, id)
  {
    BornAt(states, ops, j, id);
    m := ComesToHold(StatusAt(states, id, RunSucceeded), j + 1, k);
    StaysOnRecord(states, ops, j, m, id);
    EndedHere(states, ops, m, id);
  }

  /** In every trace a run is Succeeded only if a poll looked at it when its time was up: no earlier than the
      start plus the estimate. */
  lemma SucceededOnlyAfterEnd(states: seq<Sim>, ops: seq<Op>, j: nat, k: nat, id: string)
    requires StartedBy(states, ops, j, id) && j < k < |states|
    requires StatusAt(states, id, RunSucceeded)(k)
    ensures ops[j].Start?
    ensures exists m | j < m < k :: IsPoll(ops[m]) && ops[j].now + ops[j].seconds <= ops[m].now
              && id in states[m].runs && MayLook(states[m], ops[m], id)
  {
    var m := SucceededBecause(states, ops, j, k, id);
    StaysOnRecord(states, ops, j, m, id);
  }

  ghost predicate NotPreempted(ops: seq<Op>, w: string, j: nat, k: nat) {
    forall m | j < m < k && m < |ops| :: ops[m] != Preempt(w)
  }

  /** Polls before operation `k` come before the run's end. */
  ghost predicate PolledEarly(ops: seq<Op>, end: int, j: nat, k: nat) {
    forall m | j < m < k && m < |ops| && IsPoll(ops[m]) :: ops[m].now < end
  }

  lemma StillRunningNext(states: seq<Sim>, ops: seq<Op>, j: nat, k: nat, id: string)
    requires StartedBy(states, ops, j, id) && j < k < |ops| && StatusAt(states, id, RunRunning)(k)
    requires ops[j].Start? && ops[k] != Preempt(ops[j].w)
    requires IsPoll(ops[k]) ==> ops[k].now < ops[j].now + ops[j].seconds
    ensures StatusAt(states, id, RunRunning)(k + 1)
  {
    StaysOnRecord(states, ops, j, k, id);
    StepAt(states, ops, k);
    RunningNext(states[k], ops[k], states[k + 1], id);
  }

  /** Until its time is up a run that is not preempted keeps running. */
  lemma RunsUntilEnd(states: seq<Sim>, ops: seq<Op>, j: nat, k: nat, id: string)
    requires StartedBy(states, ops, j, id) && j < k < |states| && ops[j].Start?
    requires NotPreempted(ops, ops[j].w, j, k) && PolledEarly(ops, ops[j].now + ops[j].seconds, j, k)
    ensures StatusAt(states, id, RunRunning)(k)
  {
    BornAt(states, ops, j, id);
    var running := StatusAt(states, id, RunRunning);
    forall m | j + 1 <= m < k && running(m) ensures running(m + 1) {
      StillRunningNext(states, ops, j, m, id);
    }
    KeptThroughout(running, j + 1, k);
  }

  /** In state `k` the run is running or has succeeded. */
  ghost function WellAt(states: seq<Sim>, id: string): nat -> bool {
    (k: nat) =>
      k < |states| && id in states[k].runs && states[k].runs[id].status in {RunRunning, RunSucceeded}
  }

  lemma WellNext(states: seq<Sim>, ops: seq<Op>, j: nat, k: nat, id: string)
    requires StartedBy(states, ops, j, id) && j < k < |ops| && WellAt(states, id)(k)
    requires ops[j].Start? && ops[k] != Preempt(ops[j].w)
    ensures WellAt(states, id)(k + 1)
  {
    StaysOnRecord(states, ops, j, k, id);
    StepAt(states, ops, k);
    if states[k].runs[id].status == RunRunning {
      RunningNext(states[k], ops[k], states[k + 1], id);
    }
  }

  lemma NotPreemptedStatus(states: seq<Sim>, ops: seq<Op>, j: nat, k: nat, id: string)
    requires StartedBy(states, ops, j, id) && j < k < |states| && ops[j].Start?
    requires NotPreempted(ops, ops[j].w, j, k)
    ensures WellAt(states, id)(k)
  {
    BornAt(states, ops, j, id);
    var well := WellAt(states, id);
    forall m | j + 1 <= m < k && well(m) ensures well(m + 1) {
      WellNext(states, ops, j, m, id);
    }
    KeptThroughout(well, j + 1, k);
  }

  // ---------------------------------------------------------------- what polls report

  /** The clock polls are made by never goes back. */
  ghost predicate ClockRuns(ops: seq<Op>) {
    forall a, b | 0 <= a < b < |ops| && IsPoll(ops[a]) && IsPoll(ops[b]) :: ops[a].now <= ops[b].now
  }

  lemma LateLook(states: seq<Sim>, ops: seq<Op>, j: nat, k: nat, id: string)
    requires StartedBy(states, ops, j, id) && j < k < |ops| && ops[j].Start? && WellAt(states, id)(k)
    requires IsPoll(ops[k]) && Looks(states[k], ops[k], id) && ops[j].now + ops[j].seconds <= ops[k].now
    ensures StatusAt(states, id, RunSucceeded)(k + 1)
  {
    StaysOnRecord(states, ops, j, k, id);
    StepAt(states, ops, k);
    if states[k].runs[id].status == RunRunning {
      RunningNext(states[k], ops[k], states[k + 1], id);
    }
  }

  /** A poll that looks at a run which has not been preempted finds it Running before start plus estimate,
      and Succeeded from then on. */
  lemma ReportsByTheClock(states: seq<Sim>, ops: seq<Op>, j: nat, k: nat, id: string)
    requires StartedBy(states, ops, j, id) && j < k < |ops| && ClockRuns(ops) && ops[j].Start?
    requires NotPreempted(ops, ops[j].w, j, k) && id in states[k].runs
    requires IsPoll(ops[k]) && Looks(states[k], ops[k], id)
    ensures id in states[k + 1].runs
    ensures states[k + 1].runs[id].status
         == if ops[k].now < ops[j].now + ops[j].seconds then RunRunning else RunSucceeded
  {
    var end := ops[j].now + ops[j].seconds;
    if ops[k].now < end {
      assert PolledEarly(ops, end, j, k + 1);
      RunsUntilEnd(states, ops, j, k + 1, id);
    } else {
      NotPreemptedStatus(states, ops, j, k, id);
      LateLook(states, ops, j, k, id);
    }
  }

  /** Preempted while it runs, a run stays Preempted whatever is polled later. */
  lemma PreemptedForGood(states: seq<Sim>, ops: seq<Op>, j: nat, m: nat, k: nat, id: string)
    requires StartedBy(states, ops, j, id) && j < m < k < |states| && ops[j].Start?
    requires ops[m] == Preempt(ops[j].w) && StatusAt(states, id, RunRunning)(m)
    ensures id in states[k].runs && states[k].runs[id].status == RunPreempted
  {
    StaysOnRecord(states, ops, j, m, id);
    StepAt(states, ops, m);
    RunningNext(states[m], ops[m], states[m + 1], id);
    TraceEvolves(states, ops, m + 1, k);
  }
}
