/** The in-memory scheduling index (schedulerState in internal/controller/scheduler_loop.go): three
    phase buckets per namespace, fed by watch events. */
module Index {
  import opened Sequences
  import opened Workloads
  import opened Inputs
  import opened Phases

  // ---------------------------------------------------------------- nested maps

  type Bucket<V> = map<string, map<string, V>>

  predicate Has<V>(b: Bucket<V>, ns: string, id: string) {
    ns in b && id in b[ns]
  }

  function Put<V>(b: Bucket<V>, ns: string, id: string, v: V): Bucket<V> {
    b[ns := (if ns in b then b[ns] else map[])[id := v]]
  }

  /** Deletes the entry, and the inner map once it is empty. */
  function Drop<V>(b: Bucket<V>, ns: string, id: string): Bucket<V> {
    if ns !in b then b
    else
      var inner := b[ns] - {id};
      if |inner| == 0 then b - {ns} else b[ns := inner]
  }

  ghost predicate NoEmptyInner<V>(b: Bucket<V>) {
    forall ns | ns in b :: b[ns] != map[]
  }

  lemma PutFacts<V>(b: Bucket<V>, ns: string, id: string, v: V)
    ensures forall n, i :: Has(Put(b, ns, id, v), n, i) <==> (n == ns && i == id) || Has(b, n, i)
    ensures Put(b, ns, id, v)[ns][id] == v
    ensures forall n, i | Has(b, n, i) && !(n == ns && i == id) :: Put(b, ns, id, v)[n][i] == b[n][i]
    ensures NoEmptyInner(b) ==> NoEmptyInner(Put(b, ns, id, v))
  {
    assert id in Put(b, ns, id, v)[ns];
  }

  lemma DropFacts<V>(b: Bucket<V>, ns: string, id: string)
    ensures forall n, i :: Has(Drop(b, ns, id), n, i) <==> Has(b, n, i) && !(n == ns && i == id)
    ensures forall n, i | Has(Drop(b, ns, id), n, i) :: Drop(b, ns, id)[n][i] == b[n][i]
    ensures NoEmptyInner(b) ==> NoEmptyInner(Drop(b, ns, id))
  {
    if ns in b {
      var inner := b[ns] - {id};
      if |inner| == 0 {
        assert inner == map[];
        forall i ensures i in b[ns] ==> i == id {
          assert i !in inner;
        }
      }
    }
  }

  // ---------------------------------------------------------------- the index as a value

  datatype Buckets = Buckets(
    queued: Bucket<QueuedWorkload>, scheduled: Bucket<RunningWorkload>, running: Bucket<RunningWorkload>)

  function Removed(ix: Buckets, ns: string, id: string): Buckets {
    Buckets(Drop(ix.queued, ns, id), Drop(ix.scheduled, ns, id), Drop(ix.running, ns, id))
  }

  function QueuedPut(ix: Buckets, ns: string, q: QueuedWorkload): Buckets {
    ix.(queued := Put(ix.queued, ns, q.workloadID, q))
  }

  /** Leaves any running entry in place. */
  function ScheduledPut(ix: Buckets, ns: string, r: RunningWorkload): Buckets {
    ix.(scheduled := Put(ix.scheduled, ns, r.workloadID, r), queued := Drop(ix.queued, ns, r.workloadID))
  }

  function RunningPut(ix: Buckets, ns: string, r: RunningWorkload): Buckets {
    Buckets(Drop(ix.queued, ns, r.workloadID), Drop(ix.scheduled, ns, r.workloadID),
            Put(ix.running, ns, r.workloadID, r))
  }

  ghost predicate NoEmpty(ix: Buckets) {
    NoEmptyInner(ix.queued) && NoEmptyInner(ix.scheduled) && NoEmptyInner(ix.running)
  }

  /** No workload of the namespace is in two buckets. */
  ghost predicate DisjointIn(ix: Buckets, ns: string) {
    forall id ::
      && !(Has(ix.queued, ns, id) && Has(ix.scheduled, ns, id))
      && !(Has(ix.queued, ns, id) && Has(ix.running, ns, id))
      && !(Has(ix.scheduled, ns, id) && Has(ix.running, ns, id))
  }

  /** No workload is in two buckets. */
  ghost predicate Disjoint(ix: Buckets) {
    forall ns :: DisjointIn(ix, ns)
  }

  /** Entries are filed under their own identifier. */
  ghost predicate Keyed(ix: Buckets) {
    && (forall ns, id | Has(ix.queued, ns, id) :: ix.queued[ns][id].workloadID == id)
    && (forall ns, id | Has(ix.scheduled, ns, id) :: ix.scheduled[ns][id].workloadID == id)
    && (forall ns, id | Has(ix.running, ns, id) :: ix.running[ns][id].workloadID == id)
  }

  // ---------------------------------------------------------------- events

  /** A watched object: identity, phase and the spec fields the scheduler copies. */
  datatype Observed = Observed(
    ns: string, name: string, deleting: bool, phase: Phase, queuedAt: Option<int>,
    tenant: string, priority: int, gpuCount: int, gpuMemoryMiB: int, profile: string, tokens: int, kind: Kind)

  /** `now` is read only when the object carries no queue time. */
  datatype Event = Event(o: Observed, deleted: bool, now: int)

  function WorkloadID(ns: string, name: string): string { ns + "/" + name }

  function EventID(e: Event): string { WorkloadID(e.o.ns, e.o.name) }

  function EventTime(e: Event): int { if e.o.queuedAt.Some? then e.o.queuedAt.value else e.now }

  function ToQueued(e: Event): QueuedWorkload {
    QueuedWorkload(EventID(e), e.o.tenant, e.o.priority, EventTime(e), e.o.gpuCount, e.o.gpuMemoryMiB,
                   NormalizeProfile(e.o.profile), e.o.tokens, e.o.kind)
  }

  function ToRunning(e: Event): RunningWorkload {
    RunningWorkload(EventID(e), e.o.tenant, e.o.priority, EventTime(e), e.o.gpuCount, e.o.gpuMemoryMiB,
                    NormalizeProfile(e.o.profile), e.o.tokens, e.o.kind)
  }

  /** The event takes the workload out of the index. */
  predicate Removes(e: Event) {
    e.deleted || e.o.deleting || e.o.phase !in {Queued, Scheduled, Running}
  }

  function ApplyEvent(ix: Buckets, e: Event): Buckets {
    var ns, id := e.o.ns, EventID(e);
    if Removes(e) then Removed(ix, ns, id)
    else if e.o.phase == Queued then QueuedPut(ix, ns, ToQueued(e))
    else if e.o.phase == Scheduled then ScheduledPut(ix, ns, ToRunning(e))
    else RunningPut(Removed(ix, ns, id), ns, ToRunning(e))
  }

  function ApplyEvents(trace: seq<Event>): Buckets {
    if trace == [] then Buckets(map[], map[], map[])
    else ApplyEvent(ApplyEvents(trace[..|trace| - 1]), trace[|trace| - 1])
  }

  // ---------------------------------------------------------------- reference: last observed phase

  datatype Key = Key(ns: string, id: string)

  datatype Entry =
    | QueuedEntry(q: QueuedWorkload)
    | ScheduledEntry(r: RunningWorkload)
    | RunningEntry(r: RunningWorkload)

  function EventKey(e: Event): Key { Key(e.o.ns, EventID(e)) }

  /** One map from workload to what was last observed of it. */
  function LastSeen(trace: seq<Event>): map<Key, Entry> {
    if trace == [] then map[]
    else Observe(LastSeen(trace[..|trace| - 1]), trace[|trace| - 1])
  }

  function Observe(seen: map<Key, Entry>, e: Event): map<Key, Entry> {
    if Removes(e) then seen - {EventKey(e)}
    else seen[EventKey(e) :=
      if e.o.phase == Queued then QueuedEntry(ToQueued(e))
      else if e.o.phase == Scheduled then ScheduledEntry(ToRunning(e))
      else RunningEntry(ToRunning(e))]
  }

  /** The index says exactly what the reference map says, about one workload. */
  ghost predicate AgreesAt(ix: Buckets, seen: map<Key, Entry>, ns: string, id: string) {
    var k := Key(ns, id);
    && (Has(ix.queued, ns, id) <==> k in seen && seen[k].QueuedEntry?)
    && (Has(ix.scheduled, ns, id) <==> k in seen && seen[k].ScheduledEntry?)
    && (Has(ix.running, ns, id) <==> k in seen && seen[k].RunningEntry?)
    && (Has(ix.queued, ns, id) ==> ix.queued[ns][id] == seen[k].q)
    && (Has(ix.scheduled, ns, id) ==> ix.scheduled[ns][id] == seen[k].r)
    && (Has(ix.running, ns, id) ==> ix.running[ns][id] == seen[k].r)
  }

  ghost predicate Agrees(ix: Buckets, seen: map<Key, Entry>) {
    forall ns, id :: AgreesAt(ix, seen, ns, id)
  }

  /** The event does not move the workload backwards from what was last observed. */
  predicate Forward(seen: map<Key, Entry>, e: Event) {
    !Removes(e) && EventKey(e) in seen ==>
      && (e.o.phase == Queued ==> seen[EventKey(e)].QueuedEntry?)
      && (e.o.phase == Scheduled ==> !seen[EventKey(e)].RunningEntry?)
  }

  // ---------------------------------------------------------------- one event

  lemma RemovedFacts(ix: Buckets, ns: string, id: string)
    ensures NoEmpty(ix) ==> NoEmpty(Removed(ix, ns, id))
    ensures Keyed(ix) ==> Keyed(Removed(ix, ns, id))
    ensures Disjoint(ix) ==> Disjoint(Removed(ix, ns, id))
  {
    DropFacts(ix.queued, ns, id);
    DropFacts(ix.scheduled, ns, id);
    DropFacts(ix.running, ns, id);
    if Disjoint(ix) {
      forall n ensures DisjointIn(Removed(ix, ns, id), n) {
        assert DisjointIn(ix, n);
      }
    }
  }

  lemma RemovedElsewhere(ix: Buckets, seen: map<Key, Entry>, ns: string, id: string, n: string, i: string)
    requires AgreesAt(ix, seen, n, i)
    ensures AgreesAt(Removed(ix, ns, id), seen - {Key(ns, id)}, n, i)
  {
    DropFacts(ix.queued, ns, id);
    DropFacts(ix.scheduled, ns, id);
    DropFacts(ix.running, ns, id);
  }

  lemma QueuedPutAt(ix: Buckets, seen: map<Key, Entry>, ns: string, q: QueuedWorkload, n: string, i: string)
    requires AgreesAt(ix, seen, n, i)
    ensures var ok := AgreesAt(QueuedPut(ix, ns, q), seen[Key(ns, q.workloadID) := QueuedEntry(q)], n, i);
            if n == ns && i == q.workloadID
            then ok <==> (Key(n, i) in seen ==> seen[Key(n, i)].QueuedEntry?)
            else ok
  {
    PutFacts(ix.queued, ns, q.workloadID, q);
  }

  lemma ScheduledPutAt(ix: Buckets, seen: map<Key, Entry>, ns: string, r: RunningWorkload, n: string, i: string)
    requires AgreesAt(ix, seen, n, i)
    ensures var ok := AgreesAt(ScheduledPut(ix, ns, r), seen[Key(ns, r.workloadID) := ScheduledEntry(r)], n, i);
            if n == ns && i == r.workloadID
            then ok <==> (Key(n, i) in seen ==> !seen[Key(n, i)].RunningEntry?)
            else ok
  {
    PutFacts(ix.scheduled, ns, r.workloadID, r);
    DropFacts(ix.queued, ns, r.workloadID);
  }

  lemma RunningPutAt(ix: Buckets, seen: map<Key, Entry>, ns: string, r: RunningWorkload, n: string, i: string)
    requires AgreesAt(ix, seen, n, i)
    ensures AgreesAt(RunningPut(Removed(ix, ns, r.workloadID), ns, r),
                     seen[Key(ns, r.workloadID) := RunningEntry(r)], n, i)
  {
    var less := Removed(ix, ns, r.workloadID);
    RemovedElsewhere(ix, seen, ns, r.workloadID, n, i);
    PutFacts(less.running, ns, r.workloadID, r);
    DropFacts(less.queued, ns, r.workloadID);
    DropFacts(less.scheduled, ns, r.workloadID);
  }

  /** Agreement about one workload survives an event unless the event moves that workload back. */
  lemma EventAt(ix: Buckets, seen: map<Key, Entry>, e: Event, n: string, i: string)
    requires AgreesAt(ix, seen, n, i)
    ensures AgreesAt(ApplyEvent(ix, e), Observe(seen, e), n, i) <==> (Key(n, i) == EventKey(e) ==> Forward(seen, e))
  {
    var ns, id := e.o.ns, EventID(e);
    if Removes(e) {
      RemovedElsewhere(ix, seen, ns, id, n, i);
    } else if e.o.phase == Queued {
      QueuedPutAt(ix, seen, ns, ToQueued(e), n, i);
    } else if e.o.phase == Scheduled {
      ScheduledPutAt(ix, seen, ns, ToRunning(e), n, i);
    } else {
      RunningPutAt(ix, seen, ns, ToRunning(e), n, i);
    }
  }

  /** An index that agrees with the reference goes on agreeing exactly when the event is forward. */
  lemma EventKeepsAgreementIff(ix: Buckets, seen: map<Key, Entry>, e: Event)
    requires Agrees(ix, seen)
    ensures Agrees(ApplyEvent(ix, e), Observe(seen, e)) <==> Forward(seen, e)
  {
    forall n, i
      ensures AgreesAt(ApplyEvent(ix, e), Observe(seen, e), n, i) <==> (Key(n, i) == EventKey(e) ==> Forward(seen, e))
    {
      assert AgreesAt(ix, seen, n, i);
      EventAt(ix, seen, e, n, i);
    }
  }

  lemma QueuedPutShape(ix: Buckets, ns: string, q: QueuedWorkload)
    requires NoEmpty(ix) && Keyed(ix)
    ensures NoEmpty(QueuedPut(ix, ns, q)) && Keyed(QueuedPut(ix, ns, q))
  {
    PutFacts(ix.queued, ns, q.workloadID, q);
  }

  lemma ScheduledPutShape(ix: Buckets, ns: string, r: RunningWorkload)
    requires NoEmpty(ix) && Keyed(ix)
    ensures NoEmpty(ScheduledPut(ix, ns, r)) && Keyed(ScheduledPut(ix, ns, r))
  {
    PutFacts(ix.scheduled, ns, r.workloadID, r);
    DropFacts(ix.queued, ns, r.workloadID);
  }

  lemma RunningPutShape(ix: Buckets, ns: string, r: RunningWorkload)
    requires NoEmpty(ix) && Keyed(ix)
    ensures NoEmpty(RunningPut(ix, ns, r)) && Keyed(RunningPut(ix, ns, r))
  {
    PutFacts(ix.running, ns, r.workloadID, r);
    DropFacts(ix.queued, ns, r.workloadID);
    DropFacts(ix.scheduled, ns, r.workloadID);
  }

  /** No event leaves an empty inner map or a misfiled entry, forward or not. */
  lemma EventKeepsShape(ix: Buckets, e: Event)
    requires NoEmpty(ix) && Keyed(ix)
    ensures NoEmpty(ApplyEvent(ix, e)) && Keyed(ApplyEvent(ix, e))
  {
    var ns, id := e.o.ns, EventID(e);
    if Removes(e) {
      RemovedFacts(ix, ns, id);
    } else if e.o.phase == Queued {
      QueuedPutShape(ix, ns, ToQueued(e));
    } else if e.o.phase == Scheduled {
      ScheduledPutShape(ix, ns, ToRunning(e));
    } else {
      RemovedFacts(ix, ns, id);
      RunningPutShape(Removed(ix, ns, id), ns, ToRunning(e));
    }
  }

  lemma AgreementIsDisjoint(ix: Buckets, seen: map<Key, Entry>)
    requires Agrees(ix, seen)
    ensures Disjoint(ix)
  {
    forall ns ensures DisjointIn(ix, ns) {
      forall id
        ensures !(Has(ix.queued, ns, id) && Has(ix.scheduled, ns, id))
        ensures !(Has(ix.queued, ns, id) && Has(ix.running, ns, id))
        ensures !(Has(ix.scheduled, ns, id) && Has(ix.running, ns, id))
      {
        assert AgreesAt(ix, seen, ns, id);
      }
    }
  }

  // ---------------------------------------------------------------- whole traces

  ghost predicate ForwardTrace(trace: seq<Event>) {
    forall k | 0 <= k < |trace| :: Forward(LastSeen(trace[..k]), trace[k])
  }

  lemma TakeOneMore(trace: seq<Event>, k: nat)
    requires k < |trace|
    ensures ApplyEvents(trace[..k + 1]) == ApplyEvent(ApplyEvents(trace[..k]), trace[k])
    ensures LastSeen(trace[..k + 1]) == Observe(LastSeen(trace[..k]), trace[k])
  {
    assert trace[..k + 1][..k] == trace[..k];
  }

  /** The index is correct at an event boundary. */
  ghost predicate CorrectAfter(trace: seq<Event>, k: nat)
    requires k <= |trace|
  {
    Agrees(ApplyEvents(trace[..k]), LastSeen(trace[..k]))
  }

  lemma {:induction false} ShapeAfter(trace: seq<Event>, k: nat)
    requires k <= |trace|
    ensures NoEmpty(ApplyEvents(trace[..k])) && Keyed(ApplyEvents(trace[..k]))
  {
    if k > 0 {
      ShapeAfter(trace, k - 1);
      TakeOneMore(trace, k - 1);
      EventKeepsShape(ApplyEvents(trace[..k - 1]), trace[k - 1]);
    }
  }

  lemma {:induction false} ForwardIsCorrect(trace: seq<Event>, k: nat)
    requires k <= |trace| && ForwardTrace(trace)
    ensures CorrectAfter(trace, k)
  {
    if k > 0 {
      ForwardIsCorrect(trace, k - 1);
      TakeOneMore(trace, k - 1);
      EventKeepsAgreementIff(ApplyEvents(trace[..k - 1]), LastSeen(trace[..k - 1]), trace[k - 1]);
    }
  }

  /** The three buckets equal the simple map at every event boundary if and only if no event moves
      a workload back from what was last observed of it. */
  lemma IndexCorrectIff(trace: seq<Event>)
    ensures (forall k | 0 <= k <= |trace| :: CorrectAfter(trace, k)) <==> ForwardTrace(trace)
  {
    if ForwardTrace(trace) {
      forall k | 0 <= k <= |trace| ensures CorrectAfter(trace, k) {
        ForwardIsCorrect(trace, k);
      }
    }
    if forall k | 0 <= k <= |trace| :: CorrectAfter(trace, k) {
      forall k | 0 <= k < |trace| ensures Forward(LastSeen(trace[..k]), trace[k]) {
        assert CorrectAfter(trace, k) && CorrectAfter(trace, k + 1);
        TakeOneMore(trace, k);
        EventKeepsAgreementIff(ApplyEvents(trace[..k]), LastSeen(trace[..k]), trace[k]);
      }
    }
  }

  /** A late event that shows the workload queued again, once it has been seen scheduled, files it
      twice. */
  lemma BackwardEventFilesTwice(e: Event)
    requires !Removes(e) && e.o.phase == Queued
    ensures !Disjoint(ApplyEvents([e.(o := e.o.(phase := Scheduled)), e]))
  {
    var first := e.(o := e.o.(phase := Scheduled));
    assert [first][..0] == [] && [first, e][..1] == [first];
    var ix := ApplyEvents([first]);
    assert ix == ScheduledPut(ApplyEvents([]), e.o.ns, ToRunning(first));
    PutFacts(ApplyEvents([]).scheduled, e.o.ns, EventID(e), ToRunning(first));
    assert ApplyEvents([first, e]) == QueuedPut(ix, e.o.ns, ToQueued(e));
    PutFacts(ix.queued, e.o.ns, EventID(e), ToQueued(e));
    var ns, id, last := e.o.ns, EventID(e), QueuedPut(ix, e.o.ns, ToQueued(e));
    assert Has(last.queued, ns, id) && Has(last.scheduled, ns, id);
    assert !DisjointIn(last, ns);
  }

  /** The states between the lock acquisitions of one event. A running workload is first removed,
      then filed. */
  function LockBoundaries(ix: Buckets, e: Event): seq<Buckets> {
    if !Removes(e) && e.o.phase == Running
    then [ix, Removed(ix, e.o.ns, EventID(e)), ApplyEvent(ix, e)]
    else [ix, ApplyEvent(ix, e)]
  }

  /** Even between two lock acquisitions no workload is in two buckets. */
  lemma NeverInTwoBuckets(trace: seq<Event>, k: nat)
    requires k < |trace| && ForwardTrace(trace)
    ensures forall b | b in LockBoundaries(ApplyEvents(trace[..k]), trace[k]) :: Disjoint(b) && NoEmpty(b) && Keyed(b)
  {
    ForwardIsCorrect(trace, k);
    ForwardIsCorrect(trace, k + 1);
    AgreementIsDisjoint(ApplyEvents(trace[..k]), LastSeen(trace[..k]));
    AgreementIsDisjoint(ApplyEvents(trace[..k + 1]), LastSeen(trace[..k + 1]));
    ShapeAfter(trace, k);
    ShapeAfter(trace, k + 1);
    TakeOneMore(trace, k);
    RemovedFacts(ApplyEvents(trace[..k]), trace[k].o.ns, EventID(trace[k]));
  }

  // ---------------------------------------------------------------- phases that only advance

  /** Between removals, each workload's observed phase never falls in rank. */
  ghost predicate Advancing(trace: seq<Event>) {
    forall i, j | 0 <= i < j < |trace| && EventKey(trace[i]) == EventKey(trace[j]) && Uninterrupted(trace, i, j) ::
      Rank(trace[i].o.phase) <= Rank(trace[j].o.phase)
  }

  /** No removal of the workload of event `i` from `i` on, before `j`. */
  ghost predicate Uninterrupted(trace: seq<Event>, i: nat, j: nat)
    requires i < j < |trace|
  {
    forall m | i <= m < j && EventKey(trace[m]) == EventKey(trace[i]) :: !Removes(trace[m])
  }

  /** The entry says of the workload what the event's object says, field by field. */
  predicate EntryMatches(x: Entry, e: Event) {
    match x
    case QueuedEntry(q) =>
      && e.o.phase == Queued && q.workloadID == e.o.ns + "/" + e.o.name && q.tenant == e.o.tenant
      && q.priority == e.o.priority && q.queuedAt == (if e.o.queuedAt.Some? then e.o.queuedAt.value else e.now)
      && q.gpuCount == e.o.gpuCount && q.gpuMemoryMiB == e.o.gpuMemoryMiB
      && q.profile == NormalizeProfile(e.o.profile) && q.tokens == e.o.tokens && q.kind == e.o.kind
    case ScheduledEntry(r) => e.o.phase == Scheduled && CommittedMatches(r, e)
    case RunningEntry(r) => e.o.phase == Running && CommittedMatches(r, e)
  }

  predicate CommittedMatches(r: RunningWorkload, e: Event) {
    && r.workloadID == e.o.ns + "/" + e.o.name && r.tenant == e.o.tenant
    && r.priority == e.o.priority && r.startedAt == (if e.o.queuedAt.Some? then e.o.queuedAt.value else e.now)
    && r.gpuCount == e.o.gpuCount && r.gpuMemoryMiB == e.o.gpuMemoryMiB
    && r.profile == NormalizeProfile(e.o.profile) && r.tokens == e.o.tokens && r.kind == e.o.kind
  }

  lemma ObserveAt(seen: map<Key, Entry>, e: Event, key: Key)
    requires key in Observe(seen, e)
    ensures EventKey(e) == key ==> !Removes(e) && EntryMatches(Observe(seen, e)[key], e)
    ensures EventKey(e) != key ==> key in seen && Observe(seen, e)[key] == seen[key]
  {
  }

  /** What the reference holds for a workload stems from its latest event. */
  lemma {:induction false} EntryStems(trace: seq<Event>, key: Key) returns (i: nat)
    requires key in LastSeen(trace)
    ensures i < |trace| && EventKey(trace[i]) == key && !Removes(trace[i])
    ensures EntryMatches(LastSeen(trace)[key], trace[i])
    ensures forall m | i < m < |trace| :: EventKey(trace[m]) != key
  {
    var init, last := trace[..|trace| - 1], trace[|trace| - 1];
    ObserveAt(LastSeen(init), last, key);
    if EventKey(last) == key {
      i := |trace| - 1;
    } else {
      i := EntryStems(init, key);
    }
  }

  /** So if phases only advance, as the phase protocol guarantees, the index is always correct. */
  lemma AdvancingIsForward(trace: seq<Event>)
    requires Advancing(trace)
    ensures ForwardTrace(trace)
  {
    forall k | 0 <= k < |trace| ensures Forward(LastSeen(trace[..k]), trace[k]) {
      if !Removes(trace[k]) && EventKey(trace[k]) in LastSeen(trace[..k]) {
        var i := EntryStems(trace[..k], EventKey(trace[k]));
        assert trace[..k][i] == trace[i];
        assert forall m | i < m < k :: trace[..k][m] == trace[m];
        assert Uninterrupted(trace, i, k);
      }
    }
  }

  // ---------------------------------------------------------------- the mutable state

  class SchedulerState {
    var queued: Bucket<QueuedWorkload>
    var scheduled: Bucket<RunningWorkload>
    var running: Bucket<RunningWorkload>

    function Value(): Buckets
      reads this
    {
      Buckets(queued, scheduled, running)
    }

    constructor ()
      ensures Value() == ApplyEvents([])
    {
      queued, scheduled, running := map[], map[], map[];
    }

    method UpsertQueued(ns: string, q: QueuedWorkload)
      modifies this
      ensures Value() == QueuedPut(old(Value()), ns, q)
    {
      var own := if ns in queued then queued[ns] else map[];
      queued := queued[ns := own[q.workloadID := q]];
    }

    method RemoveWorkload(ns: string, id: string)
      modifies this
      ensures Value() == Removed(old(Value()), ns, id)
    {
      if ns in queued {
        var inner := queued[ns] - {id};
        queued := if |inner| == 0 then queued - {ns} else queued[ns := inner];
      }
      if ns in scheduled {
        var inner := scheduled[ns] - {id};
        scheduled := if |inner| == 0 then scheduled - {ns} else scheduled[ns := inner];
      }
      if ns in running {
        var inner := running[ns] - {id};
        running := if |inner| == 0 then running - {ns} else running[ns := inner];
      }
    }

    method UpsertScheduled(ns: string, r: RunningWorkload)
      modifies this
      ensures Value() == ScheduledPut(old(Value()), ns, r)
    {
      var own := if ns in scheduled then scheduled[ns] else map[];
      scheduled := scheduled[ns := own[r.workloadID := r]];
      if ns in queued {
        var inner := queued[ns] - {r.workloadID};
        queued := if |inner| == 0 then queued - {ns} else queued[ns := inner];
      }
    }

    method UpsertRunning(ns: string, r: RunningWorkload)
      modifies this
      ensures Value() == RunningPut(old(Value()), ns, r)
    {
      var own := if ns in running then running[ns] else map[];
      running := running[ns := own[r.workloadID := r]];
      if ns in queued {
        var inner := queued[ns] - {r.workloadID};
        queued := if |inner| == 0 then queued - {ns} else queued[ns := inner];
      }
      if ns in scheduled {
        var inner := scheduled[ns] - {r.workloadID};
        scheduled := if |inner| == 0 then scheduled - {ns} else scheduled[ns := inner];
      }
    }

    /** Returns whether the workload is now queued. */
    method ApplyWorkloadToState(e: Event) returns (isQueued: bool)
      modifies this
      ensures Value() == ApplyEvent(old(Value()), e)
      ensures isQueued <==> !Removes(e) && e.o.phase == Queued
    {
      var ns, id := e.o.ns, EventID(e);
      if e.deleted {
        RemoveWorkload(ns, id);
        return false;
      }
      if e.o.deleting {
        RemoveWorkload(ns, id);
        return false;
      }
      match e.o.phase {
        case Queued =>
          UpsertQueued(ns, ToQueued(e));
          return true;
        case Scheduled =>
          UpsertScheduled(ns, ToRunning(e));
          return false;
        case Running =>
          RemoveWorkload(ns, id);
          UpsertRunning(ns, ToRunning(e));
          return false;
        case _ =>
          RemoveWorkload(ns, id);
          return false;
      }
    }

    /** Copies one namespace out, visiting each bucket in any order. With entries filed under their own
        identifiers the copy repeats an identifier exactly if some workload is in two buckets. */
    method SnapshotForNamespace(ns: string, fleet: Option<FleetFreeCapacity>, quotas: map<string, TenantQuota>)
      returns (r: Option<SchedulingInputs>)
      ensures r.None? <==> fleet.None?
      ensures r.Some? ==> r.value.fleet == fleet.value && r.value.quotas == quotas
      ensures r.Some? ==>
                && Copies(queued, ns, r.value.queued) && Copies(scheduled, ns, r.value.scheduled)
                && Copies(running, ns, r.value.running)
      ensures r.Some? && Keyed(Value()) ==> (Distinct(AllIDs(r.value)) <==> DisjointIn(Value(), ns))
    {
      if fleet.None? {
        return None;
      }
      var qs, qids := Values(if ns in queued then queued[ns] else map[]);
      var ss, sids := Values(if ns in scheduled then scheduled[ns] else map[]);
      var rs, rids := Values(if ns in running then running[ns] else map[]);
      ListedCopies(queued, ns, qids, qs);
      ListedCopies(scheduled, ns, sids, ss);
      ListedCopies(running, ns, rids, rs);
      r := Some(SchedulingInputs(qs, ss, rs, fleet.value, quotas));
      if Keyed(Value()) {
        SnapshotIDs(Value(), ns, qids, sids, rids, r.value);
      }
    }
  }

  /** `out` is the inner map of `ns`, in some order. */
  ghost predicate Copies<V(!new)>(b: Bucket<V>, ns: string, out: seq<V>) {
    exists ids :: CopiesInOrder(b, ns, ids, out)
  }

  ghost predicate CopiesInOrder<V(!new)>(b: Bucket<V>, ns: string, ids: seq<string>, out: seq<V>) {
    && Distinct(ids) && |out| == |ids| && (forall id :: id in ids <==> Has(b, ns, id))
    && forall i | 0 <= i < |ids| :: Has(b, ns, ids[i]) && out[i] == b[ns][ids[i]]
  }

  lemma ListedCopies<V(!new)>(b: Bucket<V>, ns: string, ids: seq<string>, out: seq<V>)
    requires Lists(if ns in b then b[ns] else map[], ids, out)
    ensures CopiesInOrder(b, ns, ids, out)
  {
    assert forall i | 0 <= i < |ids| :: ids[i] in ids;
  }

  lemma CopiesMembers<V(!new)>(b: Bucket<V>, ns: string, out: seq<V>, x: V)
    requires Copies(b, ns, out)
    ensures x in out <==> exists id :: Has(b, ns, id) && b[ns][id] == x
  {
    var ids :| CopiesInOrder(b, ns, ids, out);
    if x in out {
      var i := IndexOf(out, x);
      assert ids[i] in ids;
    }
    if id :| Has(b, ns, id) && b[ns][id] == x {
      var i := IndexOf(ids, id);
      assert out[i] == x;
    }
  }

  lemma SnapshotIDs(
      ix: Buckets, ns: string, qids: seq<string>, sids: seq<string>, rids: seq<string>, s: SchedulingInputs)
    requires Keyed(ix) && CopiesInOrder(ix.queued, ns, qids, s.queued)
    requires CopiesInOrder(ix.scheduled, ns, sids, s.scheduled) && CopiesInOrder(ix.running, ns, rids, s.running)
    ensures Distinct(AllIDs(s)) <==> DisjointIn(ix, ns)
  {
    assert forall i | 0 <= i < |qids| :: qids[i] in qids;
    assert forall i | 0 <= i < |sids| :: sids[i] in sids;
    assert forall i | 0 <= i < |rids| :: rids[i] in rids;
    assert QueuedIDs(s.queued) == qids && IDs(s.scheduled) == sids && IDs(s.running) == rids;
    FreshParts(qids, sids, rids);
    SeparateLists(ix, ns, qids, sids, rids);
  }

  lemma SeparateLists(ix: Buckets, ns: string, qids: seq<string>, sids: seq<string>, rids: seq<string>)
    requires Distinct(qids) && Distinct(sids) && Distinct(rids)
    requires forall id :: (id in qids <==> Has(ix.queued, ns, id)) && (id in sids <==> Has(ix.scheduled, ns, id))
    requires forall id :: id in rids <==> Has(ix.running, ns, id)
    ensures && Fresh(qids, {}) && Fresh(sids, set id | id in qids)
            && Fresh(rids, (set id | id in qids) + set id | id in sids)
       <==> DisjointIn(ix, ns)
  {
    if DisjointIn(ix, ns) {
      forall id | id in sids ensures id !in (set x | x in qids) {
        assert Has(ix.scheduled, ns, id);
      }
      forall id | id in rids ensures id !in (set x | x in qids) + (set x | x in sids) {
        assert Has(ix.running, ns, id);
      }
    }
  }

  ghost predicate Lists<V(!new)>(m: map<string, V>, ids: seq<string>, out: seq<V>) {
    && Distinct(ids) && |out| == |ids| && (forall id :: id in ids <==> id in m)
    && forall i | 0 <= i < |ids| :: ids[i] in m && out[i] == m[ids[i]]
  }

  /** The values of a map in arbitrary order. */
  method Values<V(!new)>(m: map<string, V>) returns (out: seq<V>, ghost ids: seq<string>)
    ensures Lists(m, ids, out)
  {
    out, ids := [], [];
    var todo := m.Keys;
    while todo != {}
      invariant todo <= m.Keys
      invariant Distinct(ids) && |out| == |ids| && forall id :: id in ids <==> id in m.Keys - todo
      invariant forall i | 0 <= i < |ids| :: ids[i] in m && out[i] == m[ids[i]]
      decreases todo
    {
      var id :| id in todo;
      assert id !in ids;
      out, ids := out + [m[id]], ids + [id];
      todo := todo - {id};
    }
  }
}
