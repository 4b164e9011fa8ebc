/** The phase protocol in in-process mode: one scheduler loop and any number of reconcilers write one
    phase field through version-checked updates (internal/controller/gpuworkload_controller.go,
    internal/controller/scheduler_loop.go).

    The API server is a log of object versions. A read returns any version ever written, so caches
    may lag arbitrarily; a write carries the version it was computed from and succeeds only if that
    version is still the object's current one. */
module PhaseProtocol {
  import opened Phases
  import opened Sequences

  /** One version of an object. `uid` tells apart objects that reuse a name. */
  datatype Version = Version(id: string, uid: nat, phase: Phase, deleting: bool, finalizer: bool)

  datatype Actor = Loop | Reconciler(n: nat)

  /** What an actor holds between its steps: nothing, a version it read, or that and a started run. */
  datatype Local = Idle | Holds(v: nat) | HasStarted(v: nat)

  /** The system: every version ever written, the current version of each live object, the actors,
      and the workloads for which the simulator has started a run. */
  datatype State = State(log: seq<Version>, live: map<string, nat>, actors: map<Actor, Local>, started: set<string>)

  datatype Action =
    | AddFinalizer              // by a reconciler, before anything else
    | Initialize                // "" to Queued, by a reconciler
    | EnterRunning              // Scheduled to Running, by a reconciler that has started the run
    | Finish(target: Phase)     // Running to a terminal phase, by a reconciler that polled the run
    | UpdateMetadata            // an annotation, by a reconciler
    | DropFinalizer             // on a deleting object, by a reconciler: the object disappears
    | Admit                     // Queued to Scheduled, by the loop
    | Evict                     // anything but Preempted to Preempted, by the loop

  datatype Step =
    | Create(id: string)                   // a user creates a workload
    | Touch(id: string)                    // anyone outside changes metadata or spec
    | RequestDelete(id: string)            // a user deletes a workload; without a finalizer it disappears at once
    | Read(actor: Actor, version: nat)     // an actor fetches some version, possibly an old one
    | StartRun(actor: Actor)               // a reconciler allocates and starts the run
    | Write(actor: Actor, action: Action)  // an actor attempts a version-checked write

  function LocalOf(s: State, a: Actor): Local {
    if a in s.actors then s.actors[a] else Idle
  }

  predicate HoldsVersion(s: State, a: Actor) {
    !LocalOf(s, a).Idle? && LocalOf(s, a).v < |s.log|
  }

  function Held(s: State, a: Actor): Version
    requires HoldsVersion(s, a)
  {
    s.log[LocalOf(s, a).v]
  }

  /** The branch of the code that would attempt the action, judged on the version held. */
  predicate Attempts(s: State, a: Actor, action: Action)
    requires HoldsVersion(s, a)
  {
    var o := Held(s, a);
    match action
    case AddFinalizer => a.Reconciler? && !o.deleting && !o.finalizer && !Terminal(o.phase)
    case Initialize => a.Reconciler? && !o.deleting && o.finalizer && o.phase == NoPhase
    case EnterRunning =>
      a.Reconciler? && !o.deleting && o.finalizer && o.phase == Scheduled && LocalOf(s, a).HasStarted?
    case Finish(target) => a.Reconciler? && !o.deleting && o.finalizer && o.phase == Running && Terminal(target)
    case UpdateMetadata => a.Reconciler?
    case DropFinalizer => a.Reconciler? && o.deleting
    case Admit => a.Loop? && o.phase == Queued
    case Evict => a.Loop? && o.phase != Preempted
  }

  predicate Enabled(s: State, step: Step) {
    match step
    case Create(id) => id !in s.live
    case Touch(id) => id in s.live && s.live[id] < |s.log|
    case RequestDelete(id) => id in s.live && s.live[id] < |s.log|
    case Read(_, v) => v < |s.log|
    case StartRun(a) =>
      && a.Reconciler? && LocalOf(s, a).Holds? && HoldsVersion(s, a)
      && !Held(s, a).deleting && Held(s, a).finalizer && Held(s, a).phase == Scheduled
    case Write(a, action) => HoldsVersion(s, a) && Attempts(s, a, action)
  }

  function NewPhase(o: Version, action: Action): Phase {
    match action
    case AddFinalizer => o.phase
    case Initialize => Queued
    case EnterRunning => Running
    case Finish(target) => target
    case UpdateMetadata => o.phase
    case DropFinalizer => o.phase
    case Admit => Scheduled
    case Evict => Preempted
  }

  function NewVersion(o: Version, action: Action): Version {
    o.(phase := NewPhase(o, action), finalizer := o.finalizer || action.AddFinalizer?)
  }

  /** Appends a version and makes it current. */
  function Append(s: State, o: Version): State {
    s.(log := s.log + [o], live := s.live[o.id := |s.log|])
  }

  predicate WriteSucceeds(s: State, a: Actor)
    requires HoldsVersion(s, a)
  {
    var o := Held(s, a);
    o.id in s.live && s.live[o.id] == LocalOf(s, a).v
  }

  function Next(s: State, step: Step): State
    requires Enabled(s, step)
  {
    match step
    case Create(id) => Append(s, Version(id, |s.log|, NoPhase, false, false))
    case Touch(id) => Append(s, s.log[s.live[id]])
    case RequestDelete(id) =>
      if s.log[s.live[id]].finalizer then Append(s, s.log[s.live[id]].(deleting := true))
      else s.(live := s.live - {id})
    case Read(a, v) => s.(actors := s.actors[a := Holds(v)])
    case StartRun(a) =>
      s.(actors := s.actors[a := HasStarted(LocalOf(s, a).v)], started := s.started + {Held(s, a).id})
    case Write(a, action) =>
      var o := Held(s, a);
      if !WriteSucceeds(s, a) then s.(actors := s.actors[a := Idle])
      else if action.DropFinalizer? then s.(actors := s.actors[a := Idle], live := s.live - {o.id})
      else
        Append(s, NewVersion(o, action)).(actors := s.actors[a := Holds(|s.log|)])
  }

  const INITIAL: State := State([], map[], map[], {})

  /** A run: any interleaving of enabled steps. */
  ghost predicate IsRun(states: seq<State>, steps: seq<Step>) {
    && |states| == |steps| + 1
    && states[0] == INITIAL
    && forall k | 0 <= k < |steps| :: Enabled(states[k], steps[k]) && states[k + 1] == Next(states[k], steps[k])
  }

  // ---------------------------------------------------------------- the invariant

  /** `q` may follow `p`: rank does not fall, Preempted is final, and Succeeded and Failed can only
      give way to Preempted. */
  predicate MayFollow(p: Phase, q: Phase) {
    && Rank(p) <= Rank(q)
    && (p == Preempted ==> q == Preempted)
    && (p in {Succeeded, Failed} ==> q in {p, Preempted})
  }

  /** Over all versions of one object, in writing order. */
  ghost predicate Monotone(log: seq<Version>) {
    forall i, j | 0 <= i <= j < |log| && log[i].uid == log[j].uid :: MayFollow(log[i].phase, log[j].phase)
  }

  ghost predicate LiveIsLatest(s: State) {
    && (forall id | id in s.live :: s.live[id] < |s.log| && s.log[s.live[id]].id == id)
    && (forall id, v | id in s.live && 0 <= v < |s.log| && s.log[v].uid == s.log[s.live[id]].uid :: v <= s.live[id])
  }

  ghost predicate UidsNameObjects(log: seq<Version>) {
    && (forall v | 0 <= v < |log| :: log[v].uid <= v)
    && (forall v, w | 0 <= v < |log| && 0 <= w < |log| && log[v].uid == log[w].uid :: log[v].id == log[w].id)
  }

  /** Nothing has reached Running without a run having been started for it. */
  ghost predicate RunningStarted(s: State) {
    && (forall v | 0 <= v < |s.log| && s.log[v].phase in {Running, Succeeded, Failed} :: s.log[v].id in s.started)
    && (forall a | a in s.actors && s.actors[a].HasStarted? && s.actors[a].v < |s.log| ::
          s.log[s.actors[a].v].id in s.started)
    && (forall a | a in s.actors && !s.actors[a].Idle? :: s.actors[a].v < |s.log|)
  }

  ghost predicate Inv(s: State) {
    Monotone(s.log) && LiveIsLatest(s) && UidsNameObjects(s.log) && RunningStarted(s)
  }

  /** `o` may follow every version of its object. */
  ghost predicate Follows(log: seq<Version>, o: Version) {
    forall i | 0 <= i < |log| && log[i].uid == o.uid :: MayFollow(log[i].phase, o.phase) && log[i].id == o.id
  }

  lemma CurrentFollows(s: State, o: Version)
    requires Monotone(s.log) && LiveIsLatest(s) && UidsNameObjects(s.log)
    requires o.id in s.live && o.uid == s.log[s.live[o.id]].uid
    requires MayFollow(s.log[s.live[o.id]].phase, o.phase)
    ensures Follows(s.log, o) && o.uid <= |s.log|
  {
    var cur := s.live[o.id];
    forall i | 0 <= i < |s.log| && s.log[i].uid == o.uid
      ensures MayFollow(s.log[i].phase, o.phase) && s.log[i].id == o.id
    {
      assert i <= cur;
      assert MayFollow(s.log[i].phase, s.log[cur].phase);
    }
  }

  lemma AppendMonotone(log: seq<Version>, o: Version)
    requires Monotone(log) && Follows(log, o)
    ensures Monotone(log + [o])
  {
    var t := log + [o];
    forall i, j | 0 <= i <= j < |t| && t[i].uid == t[j].uid ensures MayFollow(t[i].phase, t[j].phase) {
      if j < |log| {
        assert t[i] == log[i] && t[j] == log[j];
      } else if i < j {
        assert t[i] == log[i];
      }
    }
  }

  lemma AppendNames(log: seq<Version>, o: Version)
    requires UidsNameObjects(log) && Follows(log, o) && o.uid <= |log|
    ensures UidsNameObjects(log + [o])
  {
    var t := log + [o];
    forall v, w | 0 <= v < |t| && 0 <= w < |t| && t[v].uid == t[w].uid ensures t[v].id == t[w].id {
      if v < |log| {
        assert t[v] == log[v];
      }
      if w < |log| {
        assert t[w] == log[w];
      }
    }
  }

  /** No other live object shares the identity of `o`. */
  lemma AppendLatest(s: State, o: Version)
    requires LiveIsLatest(s) && Follows(s.log, o)
    ensures LiveIsLatest(Append(s, o))
  {
    var t := Append(s, o);
    forall id | id in t.live ensures t.live[id] < |t.log| && t.log[t.live[id]].id == id {
      if id != o.id {
        assert t.log[t.live[id]] == s.log[s.live[id]];
      }
    }
    forall id, v | id in t.live && 0 <= v < |t.log| && t.log[v].uid == t.log[t.live[id]].uid ensures v <= t.live[id] {
      if id != o.id {
        assert t.log[t.live[id]] == s.log[s.live[id]];
        assert s.log[s.live[id]].uid != o.uid;
        assert v < |s.log| ==> t.log[v] == s.log[v];
      }
    }
  }

  /** Appending a version that may follow the current one of its object. */
  lemma AppendKeeps(s: State, o: Version)
    requires Monotone(s.log) && LiveIsLatest(s) && UidsNameObjects(s.log)
    requires o.id in s.live && o.uid == s.log[s.live[o.id]].uid
    requires MayFollow(s.log[s.live[o.id]].phase, o.phase)
    ensures var t := Append(s, o); Monotone(t.log) && LiveIsLatest(t) && UidsNameObjects(t.log)
  {
    CurrentFollows(s, o);
    AppendMonotone(s.log, o);
    AppendNames(s.log, o);
    AppendLatest(s, o);
  }

  lemma CreateKeeps(s: State, id: string)
    requires Inv(s) && id !in s.live
    ensures Inv(Append(s, Version(id, |s.log|, NoPhase, false, false)))
  {
    var o := Version(id, |s.log|, NoPhase, false, false);
    assert forall v | 0 <= v < |s.log| :: s.log[v].uid <= v;
    AppendMonotone(s.log, o);
    AppendNames(s.log, o);
    AppendLatest(s, o);
    RunningStartedAppend(s, o);
  }

  /** Every write the code attempts is a legal successor of the version it holds. */
  lemma AttemptIsLegal(s: State, a: Actor, action: Action)
    requires HoldsVersion(s, a) && Attempts(s, a, action)
    ensures MayFollow(Held(s, a).phase, NewPhase(Held(s, a), action))
  {
  }

  lemma RunningStartedAppend(s: State, o: Version)
    requires RunningStarted(s)
    requires o.phase in {Running, Succeeded, Failed} ==> o.id in s.started
    ensures RunningStarted(Append(s, o))
  {
    var t := Append(s, o);
    assert forall v | 0 <= v < |s.log| :: t.log[v] == s.log[v];
  }

  lemma WriteKeeps(s: State, a: Actor, action: Action)
    requires Inv(s) && Enabled(s, Write(a, action)) && WriteSucceeds(s, a) && !action.DropFinalizer?
    ensures Inv(Next(s, Write(a, action)))
  {
    var o := Held(s, a);
    var o' := NewVersion(o, action);
    AttemptIsLegal(s, a, action);
    AppendKeeps(s, o');
    RunningStartedAppend(s, o');
  }

  lemma StepKeeps(s: State, step: Step)
    requires Inv(s) && Enabled(s, step)
    ensures Inv(Next(s, step))
  {
    match step
    case Create(id) => CreateKeeps(s, id);
    case Touch(id) =>
      AppendKeeps(s, s.log[s.live[id]]);
      RunningStartedAppend(s, s.log[s.live[id]]);
    case RequestDelete(id) =>
      if s.log[s.live[id]].finalizer {
        AppendKeeps(s, s.log[s.live[id]].(deleting := true));
        RunningStartedAppend(s, s.log[s.live[id]].(deleting := true));
      }
    case Read(_, _) =>
    case StartRun(_) =>
    case Write(a, action) =>
      if WriteSucceeds(s, a) && !action.DropFinalizer? {
        WriteKeeps(s, a, action);
      }
  }

  lemma {:induction false} RunKeepsInv(states: seq<State>, steps: seq<Step>, k: nat)
    requires IsRun(states, steps) && k < |states|
    ensures Inv(states[k])
  {
    if k > 0 {
      RunKeepsInv(states, steps, k - 1);
      StepKeeps(states[k - 1], steps[k - 1]);
    }
  }

  // ---------------------------------------------------------------- over whole runs

  lemma {:induction false} LogOnlyGrows(states: seq<State>, steps: seq<Step>, i: nat, j: nat)
    requires IsRun(states, steps) && i <= j < |states|
    ensures states[i].log <= states[j].log
    decreases j
  {
    if i < j {
      LogOnlyGrows(states, steps, i, j - 1);
      assert states[j] == Next(states[j - 1], steps[j - 1]);
    }
  }

  function PhaseOf(s: State, id: string): Phase
    requires id in s.live && s.live[id] < |s.log|
  {
    s.log[s.live[id]].phase
  }

  /** In every interleaving, as long as a workload is the same object its phase rank never falls,
      Preempted is never left, and Succeeded or Failed is left only for Preempted. */
  lemma PhaseNeverFalls(states: seq<State>, steps: seq<Step>, i: nat, j: nat, id: string)
    requires IsRun(states, steps) && i <= j < |states|
    requires id in states[i].live && states[i].live[id] < |states[i].log|
    requires id in states[j].live && states[j].live[id] < |states[j].log|
    requires states[i].log[states[i].live[id]].uid == states[j].log[states[j].live[id]].uid
    ensures MayFollow(PhaseOf(states[i], id), PhaseOf(states[j], id))
  {
    RunKeepsInv(states, steps, j);
    LogOnlyGrows(states, steps, i, j);
    var v, w := states[i].live[id], states[j].live[id];
    assert states[j].log[v] == states[i].log[v];
    assert v <= w;
  }

  // ---------------------------------------------------------------- when a finished workload is overwritten

  /** The loop evicts the very version that is current: it read the workload after it had finished. */
  predicate Overwrites(s: State, step: Step, id: string) {
    && step == Write(Loop, Evict) && HoldsVersion(s, Loop)
    && id in s.live && LocalOf(s, Loop).v == s.live[id]
  }

  /** What one step makes of the phase of a workload that is there before and after. */
  lemma PhaseAfter(s: State, step: Step, id: string)
    requires LiveIsLatest(s) && Enabled(s, step) && id in s.live && id in Next(s, step).live
    ensures Next(s, step).live[id] < |Next(s, step).log|
    ensures PhaseOf(Next(s, step), id)
         == if step.Write? && LocalOf(s, step.actor).v == s.live[id] then NewPhase(Held(s, step.actor), step.action)
            else PhaseOf(s, id)
  {
    assert s.log[s.live[id]].id == id;
  }

  /** The edges of the protocol. A phase only changes by a write to the current version: the loop takes Queued
      to Scheduled and anything but Preempted to Preempted; a reconciler takes a new object to Queued,
      Scheduled to Running once it has started the run, and Running to an end, all on objects that
      have their finalizer and are not being deleted. */
  lemma PhaseEdges(s: State, step: Step, id: string)
    requires LiveIsLatest(s) && Enabled(s, step) && id in s.live && id in Next(s, step).live
    ensures Next(s, step).live[id] < |Next(s, step).log|
    ensures var o, q := s.log[s.live[id]], PhaseOf(Next(s, step), id);
            q != o.phase ==>
              && step.Write? && LocalOf(s, step.actor).v == s.live[id]
              && if step.actor.Loop?
                 then (o.phase == Queued && q == Scheduled) || q == Preempted
                 else
                   && !o.deleting && o.finalizer
                   && (|| (o.phase == NoPhase && q == Queued)
                       || (o.phase == Scheduled && q == Running && LocalOf(s, step.actor).HasStarted?)
                       || (o.phase == Running && q in {Succeeded, Failed, Preempted}))
  {
    PhaseAfter(s, step, id);
  }

  /** A step changes a finished workload's phase exactly if it is such an eviction. */
  lemma FinishedChangesIff(s: State, step: Step, id: string)
    requires LiveIsLatest(s) && Enabled(s, step) && id in s.live && PhaseOf(s, id) in {Succeeded, Failed}
    requires id in Next(s, step).live
    ensures Next(s, step).live[id] < |Next(s, step).log|
    ensures PhaseOf(Next(s, step), id) != PhaseOf(s, id) <==> Overwrites(s, step, id)
    ensures Overwrites(s, step, id) ==> PhaseOf(Next(s, step), id) == Preempted
  {
    PhaseAfter(s, step, id);
  }

  ghost predicate LiveThroughout(states: seq<State>, i: nat, j: nat, id: string) {
    i <= j < |states| && forall m | i <= m <= j :: id in states[m].live
  }

  /** In state `m` the workload is in this phase. */
  ghost function PhaseAt(states: seq<State>, id: string, phase: Phase): nat -> bool {
    (m: nat) =>
      m < |states| && id in states[m].live && states[m].live[id] < |states[m].log| && PhaseOf(states[m], id) == phase
  }

  ghost function OverwrittenAt(states: seq<State>, steps: seq<Step>, id: string): nat -> bool {
    (m: nat) => m < |steps| < |states| && Overwrites(states[m], steps[m], id)
  }

  lemma FinishedNext(states: seq<State>, steps: seq<Step>, m: nat, id: string, phase: Phase)
    requires IsRun(states, steps) && m < |steps| && id in states[m + 1].live
    requires phase in {Succeeded, Failed} && PhaseAt(states, id, phase)(m)
    ensures PhaseAt(states, id, phase)(m + 1) <==> !OverwrittenAt(states, steps, id)(m)
  {
    assert LiveIsLatest(states[m]) by {
      RunKeepsInv(states, steps, m);
    }
    assert Enabled(states[m], steps[m]) && states[m + 1] == Next(states[m], steps[m]);
    FinishedChangesIff(states[m], steps[m], id);
  }

  /** In every interleaving a finished workload keeps its phase exactly as long as the loop does not evict
      a version it read after the finish. */
  lemma StaysFinishedIff(states: seq<State>, steps: seq<Step>, i: nat, j: nat, id: string, phase: Phase)
    requires IsRun(states, steps) && LiveThroughout(states, i, j, id)
    requires phase in {Succeeded, Failed} && PhaseAt(states, id, phase)(i)
    ensures (forall m | i <= m <= j :: PhaseAt(states, id, phase)(m))
       <==> (forall m | i <= m < j :: !OverwrittenAt(states, steps, id)(m))
  {
    var same, overwritten := PhaseAt(states, id, phase), OverwrittenAt(states, steps, id);
    forall m | i <= m < j && same(m) ensures same(m + 1) <==> !overwritten(m) {
      FinishedNext(states, steps, m, id, phase);
    }
    Unbroken(same, overwritten, i, j);
  }

  // ---------------------------------------------------------------- building runs

  lemma {:induction false} RunFrom(states: seq<State>, steps: seq<Step>, step: Step)
    requires IsRun(states, steps) && Enabled(states[|steps|], step)
    ensures IsRun(states + [Next(states[|steps|], step)], steps + [step])
  {
  }

  /** `o` is the current version of its object and the last one written. */
  ghost predicate Latest(s: State, o: Version) {
    |s.log| > 0 && s.log[|s.log| - 1] == o && o.id in s.live && s.live[o.id] == |s.log| - 1
  }

  /** The actor would take the action on this version. */
  predicate Ready(o: Version, a: Actor, action: Action) {
    && !o.deleting
    && match action
       case AddFinalizer => a.Reconciler? && !o.finalizer && !Terminal(o.phase)
       case Initialize => a.Reconciler? && o.finalizer && o.phase == NoPhase
       case EnterRunning => a.Reconciler? && o.finalizer && o.phase == Scheduled
       case Finish(target) => a.Reconciler? && o.finalizer && o.phase == Running && Terminal(target)
       case Admit => a.Loop? && o.phase == Queued
       case Evict => a.Loop? && o.phase != Preempted
       case UpdateMetadata => a.Reconciler?
       case DropFinalizer => false
  }

  /** What an actor does that reads the latest version and writes; reconcilers start the run before they
      say Running. */
  function ReadThenWrite(s: State, a: Actor, action: Action): seq<Step> {
    (if |s.log| > 0 then [Read(a, |s.log| - 1)] else [])
    + (if action == EnterRunning then [StartRun(a)] else [])
    + [Write(a, action)]
  }

  lemma ReadAndWrite(states: seq<State>, steps: seq<Step>, o: Version, a: Actor, action: Action)
    returns (states': seq<State>, steps': seq<Step>)
    requires IsRun(states, steps) && Latest(states[|steps|], o) && Ready(o, a, action)
    ensures IsRun(states', steps') && states <= states'
    ensures steps' == steps + ReadThenWrite(states[|steps|], a, action)
    ensures var s, s' := states[|steps|], states'[|steps'|];
            && Latest(s', NewVersion(o, action)) && s'.log == s.log + [NewVersion(o, action)]
            && s'.live == s.live[o.id := |s.log|] && LocalOf(s', a) == Holds(|s.log|)
            && forall b | b != a :: LocalOf(s', b) == LocalOf(s, b)
  {
    var s0 := states[|steps|];
    var read := Read(a, |s0.log| - 1);
    RunFrom(states, steps, read);
    states', steps' := states + [Next(s0, read)], steps + [read];
    if action == EnterRunning {
      RunFrom(states', steps', StartRun(a));
      states', steps' := states' + [Next(states'[|steps'|], StartRun(a))], steps' + [StartRun(a)];
    }
    var s1 := states'[|steps'|];
    assert Held(s1, a) == o;
    RunFrom(states', steps', Write(a, action));
    states', steps' := states' + [Next(s1, Write(a, action))], steps' + [Write(a, action)];
  }

  /** A new object, given its finalizer and queued. */
  lemma Queueing(states: seq<State>, steps: seq<Step>, id: string) returns (states': seq<State>, steps': seq<Step>)
    requires IsRun(states, steps) && id !in states[|steps|].live
    ensures IsRun(states', steps') && states <= states'
    ensures var s, s' := states[|steps|], states'[|steps'|];
            && |s'.log| == |s.log| + 3 && s.log <= s'.log && s'.live == s.live[id := |s.log| + 2]
            && Latest(s', Version(id, |s.log|, Queued, false, true))
    ensures forall k | |steps| <= k < |steps'| ::
      !steps'[k].StartRun? && (steps'[k].Write? ==> !steps'[k].action.Finish?)
    ensures steps <= steps'
  {
    var s := states[|steps|];
    RunFrom(states, steps, Create(id));
    states', steps' := states + [Next(s, Create(id))], steps + [Create(id)];
    var o := Version(id, |s.log|, NoPhase, false, false);
    states', steps' := ReadAndWrite(states', steps', o, Reconciler(0), AddFinalizer);
    states', steps' := ReadAndWrite(states', steps', o.(finalizer := true), Reconciler(0), Initialize);
  }

  /** A workload created, queued and admitted. */
  lemma Scheduling(id: string) returns (states: seq<State>, steps: seq<Step>)
    ensures IsRun(states, steps) && Latest(states[|steps|], Version(id, 0, Scheduled, false, true))
    ensures |states[|steps|].log| == 4 && states[|steps|].live == map[id := 3]
    ensures forall k | 0 <= k < |steps| :: !steps[k].StartRun? && (steps[k].Write? ==> !steps[k].action.Finish?)
  {
    states, steps := [INITIAL], [];
    states, steps := Queueing(states, steps, id);
    states, steps := ReadAndWrite(states, steps, Version(id, 0, Queued, false, true), Loop, Admit);
  }

  ghost predicate IsAt(s: State, id: string, uid: nat, phase: Phase) {
    id in s.live && s.live[id] < |s.log| && s.log[s.live[id]].uid == uid && s.log[s.live[id]].phase == phase
  }

  /** The loop overwrites Succeeded by Preempted when its victim finished in the meantime. */
  lemma SucceededThenPreempted(id: string) returns (states: seq<State>, steps: seq<Step>, i: nat, j: nat)
    ensures IsRun(states, steps) && i < j < |states|
    ensures IsAt(states[i], id, 0, Succeeded) && IsAt(states[j], id, 0, Preempted)
  {
    var o := Version(id, 0, Scheduled, false, true);
    states, steps := Scheduling(id);
    states, steps := ReadAndWrite(states, steps, o, Reconciler(0), EnterRunning);
    states, steps := ReadAndWrite(states, steps, o.(phase := Running), Reconciler(0), Finish(Succeeded));
    i := |steps|;
    states, steps := ReadAndWrite(states, steps, o.(phase := Succeeded), Loop, Evict);
    j := |steps|;
  }
}
