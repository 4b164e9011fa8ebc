/** The phase protocol feeding the in-memory index: what a watch stream of the API server's versions
    guarantees to schedulerState. */
module Watch {
  import opened Phases
  import P = PhaseProtocol
  import Ix = Index

  /** A watch stream: each event shows some version of its object, and versions of one workload arrive in
      writing order with any number skipped. */
  ghost predicate Watched(log: seq<P.Version>, trace: seq<Ix.Event>, shown: seq<nat>) {
    && |shown| == |trace|
    && (forall k | 0 <= k < |trace| ::
          shown[k] < |log| && log[shown[k]].id == Ix.EventID(trace[k]) && log[shown[k]].phase == trace[k].o.phase)
    && (forall i, j | 0 <= i < j < |trace| && Ix.EventKey(trace[i]) == Ix.EventKey(trace[j]) :: shown[i] <= shown[j])
  }

  /** Event `i` is the last about its workload before `j`, and was no removal. */
  ghost predicate Precedes(trace: seq<Ix.Event>, i: nat, j: nat) {
    && i < j < |trace| && Ix.EventKey(trace[i]) == Ix.EventKey(trace[j]) && !Ix.Removes(trace[i])
    && forall m | i < m < j :: Ix.EventKey(trace[m]) != Ix.EventKey(trace[i])
  }

  /** Event `j` shows another object of the same name, although the removal of the old one was never
      delivered: deleted and created anew while the watch was down. */
  ghost predicate Recreated(log: seq<P.Version>, trace: seq<Ix.Event>, shown: seq<nat>, j: nat)
    requires Watched(log, trace, shown) && j < |trace|
  {
    exists i: nat :: Precedes(trace, i, j) && log[shown[i]].uid != log[shown[j]].uid
  }

  /** Such objects show up no further back than the old one was. */
  ghost predicate RecreationsForward(log: seq<P.Version>, trace: seq<Ix.Event>, shown: seq<nat>)
    requires Watched(log, trace, shown)
  {
    forall j | 0 <= j < |trace| && Recreated(log, trace, shown, j) :: Ix.Forward(Ix.LastSeen(trace[..j]), trace[j])
  }

  lemma SameObjectIsForward(log: seq<P.Version>, trace: seq<Ix.Event>, shown: seq<nat>, i: nat, j: nat)
    requires P.Monotone(log) && Watched(log, trace, shown) && Precedes(trace, i, j)
    requires log[shown[i]].uid == log[shown[j]].uid
    ensures Rank(trace[i].o.phase) <= Rank(trace[j].o.phase)
  {
    assert P.MayFollow(log[shown[i]].phase, log[shown[j]].phase);
  }

  lemma ForwardAt(log: seq<P.Version>, trace: seq<Ix.Event>, shown: seq<nat>, j: nat)
    requires P.Monotone(log) && Watched(log, trace, shown) && RecreationsForward(log, trace, shown) && j < |trace|
    ensures Ix.Forward(Ix.LastSeen(trace[..j]), trace[j])
  {
    var seen, e := Ix.LastSeen(trace[..j]), trace[j];
    if !Ix.Removes(e) && Ix.EventKey(e) in seen {
      var i := Ix.EntryStems(trace[..j], Ix.EventKey(e));
      assert trace[..j][i] == trace[i];
      assert forall m | i < m < j :: trace[..j][m] == trace[m];
      assert Precedes(trace, i, j);
      if log[shown[i]].uid == log[shown[j]].uid {
        SameObjectIsForward(log, trace, shown, i, j);
      } else {
        assert Recreated(log, trace, shown, j);
      }
    }
  }

  /** Whatever the interleaving of loop and reconcilers, and whatever the watch skips, the index equals the
      last observed phases at every event boundary exactly if objects recreated unnoticed show up no
      further back than their predecessors were. */
  lemma IndexFollowsProtocolIff(
      states: seq<P.State>, steps: seq<P.Step>, n: nat, trace: seq<Ix.Event>, shown: seq<nat>)
    requires P.IsRun(states, steps) && n < |states| && Watched(states[n].log, trace, shown)
    ensures (forall k | 0 <= k <= |trace| :: Ix.CorrectAfter(trace, k))
       <==> RecreationsForward(states[n].log, trace, shown)
  {
    var log := states[n].log;
    P.RunKeepsInv(states, steps, n);
    Ix.IndexCorrectIff(trace);
    if RecreationsForward(log, trace, shown) {
      forall j | 0 <= j < |trace| ensures Ix.Forward(Ix.LastSeen(trace[..j]), trace[j]) {
        ForwardAt(log, trace, shown, j);
      }
    }
  }

  // ---------------------------------------------------------------- a run in which the index goes wrong

  /** A workload scheduled, deleted and released by its reconciler, and created and queued anew. */
  lemma RecreatedRun(id: string) returns (states: seq<P.State>, steps: seq<P.Step>)
    ensures P.IsRun(states, steps) && |states[|steps|].log| == 8
    ensures states[|steps|].log[3] == P.Version(id, 0, Scheduled, false, true)
    ensures states[|steps|].log[7] == P.Version(id, 5, Queued, false, true)
  {
    states, steps := P.Scheduling(id);
    var s := states[|steps|];
    P.RunFrom(states, steps, P.RequestDelete(id));
    states, steps := states + [P.Next(s, P.RequestDelete(id))], steps + [P.RequestDelete(id)];
    var read := P.Read(P.Reconciler(0), 4);
    s := states[|steps|];
    P.RunFrom(states, steps, read);
    states, steps := states + [P.Next(s, read)], steps + [read];
    var drop := P.Write(P.Reconciler(0), P.DropFinalizer);
    s := states[|steps|];
    P.RunFrom(states, steps, drop);
    states, steps := states + [P.Next(s, drop)], steps + [drop];
    s := states[|steps|];
    states, steps := P.Queueing(states, steps, id);
    assert s.log[3] == states[|steps|].log[3];
  }

  /** A watch that is down in between shows the workload Scheduled, then Queued, and the index is wrong. */
  lemma RecreatedUnnoticed(e: Ix.Event)
    returns (states: seq<P.State>, steps: seq<P.Step>, trace: seq<Ix.Event>, shown: seq<nat>)
    requires !Ix.Removes(e) && e.o.phase == Queued
    ensures P.IsRun(states, steps) && Watched(states[|steps|].log, trace, shown)
    ensures |trace| == 2 && trace[1] == e && !Ix.CorrectAfter(trace, 2)
  {
    states, steps := RecreatedRun(Ix.EventID(e));
    trace, shown := [e.(o := e.o.(phase := Scheduled)), e], [3, 7];
    Ix.BackwardEventFilesTwice(e);
    assert trace[..2] == trace;
    if Ix.CorrectAfter(trace, 2) {
      Ix.AgreementIsDisjoint(Ix.ApplyEvents(trace), Ix.LastSeen(trace));
    }
  }
}
