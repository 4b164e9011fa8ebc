/** Attempts to actuate one workload, interleaved step by step. An allocation checks whether the workload
    already has one before it takes the lock (internal/sim/contract.go), so check and lock are two steps
    between which other attempts may move. */
module Races {
  import opened Sequences
  import opened DeviceNames
  import opened AcceleratorSim
  import opened Capacity
  import opened Actuation

  /** Attempt `a` makes its unlocked checks, or takes the lock if they passed; or some attempt starts a
      run. */
  datatype Move = Check(a: nat) | Lock(a: nat) | Launch(now: int, seconds: int)

  /** The simulator, the attempts past their checks but not yet locked, and those that were given an
      allocation. */
  datatype Race = Race(sim: Sim, passed: set<nat>, won: seq<nat>)

  function Refused(s: Sim, q: Request): Option<AllocationResult> {
    Refusal(s, q.id, q.gpuCount, q.memMiB, OptionsOf(q))
  }

  function Locked(s: Race, q: Request, a: nat, r: AllocationResult): Race {
    if r.Allocated? then Race(Reserve(s.sim, q.id, r.ids), s.passed - {a}, s.won + [a])
    else s.(passed := s.passed - {a})
  }

  ghost predicate Moves(q: Request, s: Race, m: Move, s': Race) {
    match m
    case Check(a) => s' == if Refused(s.sim, q).None? then s.(passed := s.passed + {a}) else s
    case Lock(a) =>
      if a !in s.passed then s' == s
      else exists r :: Placed(s.sim, q.gpuCount, q.memMiB, OptionsOf(q), r) && s' == Locked(s, q, a, r)
    case Launch(now, seconds) => s' == s.(sim := s'.sim) && Step(s.sim, Start(q.id, now, seconds), s'.sim)
  }

  ghost predicate IsRace(q: Request, states: seq<Race>, moves: seq<Move>) {
    && Linked(MovesOf(q), states, moves)
    && Valid(states[0].sim) && states[0].passed == {} && states[0].won == []
  }

  ghost function MovesOf(q: Request): (Race, Move, Race) -> bool {
    (s: Race, m: Move, s': Race) => Moves(q, s, m, s')
  }

  lemma MoveAt(q: Request, states: seq<Race>, moves: seq<Move>, k: nat)
    requires IsRace(q, states, moves) && k < |moves|
    ensures Moves(q, states[k], moves[k], states[k + 1])
  {
    assert MovesOf(q)(states[k], moves[k], states[k + 1]);
  }

  /** Every attempt checks at most once and locks at most once, after its check. */
  ghost predicate WellOrdered(moves: seq<Move>) {
    && (forall i, j | 0 <= i < j < |moves| && !moves[i].Launch? :: moves[i] != moves[j])
    && (forall j | 0 <= j < |moves| && moves[j].Lock? :: CheckedBefore(moves, j, moves[j].a))
  }

  predicate CheckedBefore(moves: seq<Move>, n: nat, a: nat)
    requires n <= |moves|
  {
    exists i | 0 <= i < n :: moves[i] == Check(a)
  }

  predicate LocksFrom(moves: seq<Move>, n: nat, a: nat) {
    exists j | n <= j < |moves| :: moves[j] == Lock(a)
  }

  predicate FirstLock(moves: seq<Move>, l: nat) {
    l < |moves| && moves[l].Lock? && forall i | 0 <= i < l :: !moves[i].Lock?
  }

  /** At most one of the attempts that lock has made its check when the first of them locks. */
  ghost predicate Alone(moves: seq<Move>) {
    forall l, a, b | FirstLock(moves, l) && CheckedBefore(moves, l, a) && LocksFrom(moves, l, a)
                     && CheckedBefore(moves, l, b) && LocksFrom(moves, l, b) :: a == b
  }

  /** However the placement turns out, the workload is given at most one allocation. */
  ghost predicate OneWinner(q: Request, moves: seq<Move>) {
    forall states: seq<Race> | IsRace(q, states, moves) :: |states[|moves|].won| <= 1
  }

  // ---------------------------------------------------------------- every interleaving keeps the simulator valid

  lemma MoveKeepsValid(q: Request, s: Race, m: Move, s': Race)
    requires Valid(s.sim) && Moves(q, s, m, s')
    ensures Valid(s'.sim)
  {
    if m.Lock? && m.a in s.passed {
      var r :| Placed(s.sim, q.gpuCount, q.memMiB, OptionsOf(q), r) && s' == Locked(s, q, m.a, r);
      if r.Allocated? {
        PlacedIsReservable(s.sim, q.gpuCount, q.memMiB, OptionsOf(q), r.ids);
        StepKeepsValid(s.sim, Allocate(q.id, q.gpuCount, q.memMiB, OptionsOf(q)), s'.sim);
      }
    } else if m.Launch? {
      StepKeepsValid(s.sim, Start(q.id, m.now, m.seconds), s'.sim);
    }
  }

  /** In every interleaving devices stay exclusive and the workload has at most one running run. */
  lemma {:induction false} RaceStaysValid(q: Request, states: seq<Race>, moves: seq<Move>, k: nat)
    requires IsRace(q, states, moves) && k < |states|
    ensures Valid(states[k].sim)
  {
    if k > 0 {
      RaceStaysValid(q, states, moves, k - 1);
      MoveAt(q, states, moves, k - 1);
      MoveKeepsValid(q, states[k - 1], moves[k - 1], states[k]);
    }
  }

  // ---------------------------------------------------------------- before the first lock

  ghost predicate Untouched(s: Race, s0: Race) {
    s.won == [] && s.sim.pools == s0.sim.pools && s.sim.allocations == s0.sim.allocations
  }

  /** Nothing is allocated before the first lock, and the checks all pass or are all refused. */
  lemma {:induction false} BeforeFirstLock(q: Request, states: seq<Race>, moves: seq<Move>, k: nat)
    requires IsRace(q, states, moves) && k <= |moves| && forall i | 0 <= i < k :: !moves[i].Lock?
    ensures Untouched(states[k], states[0])
    ensures forall a :: a in states[k].passed <==> Refused(states[0].sim, q).None? && CheckedBefore(moves, k, a)
  {
    if k > 0 {
      BeforeFirstLock(q, states, moves, k - 1);
      MoveAt(q, states, moves, k - 1);
      forall a ensures CheckedBefore(moves, k, a) <==> CheckedBefore(moves, k - 1, a) || moves[k - 1] == Check(a) {
      }
    }
  }

  // ---------------------------------------------------------------- a first lock that fails

  /** No check passes any more, or no lock can succeed. */
  ghost predicate Hopeless(s: Race, q: Request) {
    || (s.passed == {} && Refused(s.sim, q).Some?)
    || |EligibleSet(s.sim, q.memMiB, OptionsOf(q))| < q.gpuCount
  }

  lemma EligibleDependsOn(s: Sim, s': Sim, memMiB: int, opts: Options)
    requires s.pools == s'.pools && s.allocations == s'.allocations
    ensures EligibleSet(s, memMiB, opts) == EligibleSet(s', memMiB, opts)
  {
    assert UsedDevices(s) == UsedDevices(s');
  }

  lemma HopelessStays(q: Request, s0: Race, s: Race, m: Move, s': Race)
    requires Valid(s.sim) && Untouched(s, s0) && Hopeless(s, q) && Moves(q, s, m, s')
    ensures Untouched(s', s0) && Hopeless(s', q)
  {
    if m.Lock? && m.a in s.passed {
      var r :| Placed(s.sim, q.gpuCount, q.memMiB, OptionsOf(q), r) && s' == Locked(s, q, m.a, r);
      AllocationSucceedsIff(s.sim, q.gpuCount, q.memMiB, OptionsOf(q), r);
    }
    EligibleDependsOn(s.sim, s'.sim, q.memMiB, OptionsOf(q));
  }

  ghost function HopelessAt(q: Request, states: seq<Race>): nat -> bool {
    (k: nat) => k < |states| && Untouched(states[k], states[0]) && Hopeless(states[k], q)
  }

  lemma HopelessNext(q: Request, states: seq<Race>, moves: seq<Move>, k: nat)
    requires IsRace(q, states, moves) && k < |moves| && HopelessAt(q, states)(k)
    ensures HopelessAt(q, states)(k + 1)
  {
    RaceStaysValid(q, states, moves, k);
    MoveAt(q, states, moves, k);
    HopelessStays(q, states[0], states[k], moves[k], states[k + 1]);
  }

  lemma HopelessToTheEnd(q: Request, states: seq<Race>, moves: seq<Move>, l: nat, k: nat)
    requires IsRace(q, states, moves) && l <= k < |states| && HopelessAt(q, states)(l)
    ensures HopelessAt(q, states)(k)
  {
    var hopeless := HopelessAt(q, states);
    forall j | l <= j < k && hopeless(j) ensures hopeless(j + 1) {
      HopelessNext(q, states, moves, j);
    }
    KeptThroughout(hopeless, l, k);
  }

  // ---------------------------------------------------------------- a first lock that succeeds

  /** The workload has its allocation; only attempts that had checked by the first lock are still in
      the race or have won, each once and by a lock of its own. */
  ghost predicate Decided(q: Request, s: Race, moves: seq<Move>, l: nat) {
    && l < |moves| && q.id in s.sim.allocations && Distinct(s.won)
    && (forall a | a in s.won :: a !in s.passed && CheckedBefore(moves, l, a) && LocksFrom(moves, l, a))
    && (forall a | a in s.passed :: CheckedBefore(moves, l, a))
  }

  lemma DecidedStays(q: Request, s: Race, moves: seq<Move>, l: nat, k: nat, s': Race)
    requires l <= k < |moves| && Decided(q, s, moves, l) && Moves(q, s, moves[k], s')
    ensures Decided(q, s', moves, l)
  {
    var m := moves[k];
    if m.Lock? && m.a in s.passed {
      assert LocksFrom(moves, l, m.a);
      assert m.a !in s.won;
    }
  }

  ghost function DecidedAt(q: Request, states: seq<Race>, moves: seq<Move>, l: nat): nat -> bool {
    (k: nat) => k < |states| && Decided(q, states[k], moves, l)
  }

  lemma DecidedNext(q: Request, states: seq<Race>, moves: seq<Move>, l: nat, k: nat)
    requires IsRace(q, states, moves) && l < k < |moves| && DecidedAt(q, states, moves, l)(k)
    ensures DecidedAt(q, states, moves, l)(k + 1)
  {
    MoveAt(q, states, moves, k);
    DecidedStays(q, states[k], moves, l, k, states[k + 1]);
  }

  lemma DecidedToTheEnd(q: Request, states: seq<Race>, moves: seq<Move>, l: nat, k: nat)
    requires IsRace(q, states, moves) && l < k < |states| && DecidedAt(q, states, moves, l)(l + 1)
    ensures DecidedAt(q, states, moves, l)(k)
  {
    var decided := DecidedAt(q, states, moves, l);
    forall j | l < j < k && decided(j) ensures decided(j + 1) {
      DecidedNext(q, states, moves, l, j);
    }
    KeptThroughout(decided, l + 1, k);
  }

  lemma AloneInTheEnd(q: Request, s: Race, moves: seq<Move>, l: nat)
    requires Decided(q, s, moves, l) && FirstLock(moves, l) && Alone(moves)
    ensures |s.won| <= 1
  {
    if s.won != [] {
      assert s.won[0] in s.won;
      DistinctConstant(s.won, s.won[0]);
    }
  }

  lemma FirstLockOutcome(q: Request, s0: Race, s: Race, moves: seq<Move>, l: nat, r: AllocationResult)
    requires Valid(s.sim) && Untouched(s, s0) && FirstLock(moves, l) && moves[l].a in s.passed
    requires forall a | a in s.passed :: CheckedBefore(moves, l, a)
    requires Placed(s.sim, q.gpuCount, q.memMiB, OptionsOf(q), r)
    ensures var s' := Locked(s, q, moves[l].a, r);
            if r.Allocated? then Decided(q, s', moves, l) else Untouched(s', s0) && Hopeless(s', q)
  {
    AllocationSucceedsIff(s.sim, q.gpuCount, q.memMiB, OptionsOf(q), r);
    if r.Allocated? {
      assert LocksFrom(moves, l, moves[l].a);
    }
  }

  lemma FirstLockDecides(q: Request, states: seq<Race>, moves: seq<Move>, l: nat)
    requires IsRace(q, states, moves) && WellOrdered(moves) && FirstLock(moves, l)
    ensures Decided(q, states[l + 1], moves, l) || (Untouched(states[l + 1], states[0]) && Hopeless(states[l + 1], q))
  {
    BeforeFirstLock(q, states, moves, l);
    RaceStaysValid(q, states, moves, l);
    var s, s', a := states[l], states[l + 1], moves[l].a;
    MoveAt(q, states, moves, l);
    assert CheckedBefore(moves, l, a);
    if a in s.passed {
      var r :| Placed(s.sim, q.gpuCount, q.memMiB, OptionsOf(q), r) && s' == Locked(s, q, a, r);
      FirstLockOutcome(q, states[0], s, moves, l, r);
    } else {
      assert Refused(states[0].sim, q).Some?;
    }
  }

  lemma WonByOne(q: Request, states: seq<Race>, moves: seq<Move>, l: nat)
    requires IsRace(q, states, moves) && FirstLock(moves, l) && Alone(moves) && Decided(q, states[l + 1], moves, l)
    ensures |states[|moves|].won| <= 1
  {
    DecidedToTheEnd(q, states, moves, l, |moves|);
    AloneInTheEnd(q, states[|moves|], moves, l);
  }

  lemma WonByNone(q: Request, states: seq<Race>, moves: seq<Move>, l: nat)
    requires IsRace(q, states, moves) && l < |moves| && Untouched(states[l + 1], states[0]) &&
      Hopeless(states[l + 1], q)
    ensures states[|moves|].won == []
  {
    HopelessToTheEnd(q, states, moves, l + 1, |moves|);
  }

  lemma AloneMeansOne(q: Request, states: seq<Race>, moves: seq<Move>)
    requires IsRace(q, states, moves) && WellOrdered(moves) && Alone(moves)
    ensures |states[|moves|].won| <= 1
  {
    var l := FindFirstLock(moves);
    if l < |moves| {
      FirstLockDecides(q, states, moves, l);
      if Decided(q, states[l + 1], moves, l) {
        WonByOne(q, states, moves, l);
      } else {
        WonByNone(q, states, moves, l);
      }
    } else {
      BeforeFirstLock(q, states, moves, |moves|);
    }
  }

  lemma FindFirstLock(moves: seq<Move>) returns (l: nat)
    ensures l <= |moves| && forall i | 0 <= i < l :: !moves[i].Lock?
    ensures l < |moves| ==> FirstLock(moves, l)
  {
    l := 0;
    while l < |moves| && !moves[l].Lock?
      invariant l <= |moves| && forall i | 0 <= i < l :: !moves[i].Lock?
    {
      l := l + 1;
    }
  }

  // ---------------------------------------------------------------- and otherwise two may win

  /** A fleet of twice the devices asked for, of which at most one request's worth is in use. */
  ghost predicate Ample(q: Request, s: Sim) {
    && WellFormed(q) && Valid(s) && s.pools == Fleet(DEFAULT_POOL_KEY, 2 * q.gpuCount, q.memMiB, q.profile).pools
    && s.allocations.Keys <= {q.id} && (q.id in s.allocations ==> |s.allocations[q.id]| == q.gpuCount)
  }

  lemma AmpleUse(q: Request, s: Sim)
    requires Ample(q, s)
    ensures |UsedDevices(s)| <= q.gpuCount
  {
    if q.id in s.allocations {
      DistinctSize(s.allocations[q.id]);
      assert UsedDevices(s) == set id | id in s.allocations[q.id] by {
        forall id | id in UsedDevices(s) ensures id in s.allocations[q.id] {
          var w :| w in s.allocations && id in s.allocations[w];
          assert w in s.allocations.Keys;
        }
      }
    } else {
      assert s.allocations == map[] by {
        assert forall w | w in s.allocations :: w in s.allocations.Keys;
      }
      assert UsedDevices(s) == {};
    }
  }

  /** There is always room for one more. */
  lemma AmpleAllocates(q: Request, s: Sim) returns (ids: seq<string>)
    requires Ample(q, s)
    ensures Placed(s, q.gpuCount, q.memMiB, OptionsOf(q), Allocated(ids)) && Ample(q, Reserve(s, q.id, ids))
  {
    AmpleUse(q, s);
    RestIsEligible(s, DEFAULT_POOL_KEY, 2 * q.gpuCount, q.memMiB, OptionsOf(q));
    ids := CanAllocate(s, q.gpuCount, q.memMiB, OptionsOf(q));
    StepKeepsValid(s, Allocate(q.id, q.gpuCount, q.memMiB, OptionsOf(q)), Reserve(s, q.id, ids));
  }

  ghost predicate InTheRace(s: Race, a: nat) {
    a in s.passed || a in s.won
  }

  /** On an ample fleet every lock can be made to succeed, so whoever is in the race wins in the end. */
  lemma SucceedingMove(q: Request, s: Race, m: Move) returns (s': Race)
    requires Ample(q, s.sim)
    ensures Moves(q, s, m, s') && Ample(q, s'.sim)
    ensures forall a | InTheRace(s, a) :: InTheRace(s', a)
    ensures m.Lock? && InTheRace(s, m.a) ==> m.a in s'.won
    ensures forall a | a in s.won :: a in s'.won
    ensures !m.Lock? ==> s'.sim == s.sim
    ensures m.Check? && s.sim.allocations == map[] ==> m.a in s'.passed
  {
    match m
    case Check(a) =>
      s' := if Refused(s.sim, q).None? then s.(passed := s.passed + {a}) else s;
      assert DEFAULT_POOL_KEY in s.sim.pools;
    case Lock(a) =>
      if a in s.passed {
        var ids := AmpleAllocates(q, s.sim);
        s' := Locked(s, q, a, Allocated(ids));
      } else {
        s' := s;
      }
    case Launch(now, seconds) =>
      s' := s;
  }

  /** The race in which every lock succeeds. */
  ghost predicate Generous(q: Request, states: seq<Race>, moves: seq<Move>) {
    && IsRace(q, states, moves) && states[0].sim.allocations == map[]
    && forall k | 0 <= k < |moves| :: GenerousAt(states[k], moves[k], states[k + 1])
  }

  ghost predicate GenerousAt(s: Race, m: Move, s': Race) {
    && (forall a | InTheRace(s, a) :: InTheRace(s', a))
    && (forall a | a in s.won :: a in s'.won)
    && (m.Lock? && InTheRace(s, m.a) ==> m.a in s'.won)
    && (!m.Lock? ==> s'.sim == s.sim)
    && (m.Check? && s.sim.allocations == map[] ==> m.a in s'.passed)
  }

  lemma {:induction false} GenerousRace(q: Request, moves: seq<Move>) returns (states: seq<Race>)
    requires WellFormed(q)
    ensures Generous(q, states, moves) && Ample(q, states[|moves|].sim)
  {
    if moves == [] {
      var s := Fleet(DEFAULT_POOL_KEY, 2 * q.gpuCount, q.memMiB, q.profile);
      var spec := PoolSpec(1, 2 * q.gpuCount, q.memMiB, "", q.profile);
      assert SpecOk(spec) && s.pools[DEFAULT_POOL_KEY] == BuiltNodes(spec, DEFAULT_POOL_KEY);
      assert BuiltPool(s.pools[DEFAULT_POOL_KEY], DEFAULT_POOL_KEY);
      states := [Race(s, {}, [])];
    } else {
      var n := |moves| - 1;
      var init := GenerousRace(q, moves[..n]);
      var s' := SucceedingMove(q, init[n], moves[n]);
      states := init + [s'];
      assert moves == moves[..n] + [moves[n]];
      assert MovesOf(q)(init[n], moves[n], s');
      LinkedSnoc(MovesOf(q), init, moves[..n], moves[n], s');
      forall k | 0 <= k < |moves| ensures GenerousAt(states[k], moves[k], states[k + 1]) {
        if k < n {
          assert moves[..n][k] == moves[k];
        }
      }
    }
  }

  lemma {:induction false} StaysInTheRace(q: Request, states: seq<Race>, moves: seq<Move>, i: nat, k: nat, a: nat)
    requires Generous(q, states, moves) && i <= k < |states| && InTheRace(states[i], a)
    ensures InTheRace(states[k], a) && (a in states[i].won ==> a in states[k].won)
    decreases k
  {
    if i < k {
      StaysInTheRace(q, states, moves, i, k - 1, a);
      assert GenerousAt(states[k - 1], moves[k - 1], states[k]);
    }
  }

  /** Whoever checks before the first lock and locks later wins. */
  lemma EarlyCheckWins(q: Request, states: seq<Race>, moves: seq<Move>, l: nat, a: nat)
    requires Generous(q, states, moves) && FirstLock(moves, l) && CheckedBefore(moves, l, a) && LocksFrom(moves, l, a)
    ensures a in states[|moves|].won
  {
    var i :| 0 <= i < l && moves[i] == Check(a);
    var j :| l <= j < |moves| && moves[j] == Lock(a);
    NothingYet(q, states, moves, l, i);
    assert GenerousAt(states[i], moves[i], states[i + 1]);
    StaysInTheRace(q, states, moves, i + 1, j, a);
    assert GenerousAt(states[j], moves[j], states[j + 1]);
    StaysInTheRace(q, states, moves, j + 1, |moves|, a);
  }

  lemma {:induction false} NothingYet(q: Request, states: seq<Race>, moves: seq<Move>, l: nat, k: nat)
    requires Generous(q, states, moves) && FirstLock(moves, l) && k <= l
    ensures states[k].sim.allocations == map[]
  {
    if k > 0 {
      NothingYet(q, states, moves, l, k - 1);
      assert GenerousAt(states[k - 1], moves[k - 1], states[k]);
    }
  }

  /** The exact condition: interleaved attempts yield at most one allocation, however placement turns
      out, if and only if no second attempt that will lock has made its check when the first locks. */
  lemma OneWinnerIff(q: Request, moves: seq<Move>)
    requires WellFormed(q) && WellOrdered(moves)
    ensures OneWinner(q, moves) <==> Alone(moves)
  {
    if Alone(moves) {
      forall states: seq<Race> | IsRace(q, states, moves) ensures |states[|moves|].won| <= 1 {
        AloneMeansOne(q, states, moves);
      }
    }
    if OneWinner(q, moves) {
      forall l, a, b | FirstLock(moves, l) && CheckedBefore(moves, l, a) && LocksFrom(moves, l, a)
                       && CheckedBefore(moves, l, b) && LocksFrom(moves, l, b)
        ensures a == b
      {
        var states := GenerousRace(q, moves);
        EarlyCheckWins(q, states, moves, l, a);
        EarlyCheckWins(q, states, moves, l, b);
        assert |states[|moves|].won| <= 1;
      }
    }
  }

  /** Two attempts whose checks both come before their locks can both be given an allocation. */
  lemma TwoChecksTwoAllocations(q: Request)
    requires WellFormed(q)
    ensures !OneWinner(q, [Check(0), Check(1), Lock(0), Lock(1)])
  {
    var moves := [Check(0), Check(1), Lock(0), Lock(1)];
    assert moves[0] == Check(0) && moves[1] == Check(1) && moves[2] == Lock(0) && moves[3] == Lock(1);
    assert FirstLock(moves, 2);
    assert WellOrdered(moves);
    assert CheckedBefore(moves, 2, 0) && CheckedBefore(moves, 2, 1);
    assert LocksFrom(moves, 2, 0) && LocksFrom(moves, 2, 1);
    assert !Alone(moves);
    OneWinnerIff(q, moves);
  }
}
