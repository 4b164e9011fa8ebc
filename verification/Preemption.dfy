/** Victim selection of internal/scheduler/preemption.go. */
module Preemption {
  import opened Sequences
  import opened Workloads
  import opened Checks

  // ---------------------------------------------------------------- candidates

  /** Lowest priority first; within a priority, the most recently started first. */
  predicate VictimOrder(a: RunningWorkload, b: RunningWorkload) {
    if a.priority != b.priority then a.priority < b.priority else a.startedAt > b.startedAt
  }

  /** Largest GPU count first; within a count, the most recently started first. */
  predicate LargestFirst(a: RunningWorkload, b: RunningWorkload) {
    if a.gpuCount != b.gpuCount then a.gpuCount > b.gpuCount else a.startedAt > b.startedAt
  }

  lemma ComparatorsAreOrders()
    ensures StrictWeakOrder(VictimOrder) && StrictWeakOrder(LargestFirst)
  {
  }

  function OfProfile(running: seq<RunningWorkload>, profile: string): seq<RunningWorkload> {
    if running == [] then []
    else if running[0].profile == profile then [running[0]] + OfProfile(running[1..], profile)
    else OfProfile(running[1..], profile)
  }

  function Candidates(running: seq<RunningWorkload>, profile: string): seq<RunningWorkload> {
    StableSort(OfProfile(running, profile), VictimOrder)
  }

  lemma {:induction false} OfProfileSnoc(running: seq<RunningWorkload>, r: RunningWorkload, profile: string)
    ensures OfProfile(running + [r], profile)
         == OfProfile(running, profile) + if r.profile == profile then [r] else []
  {
    if running == [] {
      assert running + [r] == [r];
      assert OfProfile([r][1..], profile) == [];
    } else {
      assert (running + [r])[1..] == running[1..] + [r];
      OfProfileSnoc(running[1..], r, profile);
    }
  }

  lemma {:induction false} OfProfileMembers(running: seq<RunningWorkload>, profile: string, r: RunningWorkload)
    ensures r in OfProfile(running, profile) <==> r in running && r.profile == profile
  {
    if running != [] {
      OfProfileMembers(running[1..], profile, r);
    }
  }

  lemma CandidatesFacts(running: seq<RunningWorkload>, profile: string)
    ensures multiset(Candidates(running, profile)) == multiset(OfProfile(running, profile))
    ensures SortedBy(Candidates(running, profile), VictimOrder)
  {
    ComparatorsAreOrders();
    SortPermutes(OfProfile(running, profile), VictimOrder);
    SortSorts(OfProfile(running, profile), VictimOrder);
  }

  /** The running workloads of the profile, lowest priority first; within a priority, the most recently
      started first. */
  ghost predicate VictimsRanked(cs: seq<RunningWorkload>, running: seq<RunningWorkload>, profile: string) {
    && (forall x :: multiset(cs)[x] == if x.profile == profile then multiset(running)[x] else 0)
    && (forall i, j | 0 <= i < j < |cs| :: cs[i].priority <= cs[j].priority)
    && (forall i, j | 0 <= i < j < |cs| && cs[i].priority == cs[j].priority :: cs[i].startedAt >= cs[j].startedAt)
  }

  lemma CandidatesInOrder(running: seq<RunningWorkload>, profile: string)
    ensures VictimsRanked(Candidates(running, profile), running, profile)
  {
    CandidatesFacts(running, profile);
    var cs := Candidates(running, profile);
    forall i, j | 0 <= i < j < |cs| ensures cs[i].priority <= cs[j].priority {
      assert !VictimOrder(cs[j], cs[i]);
    }
    forall i, j | 0 <= i < j < |cs| && cs[i].priority == cs[j].priority ensures cs[i].startedAt >= cs[j].startedAt {
      assert !VictimOrder(cs[j], cs[i]);
    }
    forall x ensures multiset(cs)[x] == if x.profile == profile then multiset(running)[x] else 0 {
      OfProfileCounts(running, profile, x);
    }
  }

  lemma {:induction false} OfProfileCounts(running: seq<RunningWorkload>, profile: string, x: RunningWorkload)
    ensures multiset(OfProfile(running, profile))[x] == if x.profile == profile then multiset(running)[x] else 0
  {
    if running != [] {
      assert running == [running[0]] + running[1..];
      OfProfileCounts(running[1..], profile, x);
    }
  }

  datatype Context = Fits | Shortfall(profile: string, needToFree: int, candidates: seq<RunningWorkload>)

  /** What the incoming workload is short of, if anything. */
  function ContextOf(
      incoming: QueuedWorkload, running: seq<RunningWorkload>, fleet: FleetFreeCapacity, known: set<string>)
    : Result<Context>
  {
    match CompatibleProfileAndKind(incoming, fleet, known)
    case Err(e) => Err(e)
    case Ok(_) =>
      match FitsGPUCount(incoming, fleet)
      case Err(e) => Err(e)
      case Ok(fits) =>
        if fits then Ok(Fits) else
        match FitsPerDeviceMemory(incoming, fleet)
        case Err(e) => Err(e)
        case Ok(fits) =>
          if !fits then Err(DeviceMemoryTooSmall)
          else Ok(Shortfall(incoming.profile,
                            incoming.gpuCount - fleet.byProfile[incoming.profile].freeDevices,
                            Candidates(running, incoming.profile)))
  }

  /** A shortfall is a positive number of GPUs, and evicting can never cure a lack of memory. */
  lemma ShortfallFacts(
      incoming: QueuedWorkload, running: seq<RunningWorkload>, fleet: FleetFreeCapacity, known: set<string>)
    ensures var r := ContextOf(incoming, running, fleet, known);
            r.Ok? && r.value.Shortfall? ==>
              && r.value.needToFree > 0
              && incoming.profile in fleet.byProfile
              && fleet.byProfile[incoming.profile].memoryMiBPerDevice >= incoming.gpuMemoryMiB
              && incoming.gpuCount == fleet.byProfile[incoming.profile].freeDevices + r.value.needToFree
  {
  }

  /** The candidates are the running workloads of the profile, in order of eviction. */
  lemma ContextRanked(
      incoming: QueuedWorkload, running: seq<RunningWorkload>, fleet: FleetFreeCapacity, known: set<string>)
    ensures var r := ContextOf(incoming, running, fleet, known);
            r.Ok? && r.value.Shortfall? ==> VictimsRanked(r.value.candidates, running, incoming.profile)
  {
    CandidatesInOrder(running, incoming.profile);
  }

  method BuildPreemptionContext(
      incoming: QueuedWorkload, running: seq<RunningWorkload>, fleet: FleetFreeCapacity, known: set<string>)
    returns (r: Result<Context>)
    ensures r == ContextOf(incoming, running, fleet, known)
  {
    var compatible := CompatibleProfileAndKind(incoming, fleet, known);
    if compatible.Err? {
      return Err(compatible.error);
    }
    var count := FitsGPUCount(incoming, fleet);
    if count.Err? {
      return Err(count.error);
    }
    if count.value {
      return Ok(Fits);
    }
    var memory := FitsPerDeviceMemory(incoming, fleet);
    if memory.Err? {
      return Err(memory.error);
    }
    if !memory.value {
      return Err(DeviceMemoryTooSmall);
    }
    var free := 0;
    if incoming.profile in fleet.byProfile {
      free := fleet.byProfile[incoming.profile].freeDevices;
    }
    var need := incoming.gpuCount - free;
    var candidates: seq<RunningWorkload> := [];
    for i := 0 to |running|
      invariant candidates == OfProfile(running[..i], incoming.profile)
    {
      assert running[..i + 1] == running[..i] + [running[i]];
      OfProfileSnoc(running[..i], running[i], incoming.profile);
      if running[i].profile == incoming.profile {
        candidates := candidates + [running[i]];
      }
    }
    assert running[..|running|] == running;
    return Ok(Shortfall(incoming.profile, need, StableSort(candidates, VictimOrder)));
  }

  // ---------------------------------------------------------------- sets of victims

  /** `v` is the shortest prefix of `s` that frees at least `need` GPUs. */
  ghost predicate ShortestPrefix(s: seq<RunningWorkload>, need: int, v: seq<RunningWorkload>) {
    && v <= s
    && SumBy(v, Gpus) >= need
    && forall j | 0 <= j < |v| :: SumBy(v[..j], Gpus) < need
  }

  /** No prefix of `s` frees `need` GPUs. */
  ghost predicate NoPrefix(s: seq<RunningWorkload>, need: int) {
    forall j | 0 <= j <= |s| :: SumBy(s[..j], Gpus) < need
  }

  /** Evicting `t`, drawn from `pool`, frees enough. */
  ghost predicate Sufficient(t: seq<RunningWorkload>, pool: seq<RunningWorkload>, need: int) {
    Within(t, pool) && SumBy(t, Gpus) >= need
  }

  ghost predicate CanFree(pool: seq<RunningWorkload>, need: int) {
    exists t :: Sufficient(t, pool, need)
  }

  /** Nothing in `t` ranks above `p`. */
  ghost predicate Under(t: seq<RunningWorkload>, p: int) {
    forall x | x in t :: x.priority <= p
  }

  /** Something in `t` ranks at least `p`. */
  ghost predicate Touches(t: seq<RunningWorkload>, p: int) {
    exists x | x in t :: x.priority >= p
  }

  function AtMost(s: seq<RunningWorkload>, p: int): seq<RunningWorkload> {
    if s == [] then []
    else if s[0].priority <= p then [s[0]] + AtMost(s[1..], p)
    else AtMost(s[1..], p)
  }

  /** `p` is the lowest priority such that evicting only workloads of priority at most `p` can
      free enough. */
  ghost predicate Ceiling(pool: seq<RunningWorkload>, need: int, p: int) {
    CanFree(AtMost(pool, p), need) && !CanFree(AtMost(pool, p - 1), need)
  }

  lemma {:induction false} AtMostMembers(s: seq<RunningWorkload>, p: int, x: RunningWorkload)
    ensures x in AtMost(s, p) <==> x in s && x.priority <= p
    ensures multiset(AtMost(s, p))[x] == if x.priority <= p then multiset(s)[x] else 0
  {
    if s != [] {
      assert s == [s[0]] + s[1..];
      AtMostMembers(s[1..], p, x);
    }
  }

  lemma AtMostWithin(s: seq<RunningWorkload>, p: int, q: int)
    requires p <= q
    ensures Within(AtMost(s, p), AtMost(s, q)) && Within(AtMost(s, p), s)
  {
    forall x
      ensures multiset(AtMost(s, p))[x] <= multiset(AtMost(s, q))[x] && multiset(AtMost(s, p))[x] <= multiset(s)[x]
    {
      AtMostMembers(s, p, x);
      AtMostMembers(s, q, x);
    }
  }

  /** A sub-collection whose priorities stay at or below `p` lies within `AtMost`. */
  lemma BoundedWithin(t: seq<RunningWorkload>, s: seq<RunningWorkload>, p: int)
    requires Within(t, s) && Under(t, p)
    ensures Within(t, AtMost(s, p))
  {
    forall x ensures multiset(t)[x] <= multiset(AtMost(s, p))[x] {
      AtMostMembers(s, p, x);
      assert x in multiset(t) <==> x in t;
    }
  }

  lemma CanFreeMonotone(a: seq<RunningWorkload>, b: seq<RunningWorkload>, need: int)
    requires Within(a, b) && CanFree(a, need)
    ensures CanFree(b, need)
  {
    var t: seq<RunningWorkload> :| Sufficient(t, a, need);
    assert Sufficient(t, b, need);
  }

  lemma CeilingUnique(pool: seq<RunningWorkload>, need: int, p: int, q: int)
    requires Ceiling(pool, need, p) && Ceiling(pool, need, q)
    ensures p == q
  {
    if p < q {
      AtMostWithin(pool, p, q - 1);
      CanFreeMonotone(AtMost(pool, p), AtMost(pool, q - 1), need);
    } else if q < p {
      AtMostWithin(pool, q, p - 1);
      CanFreeMonotone(AtMost(pool, q), AtMost(pool, p - 1), need);
    }
  }

  /** With non-negative counts, feasibility is a plain sum. */
  lemma CanFreeIsSum(pool: seq<RunningWorkload>, need: int)
    requires forall r | r in pool :: r.gpuCount >= 0
    ensures CanFree(pool, need) <==> SumBy(pool, Gpus) >= need
  {
    if SumBy(pool, Gpus) >= need {
      assert Sufficient(pool, pool, need);
    }
    if CanFree(pool, need) {
      var t: seq<RunningWorkload> :| Sufficient(t, pool, need);
      SumByWithin(t, pool, Gpus);
    }
  }

  lemma PrefixWithin(v: seq<RunningWorkload>, s: seq<RunningWorkload>)
    requires v <= s
    ensures Within(v, s)
  {
    assert s == v + s[|v|..];
  }

  // ---------------------------------------------------------------- greedy pick in one band

  lemma LargestFirstDescends(pool: seq<RunningWorkload>)
    ensures Descending(StableSort(pool, LargestFirst), Gpus)
    ensures multiset(StableSort(pool, LargestFirst)) == multiset(pool)
  {
    ComparatorsAreOrders();
    SortSorts(pool, LargestFirst);
    SortPermutes(pool, LargestFirst);
  }

  /** Taking the largest first finds a sufficient set whenever one exists. */
  lemma NoPrefixMeansInfeasible(pool: seq<RunningWorkload>, need: int)
    requires NoPrefix(StableSort(pool, LargestFirst), need)
    ensures !CanFree(pool, need)
  {
    LargestFirstDescends(pool);
    forall t | Within(t, pool) ensures !Sufficient(t, pool, need) {
      TopSum(StableSort(pool, LargestFirst), t, Gpus);
    }
  }

  /** No sufficient subset of the pool is smaller than the greedy pick. */
  lemma GreedyPickIsSmallest(pool: seq<RunningWorkload>, need: int, v: seq<RunningWorkload>, t: seq<RunningWorkload>)
    requires ShortestPrefix(StableSort(pool, LargestFirst), need, v)
    requires Sufficient(t, pool, need)
    ensures |v| <= |t|
  {
    var sorted := StableSort(pool, LargestFirst);
    LargestFirstDescends(pool);
    TopSum(sorted, t, Gpus);
    assert forall j | 0 <= j < |v| :: v[..j] == sorted[..j];
  }

  /** Every member of the greedy pick is needed. */
  lemma GreedyPickIsIrredundant(pool: seq<RunningWorkload>, need: int, v: seq<RunningWorkload>, i: nat)
    requires ShortestPrefix(StableSort(pool, LargestFirst), need, v) && i < |v|
    ensures SumBy(Without(v, i), Gpus) < need
  {
    var last := |v| - 1;
    assert Gpus(v[i]) >= Gpus(v[last]) by {
      LargestFirstDescends(pool);
      assert v[i] == StableSort(pool, LargestFirst)[i] && v[last] == StableSort(pool, LargestFirst)[last];
    }
    assert SumBy(v, Gpus) == SumBy(v[..last], Gpus) + Gpus(v[last]) by {
      SumByTake(v, last, Gpus);
      assert v[..|v|] == v;
    }
    WithoutFacts(v, i, Gpus);
  }

  /** Takes workloads in order until they free enough. */
  method TakeUntil(s: seq<RunningWorkload>, need: int) returns (r: Option<seq<RunningWorkload>>, freed: int)
    requires need > 0
    ensures r.Some? ==> ShortestPrefix(s, need, r.value)
    ensures r.None? ==> NoPrefix(s, need) && freed == SumBy(s, Gpus)
  {
    var victims: seq<RunningWorkload> := [];
    freed := 0;
    for i := 0 to |s|
      invariant victims == s[..i] && freed == SumBy(victims, Gpus)
      invariant forall j | 0 <= j <= i :: SumBy(s[..j], Gpus) < need
    {
      SumByTake(s, i, Gpus);
      assert s[..i + 1] == s[..i] + [s[i]];
      victims := victims + [s[i]];
      freed := freed + s[i].gpuCount;
      if freed >= need {
        assert forall j | 0 <= j < |victims| :: victims[..j] == s[..j];
        return Some(victims), freed;
      }
    }
    assert s[..|s|] == s;
    return None, freed;
  }

  /** `v` goes through the pool from the largest down, within a size from the most recently started, and
      passes none over. */
  ghost predicate TakesLargest(pool: seq<RunningWorkload>, v: seq<RunningWorkload>) {
    && (forall i, j | 0 <= i < j < |v| ::
          v[i].gpuCount > v[j].gpuCount || (v[i].gpuCount == v[j].gpuCount && v[i].startedAt >= v[j].startedAt))
    && (forall x, y | multiset(v)[x] < multiset(pool)[x] && y in v ::
          y.gpuCount > x.gpuCount || (y.gpuCount == x.gpuCount && y.startedAt >= x.startedAt))
  }

  lemma PrefixTakesLargest(pool: seq<RunningWorkload>, v: seq<RunningWorkload>)
    requires v <= StableSort(pool, LargestFirst)
    ensures TakesLargest(pool, v)
  {
    var sorted := StableSort(pool, LargestFirst);
    ComparatorsAreOrders();
    SortSorts(pool, LargestFirst);
    SortPermutes(pool, LargestFirst);
    forall i, j | 0 <= i < j < |v|
      ensures v[i].gpuCount > v[j].gpuCount || (v[i].gpuCount == v[j].gpuCount && v[i].startedAt >= v[j].startedAt)
    {
      assert !LargestFirst(sorted[j], sorted[i]);
    }
    forall x, y | multiset(v)[x] < multiset(pool)[x] && y in v
      ensures y.gpuCount > x.gpuCount || (y.gpuCount == x.gpuCount && y.startedAt >= x.startedAt)
    {
      var i := IndexOf(v, y);
      var j := LeftOver(sorted, v, x);
      assert !LargestFirst(sorted[j], sorted[i]);
    }
  }

  lemma LeftOver(s: seq<RunningWorkload>, v: seq<RunningWorkload>, x: RunningWorkload) returns (j: nat)
    requires v <= s && multiset(v)[x] < multiset(s)[x]
    ensures |v| <= j < |s| && s[j] == x
  {
    var rest := s[|v|..];
    assert s == v + rest;
    assert x in multiset(rest);
    var k := IndexOf(rest, x);
    j := |v| + k;
  }

  method GreedyPickVictimsByGPUCount(candidates: seq<RunningWorkload>, need: int)
    returns (r: Option<seq<RunningWorkload>>)
    ensures need <= 0 ==> r == None
    ensures need > 0 && r.None? ==> !CanFree(candidates, need)
    ensures r.Some? ==> ShortestPrefix(StableSort(candidates, LargestFirst), need, r.value)
    ensures r.Some? ==> TakesLargest(candidates, r.value)
  {
    if need <= 0 {
      return None;
    }
    var victims, freed := TakeUntil(StableSort(candidates, LargestFirst), need);
    if victims.None? {
      NoPrefixMeansInfeasible(candidates, need);
    } else {
      PrefixTakesLargest(candidates, victims.value);
    }
    return victims;
  }

  // ---------------------------------------------------------------- the two selectors

  /** What the greedy selector answers: the shortest largest-first prefix below the ceiling. */
  ghost predicate GreedyChoice(candidates: seq<RunningWorkload>, need: int, v: seq<RunningWorkload>) {
    exists p ::
      Ceiling(candidates, need, p) && ShortestPrefix(StableSort(AtMost(candidates, p), LargestFirst), need, v)
  }

  ghost predicate GreedyAnswer(
      incoming: QueuedWorkload, running: seq<RunningWorkload>, fleet: FleetFreeCapacity, known: set<string>,
      r: Result<seq<RunningWorkload>>)
  {
    match ContextOf(incoming, running, fleet, known)
    case Err(e) => r == Err(e)
    case Ok(Fits) => r == Ok([])
    case Ok(Shortfall(_, need, candidates)) =>
      if CanFree(candidates, need)
      then r.Ok? && GreedyChoice(candidates, need, r.value)
      else r == Err(InsufficientPreemptable(need, SumBy(candidates, Gpus)))
  }

  lemma ShortestPrefixUnique(s: seq<RunningWorkload>, need: int, v: seq<RunningWorkload>, w: seq<RunningWorkload>)
    requires ShortestPrefix(s, need, v) && ShortestPrefix(s, need, w)
    ensures v == w
  {
    assert v == s[..|v|] && w == s[..|w|];
    assert forall j | 0 <= j < |v| :: v[..j] == s[..j];
    assert forall j | 0 <= j < |w| :: w[..j] == s[..j];
  }

  /** The answer is a function of the inputs. */
  lemma GreedyAnswerUnique(
      incoming: QueuedWorkload, running: seq<RunningWorkload>, fleet: FleetFreeCapacity, known: set<string>,
      r: Result<seq<RunningWorkload>>, r': Result<seq<RunningWorkload>>)
    requires GreedyAnswer(incoming, running, fleet, known, r)
    requires GreedyAnswer(incoming, running, fleet, known, r')
    ensures r == r'
  {
    match ContextOf(incoming, running, fleet, known)
    case Ok(Shortfall(_, need, cs)) =>
      if CanFree(cs, need) {
        var p :| Ceiling(cs, need, p) && ShortestPrefix(StableSort(AtMost(cs, p), LargestFirst), need, r.value);
        var q :| Ceiling(cs, need, q) && ShortestPrefix(StableSort(AtMost(cs, q), LargestFirst), need, r'.value);
        CeilingUnique(cs, need, p, q);
        ShortestPrefixUnique(StableSort(AtMost(cs, p), LargestFirst), need, r.value, r'.value);
      }
    case _ =>
  }

  /** In victim order the workloads of priority at most `p` form a prefix. */
  lemma {:induction false} BandIsPrefix(cs: seq<RunningWorkload>, p: int, idx: nat)
    requires SortedBy(cs, VictimOrder) && idx <= |cs|
    requires idx > 0 ==> cs[idx - 1].priority <= p
    requires idx < |cs| ==> cs[idx].priority > p
    ensures AtMost(cs, p) == cs[..idx]
    decreases |cs|
  {
    if cs != [] {
      if idx == 0 {
        BandIsPrefix(cs[1..], p, 0) by {
          assert |cs| > 1 ==> !VictimOrder(cs[1], cs[0]);
        }
      } else {
        assert idx > 1 ==> !VictimOrder(cs[idx - 1], cs[0]);
        BandIsPrefix(cs[1..], p, idx - 1);
        assert cs[..idx] == [cs[0]] + cs[1..][..idx - 1];
      }
    }
  }

  /** Two-stage optimality over a pool of evictable workloads: the ceiling is as low as it can
      be, below it no sufficient set is smaller, and no victim is superfluous. */
  ghost predicate TwoStageOptimal(pool: seq<RunningWorkload>, need: int, v: seq<RunningWorkload>, p: int) {
    && Sufficient(v, pool, need)
    && Under(v, p)
    && (forall t | Sufficient(t, pool, need) :: Touches(t, p))
    && (forall t | Sufficient(t, pool, need) && Under(t, p) :: |v| <= |t|)
    && (forall i | 0 <= i < |v| :: SumBy(Without(v, i), Gpus) < need)
  }

  lemma ReachesCeiling(pool: seq<RunningWorkload>, need: int, p: int, t: seq<RunningWorkload>)
    requires Ceiling(pool, need, p) && Sufficient(t, pool, need)
    ensures Touches(t, p)
  {
    if Under(t, p - 1) {
      BoundedWithin(t, pool, p - 1);
      assert Sufficient(t, AtMost(pool, p - 1), need);
    }
  }

  lemma GreedyIsOptimal(pool: seq<RunningWorkload>, need: int, v: seq<RunningWorkload>, p: int)
    requires Ceiling(pool, need, p) && ShortestPrefix(StableSort(AtMost(pool, p), LargestFirst), need, v)
    ensures TwoStageOptimal(pool, need, v, p)
  {
    var band := AtMost(pool, p);
    LargestFirstDescends(band);
    PrefixWithin(v, StableSort(band, LargestFirst));
    AtMostWithin(pool, p, p);
    assert Sufficient(v, pool, need);
    forall x | x in v ensures x.priority <= p {
      WithinMembers(v, band, x);
      AtMostMembers(pool, p, x);
    }
    forall t | Sufficient(t, pool, need) ensures Touches(t, p) {
      ReachesCeiling(pool, need, p, t);
    }
    forall t | Sufficient(t, pool, need) && Under(t, p) ensures |v| <= |t| {
      BoundedWithin(t, pool, p);
      GreedyPickIsSmallest(band, need, v, t);
    }
    forall i | 0 <= i < |v| ensures SumBy(Without(v, i), Gpus) < need {
      GreedyPickIsIrredundant(band, need, v, i);
    }
  }

  /** Optimality over the running workloads themselves, not their sorted copy. */
  lemma TwoStageOptimalPermuted(
      a: seq<RunningWorkload>, b: seq<RunningWorkload>, need: int, v: seq<RunningWorkload>, p: int)
    requires multiset(a) == multiset(b) && TwoStageOptimal(a, need, v, p)
    ensures TwoStageOptimal(b, need, v, p)
  {
    assert forall t :: Sufficient(t, a, need) <==> Sufficient(t, b, need);
  }

  /** `v` is an optimal eviction for `incoming`, with ceiling `p`. */
  ghost predicate OptimalEviction(
      incoming: QueuedWorkload, running: seq<RunningWorkload>, fleet: FleetFreeCapacity,
      v: seq<RunningWorkload>, p: int)
  {
    && incoming.profile in fleet.byProfile
    && TwoStageOptimal(OfProfile(running, incoming.profile),
                       incoming.gpuCount - fleet.byProfile[incoming.profile].freeDevices, v, p)
  }

  lemma PickSuffices(band: seq<RunningWorkload>, need: int, v: seq<RunningWorkload>)
    requires ShortestPrefix(StableSort(band, LargestFirst), need, v)
    ensures Sufficient(v, band, need) && CanFree(band, need)
  {
    LargestFirstDescends(band);
    PrefixWithin(v, StableSort(band, LargestFirst));
  }

  /** Success in the first band that allows it is success at the ceiling. */
  lemma FirstFeasibleBand(
      cs: seq<RunningWorkload>, need: int, p: int, start: nat, idx: nat, v: seq<RunningWorkload>)
    requires SortedBy(cs, VictimOrder) && start < idx <= |cs|
    requires start > 0 ==> cs[start - 1].priority < p
    requires cs[start].priority == cs[idx - 1].priority == p
    requires idx < |cs| ==> cs[idx].priority != p
    requires !CanFree(cs[..start], need)
    requires ShortestPrefix(StableSort(cs[..idx], LargestFirst), need, v)
    ensures CanFree(cs, need) && GreedyChoice(cs, need, v) && TwoStageOptimal(cs, need, v, p)
  {
    assert idx < |cs| ==> !VictimOrder(cs[idx], cs[idx - 1]);
    BandIsPrefix(cs, p, idx);
    BandIsPrefix(cs, p - 1, start);
    PickSuffices(cs[..idx], need, v);
    assert Ceiling(cs, need, p);
    GreedyIsOptimal(cs, need, v, p);
  }

  /** The loop over priority bands: try the band, widen it, try again. */
  lemma TakesLargestPermuted(
      a: seq<RunningWorkload>, b: seq<RunningWorkload>, v: seq<RunningWorkload>, p: int)
    requires multiset(a) == multiset(b) && TakesLargest(AtMost(a, p), v)
    ensures TakesLargest(AtMost(b, p), v)
  {
    forall x ensures multiset(AtMost(a, p))[x] == multiset(AtMost(b, p))[x] {
      AtMostMembers(a, p, x);
      AtMostMembers(b, p, x);
    }
  }

  method EvictLowestBands(candidates: seq<RunningWorkload>, need: int)
    returns (r: Option<seq<RunningWorkload>>, ghost p: int)
    requires SortedBy(candidates, VictimOrder) && need > 0
    ensures r.None? ==> !CanFree(candidates, need)
    ensures r.Some? ==> CanFree(candidates, need) && GreedyChoice(candidates, need, r.value)
    ensures r.Some? ==> TwoStageOptimal(candidates, need, r.value, p)
  {
    var pool: seq<RunningWorkload> := [];
    var idx := 0;
    NothingFreesNothing(need);
    assert candidates[..0] == [];
    while idx < |candidates|
      invariant 0 <= idx <= |candidates| && pool == candidates[..idx]
      invariant 0 < idx < |candidates| ==> candidates[idx - 1].priority < candidates[idx].priority
      invariant !CanFree(candidates[..idx], need)
    {
      p := candidates[idx].priority;
      var band := candidates[idx].priority;
      ghost var start := idx;
      while idx < |candidates| && candidates[idx].priority == band
        invariant start <= idx <= |candidates| && pool == candidates[..idx]
        invariant idx == start ==> idx < |candidates|
        invariant idx > start ==> candidates[idx - 1].priority == band
        decreases |candidates| - idx
      {
        pool := pool + [candidates[idx]];
        idx := idx + 1;
      }
      var victims := GreedyPickVictimsByGPUCount(pool, need);
      if victims.Some? {
        FirstFeasibleBand(candidates, need, p, start, idx, victims.value);
        return victims, p;
      }
      assert idx < |candidates| ==> !VictimOrder(candidates[idx], candidates[idx - 1]);
    }
    assert candidates[..idx] == candidates;
    return None, 0;
  }

  method TotalGPUs(ws: seq<RunningWorkload>) returns (total: int)
    ensures total == SumBy(ws, Gpus)
  {
    total := 0;
    for i := 0 to |ws|
      invariant total == SumBy(ws[..i], Gpus)
    {
      SumByTake(ws, i, Gpus);
      total := total + ws[i].gpuCount;
    }
    assert ws[..|ws|] == ws;
  }

  method SelectPreemptionVictimsGreedyMinimal(
      incoming: QueuedWorkload, running: seq<RunningWorkload>, fleet: FleetFreeCapacity, known: set<string>)
    returns (r: Result<seq<RunningWorkload>>)
    ensures GreedyAnswer(incoming, running, fleet, known, r)
    ensures r.Ok? && r.value != [] ==>
              exists p :: OptimalEviction(incoming, running, fleet, r.value, p)
  {
    var context := BuildPreemptionContext(incoming, running, fleet, known);
    if context.Err? {
      return Err(context.error);
    }
    if context.value.Fits? {
      return Ok([]);
    }
    var candidates, need := context.value.candidates, context.value.needToFree;
    ShortfallFacts(incoming, running, fleet, known);
    CandidatesFacts(running, incoming.profile);
    if |candidates| == 0 {
      assert candidates == [];
      NothingFreesNothing(need);
      return Err(InsufficientPreemptable(need, 0));
    }
    var victims, p := EvictLowestBands(candidates, need);
    if victims.Some? {
      TwoStageOptimalPermuted(candidates, OfProfile(running, incoming.profile), need, victims.value, p);
      assert OptimalEviction(incoming, running, fleet, victims.value, p);
      return Ok(victims.value);
    }
    var total := TotalGPUs(candidates);
    return Err(InsufficientPreemptable(need, total));
  }

  lemma NothingFreesNothing(need: int)
    requires need > 0
    ensures !CanFree([], need)
  {
    var none: seq<RunningWorkload> := [];
    forall t | Within(t, none) ensures !Sufficient(t, none, need) {
      WithinSize(t, none);
    }
  }

  /** The baseline selector: shortest prefix in victim order. */
  ghost predicate BaselineAnswer(
      incoming: QueuedWorkload, running: seq<RunningWorkload>, fleet: FleetFreeCapacity, known: set<string>,
      r: Result<seq<RunningWorkload>>)
  {
    match ContextOf(incoming, running, fleet, known)
    case Err(e) => r == Err(e)
    case Ok(Fits) => r == Ok([])
    case Ok(Shortfall(_, need, candidates)) =>
      if r.Ok? then ShortestPrefix(candidates, need, r.value)
      else NoPrefix(candidates, need) && r == Err(InsufficientPreemptable(need, SumBy(candidates, Gpus)))
  }

  method SelectPreemptionVictims(
      incoming: QueuedWorkload, running: seq<RunningWorkload>, fleet: FleetFreeCapacity, known: set<string>)
    returns (r: Result<seq<RunningWorkload>>)
    ensures BaselineAnswer(incoming, running, fleet, known, r)
  {
    var context := BuildPreemptionContext(incoming, running, fleet, known);
    if context.Err? {
      return Err(context.error);
    }
    if context.value.Fits? {
      return Ok([]);
    }
    var candidates, need := context.value.candidates, context.value.needToFree;
    ShortfallFacts(incoming, running, fleet, known);
    var victims, freed := TakeUntil(candidates, need);
    if victims.Some? {
      return Ok(victims.value);
    }
    return Err(InsufficientPreemptable(need, freed));
  }

  // ---------------------------------------------------------------- greedy against baseline

  /** The baseline stops exactly at the ceiling. */
  lemma BaselineCeiling(cs: seq<RunningWorkload>, need: int, b: seq<RunningWorkload>)
    requires SortedBy(cs, VictimOrder) && need > 0
    requires forall r | r in cs :: r.gpuCount >= 0
    requires ShortestPrefix(cs, need, b)
    ensures b != []
    ensures Under(b, b[|b| - 1].priority)
    ensures Ceiling(cs, need, b[|b| - 1].priority)
  {
    var n := |b| - 1;
    var p := b[n].priority;
    assert Under(b, p) by {
      forall k | 0 <= k < n ensures b[k].priority <= p {
        assert !VictimOrder(cs[n], cs[k]);
      }
    }
    PrefixWithin(b, cs);
    BoundedWithin(b, cs, p);
    assert Sufficient(b, AtMost(cs, p), need);
    assert b[..n] == cs[..n];
    ShortOfCeiling(cs, need, n, p);
  }

  lemma ShortOfCeiling(cs: seq<RunningWorkload>, need: int, n: nat, p: int)
    requires SortedBy(cs, VictimOrder) && (forall r | r in cs :: r.gpuCount >= 0)
    requires n < |cs| && cs[n].priority == p && SumBy(cs[..n], Gpus) < need
    ensures !CanFree(AtMost(cs, p - 1), need)
  {
    BelowLast(cs, n, p);
    forall r | r in AtMost(cs, p - 1) ensures r.gpuCount >= 0 {
      AtMostMembers(cs, p - 1, r);
    }
    CanFreeIsSum(AtMost(cs, p - 1), need);
    SumByWithin(AtMost(cs, p - 1), cs[..n], Gpus);
  }

  /** Whatever has priority below that of position `n` stands before it. */
  lemma {:induction false} BelowLast(cs: seq<RunningWorkload>, n: nat, p: int)
    requires SortedBy(cs, VictimOrder) && n < |cs| && cs[n].priority == p
    ensures Within(AtMost(cs, p - 1), cs[..n])
    decreases |cs|
  {
    if n == 0 {
      BandIsPrefix(cs, p - 1, 0);
    } else if cs[0].priority <= p - 1 {
      BelowLast(cs[1..], n - 1, p);
      assert cs[..n] == [cs[0]] + cs[1..][..n - 1];
    } else {
      BandIsPrefix(cs, p - 1, 0);
    }
  }

  lemma GreedyAgainstBaselineCore(
      cs: seq<RunningWorkload>, need: int, g: seq<RunningWorkload>, b: seq<RunningWorkload>)
    requires SortedBy(cs, VictimOrder) && need > 0
    requires forall r | r in cs :: r.gpuCount >= 0
    requires GreedyChoice(cs, need, g) && ShortestPrefix(cs, need, b)
    ensures b != [] && |g| <= |b|
    ensures Under(g, b[|b| - 1].priority) && Touches(g, b[|b| - 1].priority)
    ensures Under(b, b[|b| - 1].priority)
  {
    BaselineCeiling(cs, need, b);
    var p :| Ceiling(cs, need, p) && ShortestPrefix(StableSort(AtMost(cs, p), LargestFirst), need, g);
    CeilingUnique(cs, need, p, b[|b| - 1].priority);
    GreedyIsOptimal(cs, need, g, p);
    PrefixWithin(b, cs);
    assert Sufficient(b, cs, need);
  }

  lemma ShortfallAgainstBaseline(
      cs: seq<RunningWorkload>, need: int, g: Result<seq<RunningWorkload>>, b: Result<seq<RunningWorkload>>)
    requires SortedBy(cs, VictimOrder) && need > 0 && forall r | r in cs :: r.gpuCount >= 0
    requires if CanFree(cs, need) then g.Ok? && GreedyChoice(cs, need, g.value)
             else g == Err(InsufficientPreemptable(need, SumBy(cs, Gpus)))
    requires if b.Ok? then ShortestPrefix(cs, need, b.value)
             else NoPrefix(cs, need) && b == Err(InsufficientPreemptable(need, SumBy(cs, Gpus)))
    ensures g.Ok? <==> b.Ok?
    ensures g.Err? ==> g == b
    ensures g.Ok? ==>
              && b.value != [] && |g.value| <= |b.value|
              && var p := b.value[|b.value| - 1].priority;
                 Under(b.value, p) && Under(g.value, p) && Touches(g.value, p)
  {
    BaselineFeasibility(cs, need);
    if b.Ok? {
      GreedyAgainstBaselineCore(cs, need, g.value, b.value);
    }
  }

  lemma CandidatesNonNegative(running: seq<RunningWorkload>, profile: string)
    requires forall r | r in running :: r.gpuCount >= 0
    ensures forall r | r in Candidates(running, profile) :: r.gpuCount >= 0
  {
    forall r | r in Candidates(running, profile) ensures r.gpuCount >= 0 {
      SortMembers(OfProfile(running, profile), VictimOrder, r);
      OfProfileMembers(running, profile, r);
    }
  }

  lemma BaselineFeasibility(cs: seq<RunningWorkload>, need: int)
    requires forall r | r in cs :: r.gpuCount >= 0
    ensures NoPrefix(cs, need) ==> !CanFree(cs, need)
    ensures forall b :: ShortestPrefix(cs, need, b) ==> CanFree(cs, need)
  {
    CanFreeIsSum(cs, need);
    assert cs[..|cs|] == cs;
    forall b | ShortestPrefix(cs, need, b) ensures CanFree(cs, need) {
      PrefixWithin(b, cs);
      assert Sufficient(b, cs, need);
    }
  }

  /** Both selectors succeed on exactly the same inputs; the greedy one never evicts more, and the
      highest priority either of them evicts is the same. */
  lemma GreedyAgainstBaseline(
      incoming: QueuedWorkload, running: seq<RunningWorkload>, fleet: FleetFreeCapacity, known: set<string>,
      g: Result<seq<RunningWorkload>>, b: Result<seq<RunningWorkload>>)
    requires forall r | r in running :: r.gpuCount >= 0
    requires GreedyAnswer(incoming, running, fleet, known, g)
    requires BaselineAnswer(incoming, running, fleet, known, b)
    ensures g.Ok? <==> b.Ok?
    ensures g.Err? ==> g == b
    ensures g.Ok? ==> |g.value| <= |b.value|
    ensures g.Ok? && b.value != [] ==>
              var p := b.value[|b.value| - 1].priority;
              Under(b.value, p) && Under(g.value, p) && Touches(g.value, p)
  {
    var context := ContextOf(incoming, running, fleet, known);
    if context.Ok? && context.value.Shortfall? {
      var cs, need := context.value.candidates, context.value.needToFree;
      ShortfallFacts(incoming, running, fleet, known);
      CandidatesFacts(running, incoming.profile);
      CandidatesNonNegative(running, incoming.profile);
      ShortfallAgainstBaseline(cs, need, g, b);
    }
  }

  // ---------------------------------------------------------------- who may be evicted

  lemma RankBelowCore(pool: seq<RunningWorkload>, need: int, v: seq<RunningWorkload>, p: int, bound: int)
    requires TwoStageOptimal(pool, need, v, p)
    ensures Under(v, bound - 1) <==> CanFree(AtMost(pool, bound - 1), need)
  {
    if Under(v, bound - 1) {
      BoundedWithin(v, pool, bound - 1);
      assert Sufficient(v, AtMost(pool, bound - 1), need);
    }
    if CanFree(AtMost(pool, bound - 1), need) {
      var t: seq<RunningWorkload> :| Sufficient(t, AtMost(pool, bound - 1), need);
      AtMostWithin(pool, bound - 1, bound - 1);
      assert Sufficient(t, pool, need);
      assert Touches(t, p);
      var x :| x in t && x.priority >= p;
      WithinMembers(t, AtMost(pool, bound - 1), x);
      AtMostMembers(pool, bound - 1, x);
    }
  }

  lemma AtMostNonNegative(running: seq<RunningWorkload>, profile: string, p: int)
    requires forall r | r in running :: r.gpuCount >= 0
    ensures forall r | r in AtMost(OfProfile(running, profile), p) :: r.gpuCount >= 0
  {
    forall r | r in AtMost(OfProfile(running, profile), p) ensures r.gpuCount >= 0 {
      AtMostMembers(OfProfile(running, profile), p, r);
      OfProfileMembers(running, profile, r);
    }
  }

  lemma GreedyChoiceOptimal(running: seq<RunningWorkload>, profile: string, need: int, v: seq<RunningWorkload>)
    returns (p: int)
    requires GreedyChoice(Candidates(running, profile), need, v)
    ensures TwoStageOptimal(OfProfile(running, profile), need, v, p)
    ensures TakesLargest(AtMost(OfProfile(running, profile), p), v)
  {
    var cs := Candidates(running, profile);
    CandidatesFacts(running, profile);
    p :| Ceiling(cs, need, p) && ShortestPrefix(StableSort(AtMost(cs, p), LargestFirst), need, v);
    GreedyIsOptimal(cs, need, v, p);
    TwoStageOptimalPermuted(cs, OfProfile(running, profile), need, v, p);
    PrefixTakesLargest(AtMost(cs, p), v);
    TakesLargestPermuted(cs, OfProfile(running, profile), v, p);
  }

  /** Every non-empty answer is an optimal eviction. */
  lemma GreedyAnswerOptimal(
      incoming: QueuedWorkload, running: seq<RunningWorkload>, fleet: FleetFreeCapacity, known: set<string>,
      g: Result<seq<RunningWorkload>>) returns (p: int)
    requires GreedyAnswer(incoming, running, fleet, known, g)
    requires g.Ok? && g.value != []
    ensures OptimalEviction(incoming, running, fleet, g.value, p)
  {
    ShortfallFacts(incoming, running, fleet, known);
    p := GreedyChoiceOptimal(
      running, incoming.profile, incoming.gpuCount - fleet.byProfile[incoming.profile].freeDevices, g.value);
  }

  /** Within that ceiling victims are taken from the largest down, the most recently started first. */
  lemma GreedyAnswerTakesLargest(
      incoming: QueuedWorkload, running: seq<RunningWorkload>, fleet: FleetFreeCapacity, known: set<string>,
      g: Result<seq<RunningWorkload>>) returns (p: int)
    requires GreedyAnswer(incoming, running, fleet, known, g)
    requires g.Ok? && g.value != []
    ensures OptimalEviction(incoming, running, fleet, g.value, p)
    ensures TakesLargest(AtMost(OfProfile(running, incoming.profile), p), g.value)
  {
    ShortfallFacts(incoming, running, fleet, known);
    p := GreedyChoiceOptimal(
      running, incoming.profile, incoming.gpuCount - fleet.byProfile[incoming.profile].freeDevices, g.value);
  }

  /** GPUs held on `profile` by running workloads of priority at most `p`. */
  function GPUsUnder(running: seq<RunningWorkload>, profile: string, p: int): int {
    SumBy(AtMost(OfProfile(running, profile), p), Gpus)
  }

  lemma BelowIsSum(running: seq<RunningWorkload>, profile: string, p: int, need: int)
    requires forall r | r in running :: r.gpuCount >= 0
    ensures CanFree(AtMost(OfProfile(running, profile), p), need)
       <==> GPUsUnder(running, profile, p) >= need
  {
    AtMostNonNegative(running, profile, p);
    CanFreeIsSum(AtMost(OfProfile(running, profile), p), need);
  }

  lemma RankBelowIsSum(
      running: seq<RunningWorkload>, profile: string, need: int, v: seq<RunningWorkload>, p: int, bound: int)
    requires forall r | r in running :: r.gpuCount >= 0
    requires TwoStageOptimal(OfProfile(running, profile), need, v, p)
    ensures Under(v, bound - 1) <==> GPUsUnder(running, profile, bound - 1) >= need
  {
    RankBelowCore(OfProfile(running, profile), need, v, p, bound);
    BelowIsSum(running, profile, bound - 1, need);
  }

  lemma EvictionRanksBelowIff(
      incoming: QueuedWorkload, running: seq<RunningWorkload>, fleet: FleetFreeCapacity,
      v: seq<RunningWorkload>, p: int)
    requires forall r | r in running :: r.gpuCount >= 0
    requires OptimalEviction(incoming, running, fleet, v, p)
    ensures Under(v, incoming.priority - 1)
       <==> GPUsUnder(running, incoming.profile, incoming.priority - 1)
              + fleet.byProfile[incoming.profile].freeDevices >= incoming.gpuCount
  {
    RankBelowIsSum(running, incoming.profile, incoming.gpuCount - fleet.byProfile[incoming.profile].freeDevices,
                   v, p, incoming.priority);
  }

  /** Victims all rank below the incoming workload exactly when the running workloads that rank
      below it could cover the shortfall on their own. */
  lemma VictimsRankBelowIff(
      incoming: QueuedWorkload, running: seq<RunningWorkload>, fleet: FleetFreeCapacity, known: set<string>,
      g: Result<seq<RunningWorkload>>)
    requires forall r | r in running :: r.gpuCount >= 0
    requires GreedyAnswer(incoming, running, fleet, known, g)
    requires g.Ok? && g.value != []
    ensures incoming.profile in fleet.byProfile
    ensures Under(g.value, incoming.priority - 1)
       <==> GPUsUnder(running, incoming.profile, incoming.priority - 1)
              + fleet.byProfile[incoming.profile].freeDevices >= incoming.gpuCount
  {
    var p := GreedyAnswerOptimal(incoming, running, fleet, known, g);
    EvictionRanksBelowIff(incoming, running, fleet, g.value, p);
  }

  /** The documented rule that only lower-priority work is evicted is not what the code
      enforces: a single running workload of any priority is taken when it is all there is. */
  lemma HigherPriorityVictim(
      incoming: QueuedWorkload, r: RunningWorkload, known: set<string>, free: ProfileFreeCapacity)
    requires r.profile == incoming.profile == NormalizeProfile(incoming.profile) != ""
    requires incoming.profile in known && Supported(incoming.kind)
    requires incoming.gpuMemoryMiB > 0 && free.memoryMiBPerDevice >= incoming.gpuMemoryMiB
    requires 0 == free.freeDevices < incoming.gpuCount <= r.gpuCount
    requires r.priority > incoming.priority
    ensures var fleet := FleetFreeCapacity(0, free.freeMemoryMiB, map[incoming.profile := free]);
            GreedyAnswer(incoming, [r], fleet, known, Ok([r]))
  {
    var need := incoming.gpuCount;
    assert Candidates([r], r.profile) == [r] by {
      assert OfProfile([r][1..], r.profile) == [] && OfProfile([r], r.profile) == [r];
      assert StableSort([r][1..], VictimOrder) == [];
    }
    SoleCandidate(r, need);
  }

  lemma SoleCandidate(r: RunningWorkload, need: int)
    requires 0 < need <= r.gpuCount
    ensures CanFree([r], need) && GreedyChoice([r], need, [r])
  {
    assert AtMost([r][1..], r.priority) == [] && AtMost([r][1..], r.priority - 1) == [];
    assert AtMost([r], r.priority) == [r] && AtMost([r], r.priority - 1) == [];
    assert StableSort([r][1..], LargestFirst) == [];
    NothingFreesNothing(need);
    SumBySnoc([], r, Gpus);
    assert [] + [r] == [r];
    assert Sufficient([r], [r], need);
    assert Ceiling([r], need, r.priority);
    assert [r][..0] == [];
    assert ShortestPrefix(StableSort(AtMost([r], r.priority), LargestFirst), need, [r]);
  }
}
