/** Which of several victims of one size internal/scheduler/preemption.go prefers. Its documentation says
    the one of lower priority; the comparator of the pick looks at size and start time only. */
module TieBreak {
  import opened Sequences
  import opened Workloads
  import opened Preemption

  ghost predicate Ascends(s: seq<RunningWorkload>) {
    forall i, j | 0 <= i < j < |s| :: s[i].priority <= s[j].priority
  }

  /** Cut after `n`, the largest-first order of `pool` spares no workload of lower priority than a victim
      of the same size. */
  ghost predicate HonoursPriority(pool: seq<RunningWorkload>, n: nat) {
    var sorted := StableSort(pool, LargestFirst);
    forall i, j | 0 <= i < n <= j < |sorted| && sorted[i].gpuCount == sorted[j].gpuCount ::
      sorted[i].priority <= sorted[j].priority
  }

  /** Of two workloads of one size, the later started never has the higher priority. */
  ghost predicate LaterRanksLower(pool: seq<RunningWorkload>) {
    forall a, b | a in pool && b in pool && a.gpuCount == b.gpuCount && a.startedAt > b.startedAt ::
      a.priority <= b.priority
  }

  lemma {:induction false} TiesAscend(s: seq<RunningWorkload>, x: RunningWorkload)
    requires Ascends(s)
    ensures Ascends(Ties(s, x, LargestFirst))
  {
    if s != [] {
      TiesAscend(s[1..], x);
      forall y | y in Ties(s[1..], x, LargestFirst) ensures s[0].priority <= y.priority {
        TiesMembers(s[1..], x, y, LargestFirst);
        var j := IndexOf(s[1..], y);
        assert s[j + 1] == y;
      }
    }
  }

  lemma {:induction false} AscendingTies(s: seq<RunningWorkload>, x: RunningWorkload, i: nat, j: nat)
    requires i < j < |s| && Ascends(Ties(s, x, LargestFirst))
    requires s[i].gpuCount == s[j].gpuCount == x.gpuCount && s[i].startedAt == s[j].startedAt == x.startedAt
    ensures s[i].priority <= s[j].priority
  {
    var ties, rest := Ties(s, x, LargestFirst), Ties(s[1..], x, LargestFirst);
    if i == 0 {
      TiesMembers(s[1..], x, s[j], LargestFirst);
      assert s[1..][j - 1] == s[j];
      var k := IndexOf(rest, s[j]);
      assert ties == [s[0]] + rest;
      assert ties[0] == s[0] && ties[k + 1] == s[j];
    } else {
      forall a, b | 0 <= a < b < |rest| ensures rest[a].priority <= rest[b].priority {
        if ties != rest {
          assert ties == [s[0]] + rest;
          assert ties[a + 1] == rest[a] && ties[b + 1] == rest[b];
        }
      }
      AscendingTies(s[1..], x, i - 1, j - 1);
    }
  }

  /** In largest-first order, later start comes first among equals, then lower priority. */
  lemma LaterFirst(pool: seq<RunningWorkload>, i: nat, j: nat)
    requires SortedBy(pool, VictimOrder) && LaterRanksLower(pool) && i < j < |pool|
    requires |StableSort(pool, LargestFirst)| == |pool|
    requires StableSort(pool, LargestFirst)[i].gpuCount == StableSort(pool, LargestFirst)[j].gpuCount
    ensures StableSort(pool, LargestFirst)[i].priority <= StableSort(pool, LargestFirst)[j].priority
  {
    var sorted := StableSort(pool, LargestFirst);
    ComparatorsAreOrders();
    SortSorts(pool, LargestFirst);
    assert !LargestFirst(sorted[j], sorted[i]);
    if sorted[i].startedAt == sorted[j].startedAt {
      assert Ascends(pool) by {
        assert forall a, b | 0 <= a < b < |pool| :: !VictimOrder(pool[b], pool[a]);
      }
      TiesAscend(pool, sorted[i]);
      SortIsStable(pool, sorted[i], LargestFirst);
      AscendingTies(sorted, sorted[i], i, j);
    } else {
      SortMembers(pool, LargestFirst, sorted[i]);
      SortMembers(pool, LargestFirst, sorted[j]);
    }
  }

  lemma {:induction false} PositiveGrows(s: seq<RunningWorkload>, m: nat, n: nat)
    requires m < n <= |s| && forall r | r in s :: r.gpuCount > 0
    ensures SumBy(s[..m], Gpus) < SumBy(s[..n], Gpus)
    decreases n
  {
    SumByTake(s, n - 1, Gpus);
    if m < n - 1 {
      PositiveGrows(s, m, n - 1);
    }
  }

  /** Every cut of the order is made for some shortfall. */
  lemma EveryCut(s: seq<RunningWorkload>, n: nat)
    requires 0 < n <= |s| && forall r | r in s :: r.gpuCount > 0
    ensures SumBy(s[..n], Gpus) > 0 && ShortestPrefix(s, SumBy(s[..n], Gpus), s[..n])
  {
    PositiveGrows(s, 0, n);
    forall j | 0 <= j < n ensures SumBy(s[..n][..j], Gpus) < SumBy(s[..n], Gpus) {
      assert s[..n][..j] == s[..j];
      PositiveGrows(s, j, n);
    }
  }

  /** Whatever the shortfall, the pick from one pool prefers lower priority among workloads of one size. */
  ghost predicate PrefersLower(pool: seq<RunningWorkload>) {
    forall need, v | need > 0 && ShortestPrefix(StableSort(pool, LargestFirst), need, v) :: HonoursPriority(pool, |v|)
  }

  lemma EarlierStays(pool: seq<RunningWorkload>, a: RunningWorkload, b: RunningWorkload)
    requires a in pool && b in pool && a.gpuCount == b.gpuCount && a.startedAt > b.startedAt
    requires PrefersLower(pool) && forall r | r in pool :: r.gpuCount > 0
    ensures a.priority <= b.priority
  {
    var sorted := StableSort(pool, LargestFirst);
    ComparatorsAreOrders();
    SortSorts(pool, LargestFirst);
    SortMembers(pool, LargestFirst, a);
    SortMembers(pool, LargestFirst, b);
    var i := IndexOf(sorted, a);
    var j := IndexOf(sorted, b);
    assert i < j by {
      assert LargestFirst(sorted[i], sorted[j]);
    }
    forall r | r in sorted ensures r.gpuCount > 0 {
      SortMembers(pool, LargestFirst, r);
    }
    EveryCut(sorted, j);
    assert HonoursPriority(pool, |sorted[..j]|);
  }

  /** In a pick from one pool the documented tie-break by priority holds for every shortfall exactly if,
      among workloads of one size, the later started never has the higher priority. */
  lemma PickTieBreakIff(pool: seq<RunningWorkload>)
    requires SortedBy(pool, VictimOrder) && forall r | r in pool :: r.gpuCount > 0
    ensures PrefersLower(pool) <==> LaterRanksLower(pool)
  {
    SortPermutes(pool, LargestFirst);
    var sorted := StableSort(pool, LargestFirst);
    if LaterRanksLower(pool) {
      forall need, v | need > 0 && ShortestPrefix(sorted, need, v) ensures HonoursPriority(pool, |v|) {
        forall i, j | 0 <= i < |v| <= j < |sorted| && sorted[i].gpuCount == sorted[j].gpuCount
          ensures sorted[i].priority <= sorted[j].priority
        {
          LaterFirst(pool, i, j);
        }
      }
    }
    if PrefersLower(pool) {
      forall a, b | a in pool && b in pool && a.gpuCount == b.gpuCount && a.startedAt > b.startedAt
        ensures a.priority <= b.priority
      {
        EarlierStays(pool, a, b);
      }
    }
  }

  // ---------------------------------------------------------------- the selector, whose pool is a band

  /** The workloads the selector picks from at ceiling `p`, in the order in which it picks them. */
  function Band(cs: seq<RunningWorkload>, p: int): seq<RunningWorkload> {
    StableSort(AtMost(cs, p), LargestFirst)
  }

  ghost predicate ChosenAt(cs: seq<RunningWorkload>, need: int, p: int, v: seq<RunningWorkload>) {
    need > 0 && Ceiling(cs, need, p) && ShortestPrefix(Band(cs, p), need, v)
  }

  /** Whatever the shortfall, the selector prefers lower priority among candidates of one size. */
  ghost predicate SelectorPrefersLower(cs: seq<RunningWorkload>) {
    forall need, p, v | ChosenAt(cs, need, p, v) :: HonoursPriority(AtMost(cs, p), |v|)
  }

  /** At ceiling `p`, the `i`-th to be picked has the size of the `j`-th, and ranks above it. */
  ghost predicate OutOfOrder(cs: seq<RunningWorkload>, p: int, i: nat, j: nat) {
    i < j < |Band(cs, p)| && Band(cs, p)[i].gpuCount == Band(cs, p)[j].gpuCount
    && Band(cs, p)[i].priority > Band(cs, p)[j].priority
  }

  /** Whatever comes before the lower one frees no more than the workloads under the ceiling do. */
  ghost predicate Covered(cs: seq<RunningWorkload>, p: int, j: nat) {
    j <= |Band(cs, p)| && SumBy(Band(cs, p)[..j], Gpus) <= SumBy(AtMost(cs, p - 1), Gpus)
  }

  ghost predicate TiesCovered(cs: seq<RunningWorkload>) {
    forall p, i, j | OutOfOrder(cs, p, i, j) :: Covered(cs, p, j)
  }

  lemma BandPositive(cs: seq<RunningWorkload>, p: int)
    requires forall r | r in cs :: r.gpuCount > 0
    ensures forall r | r in AtMost(cs, p) :: r.gpuCount > 0
    ensures forall r | r in Band(cs, p) :: r.gpuCount > 0
  {
    forall r | r in AtMost(cs, p) ensures r.gpuCount > 0 {
      AtMostMembers(cs, p, r);
    }
    forall r | r in Band(cs, p) ensures r.gpuCount > 0 {
      SortMembers(AtMost(cs, p), LargestFirst, r);
    }
  }

  /** A cut at or before a covered position is not made at this ceiling. */
  lemma CoveredIsNotCut(cs: seq<RunningWorkload>, need: int, p: int, v: seq<RunningWorkload>, j: nat)
    requires (forall r | r in cs :: r.gpuCount > 0) && ChosenAt(cs, need, p, v) && |v| <= j < |Band(cs, p)|
    ensures !Covered(cs, p, j)
  {
    var band := Band(cs, p);
    BandPositive(cs, p);
    BandPositive(cs, p - 1);
    CanFreeIsSum(AtMost(cs, p - 1), need);
    assert v == band[..|v|];
    if |v| < j {
      PositiveGrows(band, |v|, j);
    }
  }

  /** What is not covered is cut for some shortfall. */
  lemma UncoveredIsCut(cs: seq<RunningWorkload>, p: int, j: nat)
    requires (forall r | r in cs :: r.gpuCount > 0) && 0 < j < |Band(cs, p)| && !Covered(cs, p, j)
    ensures ChosenAt(cs, SumBy(Band(cs, p)[..j], Gpus), p, Band(cs, p)[..j])
  {
    var band := Band(cs, p);
    var need := SumBy(band[..j], Gpus);
    BandPositive(cs, p);
    BandPositive(cs, p - 1);
    EveryCut(band, j);
    PickSuffices(AtMost(cs, p), need, band[..j]);
    CanFreeIsSum(AtMost(cs, p - 1), need);
  }

  /** The selector honours the documented tie-break for every shortfall exactly if, at every ceiling, each
      pair of one size that is out of order is covered by the workloads under the ceiling. */
  lemma TieBreakIff(cs: seq<RunningWorkload>)
    requires forall r | r in cs :: r.gpuCount > 0
    ensures SelectorPrefersLower(cs) <==> TiesCovered(cs)
  {
    if TiesCovered(cs) {
      forall need, p, v | ChosenAt(cs, need, p, v) ensures HonoursPriority(AtMost(cs, p), |v|) {
        forall i, j | 0 <= i < |v| <= j < |Band(cs, p)| && Band(cs, p)[i].gpuCount == Band(cs, p)[j].gpuCount
          ensures Band(cs, p)[i].priority <= Band(cs, p)[j].priority
        {
          CoveredIsNotCut(cs, need, p, v, j);
          assert !OutOfOrder(cs, p, i, j);
        }
      }
    }
    if SelectorPrefersLower(cs) {
      forall p, i: nat, j: nat | OutOfOrder(cs, p, i, j) ensures Covered(cs, p, j) {
        if !Covered(cs, p, j) {
          UncoveredIsCut(cs, p, j);
          assert !HonoursPriority(AtMost(cs, p), j);
        }
      }
    }
  }

  /** Three workloads of one size, the lowest in priority started first. */
  ghost predicate OldestIsLowest(a: RunningWorkload, b: RunningWorkload, c: RunningWorkload) {
    && a.priority < b.priority == c.priority && a.startedAt < b.startedAt < c.startedAt
    && a.gpuCount == b.gpuCount == c.gpuCount > 0
  }

  lemma ThreeSorted(a: RunningWorkload, b: RunningWorkload, c: RunningWorkload)
    requires OldestIsLowest(a, b, c)
    ensures StableSort([a, c, b], LargestFirst) == [c, b, a]
  {
    assert [a, c, b][1..] == [c, b] && [c, b][1..] == [b] && [b][1..] == [];
    assert StableSort([b], LargestFirst) == [b];
    assert StableSort([c, b], LargestFirst) == [c, b];
    assert Insert(a, [b], LargestFirst) == [b, a];
    assert Insert(a, [c, b], LargestFirst) == [c, b, a];
  }

  lemma ThreeBanded(a: RunningWorkload, b: RunningWorkload, c: RunningWorkload)
    requires OldestIsLowest(a, b, c)
    ensures AtMost([a, c, b], b.priority) == [a, c, b] && AtMost([a, c, b], b.priority - 1) == [a]
  {
    var p := b.priority;
    assert [a, c, b][1..] == [c, b] && [c, b][1..] == [b] && [b][1..] == [];
    assert AtMost([b], p) == [b] + AtMost([b][1..], p);
    assert AtMost([b], p - 1) == AtMost([b][1..], p - 1);
    assert AtMost([c, b], p) == [c] + AtMost([b], p);
    assert AtMost([c, b], p - 1) == AtMost([b], p - 1);
  }

  lemma TwoSuffice(a: RunningWorkload, b: RunningWorkload, c: RunningWorkload)
    requires OldestIsLowest(a, b, c)
    ensures ShortestPrefix([c, b, a], 2 * a.gpuCount, [c, b]) && !CanFree([a], 2 * a.gpuCount)
  {
    SumBySnoc([], a, Gpus);
    SumBySnoc([], c, Gpus);
    SumBySnoc([c], b, Gpus);
    assert [] + [a] == [a] && [] + [c] == [c] && [c] + [b] == [c, b];
    CanFreeIsSum([a], 2 * a.gpuCount);
    assert [c, b][..0] == [] && [c, b][..1] == [c];
    assert [c, b] <= [c, b, a];
  }

  /** Short of two of the three, the selector evicts the other two and spares the lowest. */
  lemma LowestPrioritySpared(a: RunningWorkload, b: RunningWorkload, c: RunningWorkload)
    requires OldestIsLowest(a, b, c)
    ensures GreedyChoice([a, c, b], 2 * a.gpuCount, [c, b])
  {
    ThreeSorted(a, b, c);
    ThreeBanded(a, b, c);
    TwoSuffice(a, b, c);
    PickSuffices([a, c, b], 2 * a.gpuCount, [c, b]);
    assert Ceiling([a, c, b], 2 * a.gpuCount, b.priority);
  }
}
