/** Sums, sub-collections and stable sorting over sequences.

    Nothing here belongs to one component of the scheduler; the exchange argument `TopSum`
    carries both the victim selector and the packing placement policy. */
module Sequences {

  datatype Option<+T> = None | Some(value: T)

  // ---------------------------------------------------------------- sums

  function SumBy<T>(s: seq<T>, f: T -> int): int {
    if s == [] then 0 else f(s[0]) + SumBy(s[1..], f)
  }

  lemma {:induction false} SumByConcat<T>(a: seq<T>, b: seq<T>, f: T -> int)
    ensures SumBy(a + b, f) == SumBy(a, f) + SumBy(b, f)
  {
    if a == [] {
      assert a + b == b;
    } else {
      assert (a + b)[1..] == a[1..] + b;
      SumByConcat(a[1..], b, f);
    }
  }

  lemma SumBySnoc<T>(a: seq<T>, x: T, f: T -> int)
    ensures SumBy(a + [x], f) == SumBy(a, f) + f(x)
  {
    SumByConcat(a, [x], f);
  }

  /** Taking one more element adds its weight. */
  lemma SumByTake<T>(s: seq<T>, k: nat, f: T -> int)
    requires k < |s|
    ensures SumBy(s[..k + 1], f) == SumBy(s[..k], f) + f(s[k])
  {
    assert s[..k + 1] == s[..k] + [s[k]];
    SumBySnoc(s[..k], s[k], f);
  }

  lemma {:induction false} SumByNonNegative<T>(s: seq<T>, f: T -> int)
    requires forall x | x in s :: f(x) >= 0
    ensures SumBy(s, f) >= 0
  {
    if s != [] {
      SumByNonNegative(s[1..], f);
    }
  }

  /** Every element of `ys` is related to the element of `xs` at its position. */
  ghost predicate Paired<A(!new), B(!new)>(r: (A, B) -> bool, xs: seq<A>, ys: seq<B>) {
    |ys| <= |xs| && forall k | 0 <= k < |ys| :: r(xs[k], ys[k])
  }

  lemma PairedSnoc<A(!new), B(!new)>(r: (A, B) -> bool, xs: seq<A>, ys: seq<B>, y: B)
    requires Paired(r, xs, ys) && |ys| < |xs| && r(xs[|ys|], y)
    ensures Paired(r, xs, ys + [y])
  {
  }

  lemma PairedLonger<A(!new), B(!new)>(r: (A, B) -> bool, xs: seq<A>, x: A, ys: seq<B>)
    requires Paired(r, xs, ys)
    ensures Paired(r, xs + [x], ys)
  {
  }

  /** Every state leads to the next by the step between them. */
  ghost predicate Linked<S(!new), M(!new)>(r: (S, M, S) -> bool, states: seq<S>, steps: seq<M>) {
    |states| == |steps| + 1 && forall k | 0 <= k < |steps| :: r(states[k], steps[k], states[k + 1])
  }

  lemma LinkedPrefix<S(!new), M(!new)>(r: (S, M, S) -> bool, states: seq<S>, steps: seq<M>, n: nat)
    requires Linked(r, states, steps) && n <= |steps|
    ensures Linked(r, states[..n + 1], steps[..n])
  {
    forall k | 0 <= k < n ensures r(states[..n + 1][k], steps[..n][k], states[..n + 1][k + 1]) {
      assert r(states[k], steps[k], states[k + 1]);
    }
  }

  lemma FirstIsMember<T>(s: seq<T>)
    ensures s != [] ==> s[0] in s
  {
  }

  /** What every step keeps holds to the end. */
  lemma {:induction false} KeptThroughout(holds: nat -> bool, e: nat, k: nat)
    requires e <= k && holds(e) && forall j | e <= j < k && holds(j) :: holds(j + 1)
    ensures holds(k)
    decreases k
  {
    if e < k {
      KeptThroughout(holds, e, k - 1);
    }
  }

  /** What did not hold and then holds came to hold at some step. */
  lemma {:induction false} ComesToHold(holds: nat -> bool, e: nat, k: nat) returns (m: nat)
    requires e <= k && !holds(e) && holds(k)
    ensures e <= m < k && !holds(m) && holds(m + 1)
    decreases k
  {
    if holds(k - 1) {
      m := ComesToHold(holds, e, k - 1);
    } else {
      m := k - 1;
    }
  }

  /** What holds until something breaks it holds throughout exactly if nothing does. */
  lemma {:induction false} Unbroken(holds: nat -> bool, breaks: nat -> bool, e: nat, k: nat)
    requires e <= k && holds(e) && forall j | e <= j < k && holds(j) :: holds(j + 1) <==> !breaks(j)
    ensures (forall j | e <= j <= k :: holds(j)) <==> (forall j | e <= j < k :: !breaks(j))
    decreases k
  {
    if e < k {
      Unbroken(holds, breaks, e, k - 1);
      if holds(k - 1) {
        assert holds(k) <==> !breaks(k - 1);
      }
    }
  }

  lemma LinkedSnoc<S(!new), M(!new)>(r: (S, M, S) -> bool, states: seq<S>, steps: seq<M>, m: M, s: S)
    requires Linked(r, states, steps) && r(states[|steps|], m, s)
    ensures Linked(r, states + [s], steps + [m])
  {
    var states', steps' := states + [s], steps + [m];
    forall k | 0 <= k < |steps'| ensures r(states'[k], steps'[k], states'[k + 1]) {
      if k < |steps| {
        assert states'[k] == states[k] && states'[k + 1] == states[k + 1] && steps'[k] == steps[k];
      }
    }
  }

  /** `s` without position `i`. */
  function Without<T>(s: seq<T>, i: nat): seq<T>
    requires i < |s|
  {
    s[..i] + s[i + 1..]
  }

  lemma WithoutFacts<T>(s: seq<T>, i: nat, f: T -> int)
    requires i < |s|
    ensures multiset(s) == multiset(Without(s, i)) + multiset{s[i]}
    ensures SumBy(s, f) == SumBy(Without(s, i), f) + f(s[i])
  {
    WithoutOccurrence(s, i);
    WithoutSum(s, i, f);
  }

  lemma WithoutOccurrence<T>(s: seq<T>, i: nat)
    requires i < |s|
    ensures multiset(s) == multiset(Without(s, i)) + multiset{s[i]}
  {
    assert s == s[..i] + [s[i]] + s[i + 1..];
  }

  lemma {:induction false} WithoutSum<T>(s: seq<T>, i: nat, f: T -> int)
    requires i < |s|
    ensures SumBy(s, f) == SumBy(Without(s, i), f) + f(s[i])
  {
    if i == 0 {
      assert Without(s, 0) == s[1..];
    } else {
      WithoutSum(s[1..], i - 1, f);
      assert Without(s, i)[1..] == Without(s[1..], i - 1);
    }
  }

  /** Taking a common element out of two permutations. */
  lemma WithoutPermuted<T>(a: seq<T>, b: seq<T>, i: nat, j: nat)
    requires i < |a| && j < |b| && a[i] == b[j]
    ensures multiset(a) == multiset(b) <==> multiset(Without(a, i)) == multiset(Without(b, j))
  {
    WithoutOccurrence(a, i);
    WithoutOccurrence(b, j);
    assert multiset(Without(a, i)) == multiset(a) - multiset{a[i]};
    assert multiset(Without(b, j)) == multiset(b) - multiset{a[i]};
  }

  /** `t` is `s` with `f` applied to every element. */
  ghost predicate Images<S, T(!new)>(s: seq<S>, f: S -> T, t: seq<T>) {
    |t| == |s| && forall i | 0 <= i < |s| :: t[i] == f(s[i])
  }

  lemma ImagesWithout<S, T(!new)>(s: seq<S>, f: S -> T, t: seq<T>, i: nat)
    requires Images(s, f, t) && i < |s|
    ensures Images(Without(s, i), f, Without(t, i))
  {
  }

  lemma {:induction false} ImagesPermuted<S, T(!new)>(a: seq<S>, b: seq<S>, f: S -> T, p: seq<T>, q: seq<T>)
    requires multiset(a) == multiset(b) && Images(a, f, p) && Images(b, f, q)
    ensures multiset(p) == multiset(q)
  {
    assert |a| == |multiset(a)| == |multiset(b)| == |b|;
    if a != [] {
      assert a[0] in multiset(b);
      var i := IndexOf(b, a[0]);
      WithoutPermuted(a, b, 0, i);
      ImagesWithout(a, f, p, 0);
      ImagesWithout(b, f, q, i);
      ImagesPermuted(Without(a, 0), Without(b, i), f, Without(p, 0), Without(q, i));
      WithoutPermuted(p, q, 0, i);
    }
  }

  lemma HeadAndTail<T>(s: seq<T>)
    requires s != []
    ensures multiset(s) == multiset{s[0]} + multiset(s[1..])
    ensures multiset(s[1..]) == multiset(s) - multiset{s[0]}
  {
    assert s == [s[0]] + s[1..];
  }

  /** The position of some occurrence of `x`. */
  lemma IndexOf<T>(s: seq<T>, x: T) returns (i: nat)
    requires x in s
    ensures i < |s| && s[i] == x
  {
    i :| 0 <= i < |s| && s[i] == x;
  }

  /** A sub-collection of `s`, order and position disregarded. */
  ghost predicate Within<T>(t: seq<T>, s: seq<T>) {
    multiset(t) <= multiset(s)
  }

  lemma WithinMembers<T>(t: seq<T>, s: seq<T>, x: T)
    requires Within(t, s) && x in t
    ensures x in s
  {
    assert x in multiset(t);
    assert x in multiset(s);
  }

  lemma {:induction false} WithinSize<T>(t: seq<T>, s: seq<T>)
    requires Within(t, s)
    ensures |t| <= |s|
  {
    assert |multiset(s) - multiset(t)| == |multiset(s)| - |multiset(t)|;
  }

  /** Sums depend only on the multiset of elements. */
  lemma {:induction false} SumByPermuted<T>(a: seq<T>, b: seq<T>, f: T -> int)
    requires multiset(a) == multiset(b)
    ensures SumBy(a, f) == SumBy(b, f)
    decreases |a|
  {
    if a == [] {
      assert |multiset(a)| == |multiset(b)|;
    } else {
      assert a[0] in multiset(b);
      var i := IndexOf(b, a[0]);
      WithoutFacts(b, i, f);
      HeadAndTail(a);
      assert multiset(Without(b, i)) == multiset(b) - multiset{a[0]};
      SumByPermuted(a[1..], Without(b, i), f);
    }
  }

  /** With non-negative weights a sub-collection never outweighs the whole. */
  lemma {:induction false} SumByWithin<T>(t: seq<T>, s: seq<T>, f: T -> int)
    requires Within(t, s)
    requires forall x | x in s :: f(x) >= 0
    ensures SumBy(t, f) <= SumBy(s, f)
    decreases |t|
  {
    if t == [] {
      SumByNonNegative(s, f);
    } else {
      assert t[0] in multiset(t);
      var i := IndexOf(s, t[0]);
      WithoutFacts(s, i, f);
      HeadAndTail(t);
      assert multiset(Without(s, i)) == multiset(s) - multiset{t[0]};
      SumByWithin(t[1..], Without(s, i), f);
    }
  }

  ghost predicate Descending<T(!new)>(s: seq<T>, f: T -> int) {
    forall i, j | 0 <= i < j < |s| :: f(s[i]) >= f(s[j])
  }

  /** Shifting a window of a descending sequence to the right never raises its sum. */
  lemma {:induction false} SlideDown<T(!new)>(s: seq<T>, k: nat, f: T -> int)
    requires Descending(s, f) && k < |s|
    ensures SumBy(s[1..][..k], f) <= SumBy(s[..k], f)
  {
    if k > 0 {
      SlideDown(s, k - 1, f);
      SumByTake(s[1..], k - 1, f);
      SumByTake(s, k - 1, f);
    }
  }

  /** A sub-collection that contains the head splits into the head and a sub-collection of
      the tail. */
  lemma SplitOffHead<T>(s: seq<T>, t: seq<T>, f: T -> int) returns (rest: seq<T>)
    requires s != [] && Within(t, s) && s[0] in t
    ensures Within(rest, s[1..]) && |t| == |rest| + 1
    ensures SumBy(t, f) == f(s[0]) + SumBy(rest, f)
  {
    var i := IndexOf(t, s[0]);
    rest := Without(t, i);
    WithoutFacts(t, i, f);
    HeadAndTail(s);
    assert multiset(rest) == multiset(t) - multiset{s[0]};
  }

  lemma SkipHead<T>(s: seq<T>, t: seq<T>)
    requires s != [] && Within(t, s) && s[0] !in t
    ensures Within(t, s[1..])
  {
    HeadAndTail(s);
    assert s[0] !in multiset(t);
  }

  /** The exchange argument: in a descending sequence no `k`-element sub-collection
      outweighs the first `k` elements. */
  lemma {:induction false} TopSum<T(!new)>(s: seq<T>, t: seq<T>, f: T -> int)
    requires Descending(s, f) && Within(t, s)
    ensures |t| <= |s|
    ensures SumBy(t, f) <= SumBy(s[..|t|], f)
    decreases |s|
  {
    WithinSize(t, s);
    if t != [] {
      if s[0] in t {
        var rest := SplitOffHead(s, t, f);
        TopSum(s[1..], rest, f);
        assert s[..|t|][1..] == s[1..][..|rest|];
      } else {
        SkipHead(s, t);
        TopSum(s[1..], t, f);
        SlideDown(s, |t|, f);
      }
    }
  }

  // ---------------------------------------------------------------- stable sort

  /** What a comparator must be for a sorted order to exist at all. */
  ghost predicate StrictWeakOrder<T(!new)>(less: (T, T) -> bool) {
    && (forall a, b :: less(a, b) ==> !less(b, a))
    && (forall a, b, c :: !less(b, a) && !less(c, b) ==> !less(c, a))
  }

  ghost predicate SortedBy<T(!new)>(s: seq<T>, less: (T, T) -> bool) {
    forall i, j | 0 <= i < j < |s| :: !less(s[j], s[i])
  }

  /** Elements of `s` that tie with `x`, in their order of appearance. */
  function Ties<T>(s: seq<T>, x: T, less: (T, T) -> bool): seq<T> {
    if s == [] then []
    else if !less(s[0], x) && !less(x, s[0]) then [s[0]] + Ties(s[1..], x, less)
    else Ties(s[1..], x, less)
  }

  function Insert<T>(x: T, s: seq<T>, less: (T, T) -> bool): seq<T> {
    if s == [] || !less(s[0], x) then [x] + s else [s[0]] + Insert(x, s[1..], less)
  }

  /** The library routine sort.SliceStable, as the function it computes. */
  function StableSort<T>(s: seq<T>, less: (T, T) -> bool): seq<T> {
    if s == [] then [] else Insert(s[0], StableSort(s[1..], less), less)
  }

  lemma {:induction false} InsertPermutes<T>(x: T, s: seq<T>, less: (T, T) -> bool)
    ensures multiset(Insert(x, s, less)) == multiset(s) + multiset{x}
  {
    if s != [] {
      assert s == [s[0]] + s[1..];
      if less(s[0], x) {
        InsertPermutes(x, s[1..], less);
      }
    }
  }

  lemma {:induction false} SortPermutes<T>(s: seq<T>, less: (T, T) -> bool)
    ensures multiset(StableSort(s, less)) == multiset(s)
    ensures |StableSort(s, less)| == |s|
  {
    if s != [] {
      assert s == [s[0]] + s[1..];
      SortPermutes(s[1..], less);
      InsertPermutes(s[0], StableSort(s[1..], less), less);
    }
    assert |multiset(StableSort(s, less))| == |multiset(s)|;
  }

  lemma SortMembers<T>(s: seq<T>, less: (T, T) -> bool, x: T)
    ensures x in StableSort(s, less) <==> x in s
  {
    SortPermutes(s, less);
    assert x in StableSort(s, less) <==> x in multiset(StableSort(s, less));
    assert x in s <==> x in multiset(s);
  }

  lemma {:induction false} InsertSorts<T(!new)>(x: T, s: seq<T>, less: (T, T) -> bool)
    requires StrictWeakOrder(less) && SortedBy(s, less)
    ensures SortedBy(Insert(x, s, less), less)
  {
    if s != [] && less(s[0], x) {
      InsertSorts(x, s[1..], less);
      var r := Insert(x, s[1..], less);
      InsertPermutes(x, s[1..], less);
      forall j | 0 <= j < |r| ensures !less(r[j], s[0]) {
        assert r[j] in multiset(r);
        assert r[j] == x || r[j] in s[1..];
      }
    }
  }

  lemma {:induction false} SortSorts<T(!new)>(s: seq<T>, less: (T, T) -> bool)
    requires StrictWeakOrder(less)
    ensures SortedBy(StableSort(s, less), less)
  {
    if s != [] {
      SortSorts(s[1..], less);
      InsertSorts(s[0], StableSort(s[1..], less), less);
    }
  }

  lemma {:induction false} InsertKeepsTies<T(!new)>(x: T, s: seq<T>, y: T, less: (T, T) -> bool)
    requires StrictWeakOrder(less)
    ensures Ties(Insert(x, s, less), y, less) == Ties([x] + s, y, less)
  {
    assert ([x] + s)[1..] == s;
    if s != [] && less(s[0], x) {
      InsertKeepsTies(x, s[1..], y, less);
      assert ([x] + s[1..])[1..] == s[1..];
      var r := [s[0]] + Insert(x, s[1..], less);
      assert r[1..] == Insert(x, s[1..], less);
    }
  }

  /** Stability: elements that tie keep their relative input order. */
  lemma {:induction false} SortIsStable<T(!new)>(s: seq<T>, y: T, less: (T, T) -> bool)
    requires StrictWeakOrder(less)
    ensures Ties(StableSort(s, less), y, less) == Ties(s, y, less)
  {
    if s != [] {
      SortIsStable(s[1..], y, less);
      var rest := StableSort(s[1..], less);
      InsertKeepsTies(s[0], rest, y, less);
      assert ([s[0]] + rest)[1..] == rest;
    }
  }

  lemma {:induction false} TiesMembers<T>(s: seq<T>, x: T, y: T, less: (T, T) -> bool)
    ensures y in Ties(s, x, less) <==> y in s && !less(y, x) && !less(x, y)
  {
    if s != [] {
      TiesMembers(s[1..], x, y, less);
    }
  }

  /** Sortedness and stability leave exactly one candidate, so `StableSort` is the only
      function sort.SliceStable can compute. */
  lemma {:induction false} StableSortUnique<T(!new)>(a: seq<T>, b: seq<T>, less: (T, T) -> bool)
    requires StrictWeakOrder(less) && SortedBy(a, less) && SortedBy(b, less)
    requires forall x :: Ties(a, x, less) == Ties(b, x, less)
    ensures a == b
    decreases |a|
  {
    if a == [] {
      forall x ensures x !in b {
        TiesMembers(b, x, x, less);
        assert Ties(b, x, less) == Ties(a, x, less);
      }
    } else {
      TiesMembers(a, a[0], a[0], less);
      TiesMembers(b, a[0], a[0], less);
      assert b != [];
      TiesMembers(a, b[0], b[0], less);
      TiesMembers(b, b[0], b[0], less);
      assert b[0] in a && a[0] in b;
      assert !less(a[0], b[0]) && !less(b[0], a[0]);
      assert Ties(a, a[0], less)[0] == a[0] && Ties(b, a[0], less)[0] == b[0];
      forall x ensures Ties(a[1..], x, less) == Ties(b[1..], x, less) {
        assert Ties(a, x, less) == Ties(b, x, less);
        if !less(a[0], x) && !less(x, a[0]) {
          assert Ties(a, x, less)[1..] == Ties(a[1..], x, less);
          assert Ties(b, x, less)[1..] == Ties(b[1..], x, less);
        }
      }
      StableSortUnique(a[1..], b[1..], less);
      assert a == [a[0]] + a[1..] && b == [b[0]] + b[1..];
    }
  }

  // ---------------------------------------------------------------- distinctness and flattening

  ghost predicate Distinct<T(!new)>(s: seq<T>) {
    forall i, j | 0 <= i < j < |s| :: s[i] != s[j]
  }

  /** A list without repetition is as long as its set of members. */
  lemma {:induction false} DistinctSize<T(!new)>(s: seq<T>)
    requires Distinct(s)
    ensures |set x | x in s| == |s|
  {
    if s == [] {
      assert (set x | x in s) == {};
    } else {
      DistinctSize(s[1..]);
      assert (set x | x in s) == (set x | x in s[1..]) + {s[0]};
    }
  }

  lemma DistinctConstant<T(!new)>(s: seq<T>, x: T)
    requires Distinct(s) && forall y | y in s :: y == x
    ensures |s| <= 1
  {
    DistinctSize(s);
    if s != [] {
      assert s[0] in s;
      assert (set y | y in s) == {x};
    }
  }

  lemma {:induction false} DistinctCounts<T(!new)>(s: seq<T>)
    requires Distinct(s)
    ensures forall x :: multiset(s)[x] <= 1
  {
    if s != [] {
      DistinctCounts(s[1..]);
      HeadAndTail(s);
      assert s[0] !in multiset(s[1..]);
    }
  }

  lemma {:induction false} CountsDistinct<T(!new)>(s: seq<T>)
    requires forall x :: multiset(s)[x] <= 1
    ensures Distinct(s)
  {
    if s != [] {
      HeadAndTail(s);
      forall x ensures multiset(s[1..])[x] <= 1 {
        assert multiset(s)[x] <= 1;
      }
      CountsDistinct(s[1..]);
      assert multiset(s)[s[0]] <= 1;
      assert s[0] !in multiset(s[1..]);
    }
  }

  /** Distinctness is a property of the multiset. */
  lemma DistinctPermuted<T(!new)>(a: seq<T>, b: seq<T>)
    requires Distinct(a) && multiset(b) <= multiset(a)
    ensures Distinct(b)
  {
    DistinctCounts(a);
    forall x ensures multiset(b)[x] <= 1 {
      assert multiset(b)[x] <= multiset(a)[x];
    }
    CountsDistinct(b);
  }

  // ---------------------------------------------------------------- sums over maps

  ghost function AnyKey<V>(m: map<string, V>): (k: string)
    requires m != map[]
    ensures k in m
  {
    var k :| k in m;
    k
  }

  /** The sum of a map's values; the order of visiting keys is immaterial. */
  ghost function MapSum(m: map<string, int>): int {
    if m == map[] then 0 else m[AnyKey(m)] + MapSum(m - {AnyKey(m)})
  }

  lemma {:induction false} MapSumRemove(m: map<string, int>, k: string)
    requires k in m
    ensures MapSum(m) == m[k] + MapSum(m - {k})
    decreases |m|
  {
    var a := AnyKey(m);
    if k != a {
      MapSumRemove(m - {a}, k);
      MapSumRemove(m - {k}, a);
      assert m - {a} - {k} == m - {k} - {a};
    }
  }

  lemma MapSumUpdate(m: map<string, int>, k: string, v: int)
    ensures MapSum(m[k := v]) == MapSum(m) + v - (if k in m then m[k] else 0)
  {
    MapSumRemove(m[k := v], k);
    assert m[k := v] - {k} == m - {k};
    if k in m {
      MapSumRemove(m, k);
    } else {
      assert m - {k} == m;
    }
  }
}
