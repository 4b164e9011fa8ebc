/** Admission order and weighted round-robin of internal/scheduler (ordering.go, fairness_wrr.go). */
module RoundRobin {
  import opened Sequences
  import opened Workloads

  // ---------------------------------------------------------------- priority, then first come

  predicate AdmissionOrder(a: QueuedWorkload, b: QueuedWorkload) {
    if a.priority != b.priority then a.priority > b.priority else a.queuedAt < b.queuedAt
  }

  lemma AdmissionOrderIsOrder()
    ensures StrictWeakOrder(AdmissionOrder)
  {
  }

  /** The workloads of one priority and queue time, in order. */
  function Alike(s: seq<QueuedWorkload>, priority: int, queuedAt: int): seq<QueuedWorkload> {
    if s == [] then []
    else if s[0].priority == priority && s[0].queuedAt == queuedAt then [s[0]] + Alike(s[1..], priority, queuedAt)
    else Alike(s[1..], priority, queuedAt)
  }

  lemma {:induction false} TiesAreAlike(s: seq<QueuedWorkload>, x: QueuedWorkload)
    ensures Ties(s, x, AdmissionOrder) == Alike(s, x.priority, x.queuedAt)
  {
    if s != [] {
      TiesAreAlike(s[1..], x);
    }
  }

  /** Higher priority first, then earlier arrival. */
  ghost predicate Ranked(s: seq<QueuedWorkload>) {
    && (forall i, j | 0 <= i < j < |s| :: s[i].priority >= s[j].priority)
    && (forall i, j | 0 <= i < j < |s| && s[i].priority == s[j].priority :: s[i].queuedAt <= s[j].queuedAt)
  }

  lemma SortedIsRanked(s: seq<QueuedWorkload>)
    ensures SortedBy(s, AdmissionOrder) <==> Ranked(s)
  {
    if SortedBy(s, AdmissionOrder) {
      forall i, j | 0 <= i < j < |s| ensures s[i].priority >= s[j].priority {
        assert !AdmissionOrder(s[j], s[i]);
      }
      forall i, j | 0 <= i < j < |s| && s[i].priority == s[j].priority ensures s[i].queuedAt <= s[j].queuedAt {
        assert !AdmissionOrder(s[j], s[i]);
      }
    }
  }

  const ANYONE := QueuedWorkload("", "", 0, 0, 0, 0, "", 0, Training)

  lemma SortedAlike(workloads: seq<QueuedWorkload>, priority: int, queuedAt: int)
    ensures Alike(StableSort(workloads, AdmissionOrder), priority, queuedAt) == Alike(workloads, priority, queuedAt)
  {
    var x := ANYONE.(priority := priority, queuedAt := queuedAt);
    AdmissionOrderIsOrder();
    SortIsStable(workloads, x, AdmissionOrder);
    TiesAreAlike(StableSort(workloads, AdmissionOrder), x);
    TiesAreAlike(workloads, x);
  }

  /** OrderQueued copies and stable-sorts: priority falls, at equal priority arrival rises, and workloads
      equal in both keep their order. */
  function OrderQueued(workloads: seq<QueuedWorkload>): (r: seq<QueuedWorkload>)
    ensures multiset(r) == multiset(workloads) && |r| == |workloads|
    ensures forall i, j | 0 <= i < j < |r| :: r[i].priority >= r[j].priority
    ensures forall i, j | 0 <= i < j < |r| && r[i].priority == r[j].priority :: r[i].queuedAt <= r[j].queuedAt
    ensures forall p, q :: Alike(r, p, q) == Alike(workloads, p, q)
  {
    AdmissionOrderIsOrder();
    SortPermutes(workloads, AdmissionOrder);
    SortSorts(workloads, AdmissionOrder);
    SortedIsRanked(StableSort(workloads, AdmissionOrder));
    assert forall p, q :: Alike(StableSort(workloads, AdmissionOrder), p, q) == Alike(workloads, p, q) by {
      forall p, q ensures Alike(StableSort(workloads, AdmissionOrder), p, q) == Alike(workloads, p, q) {
        SortedAlike(workloads, p, q);
      }
    }
    StableSort(workloads, AdmissionOrder)
  }

  /** The result is the only sequence of which all this is true. */
  lemma OrderQueuedUnique(workloads: seq<QueuedWorkload>, r: seq<QueuedWorkload>)
    requires forall i, j | 0 <= i < j < |r| :: r[i].priority >= r[j].priority
    requires forall i, j | 0 <= i < j < |r| && r[i].priority == r[j].priority :: r[i].queuedAt <= r[j].queuedAt
    requires forall p, q :: Alike(r, p, q) == Alike(workloads, p, q)
    ensures r == OrderQueued(workloads)
  {
    var sorted := OrderQueued(workloads);
    AdmissionOrderIsOrder();
    SortedIsRanked(r);
    SortedIsRanked(sorted);
    forall x ensures Ties(r, x, AdmissionOrder) == Ties(sorted, x, AdmissionOrder) {
      TiesAreAlike(r, x);
      TiesAreAlike(sorted, x);
    }
    StableSortUnique(r, sorted, AdmissionOrder);
  }

  // ---------------------------------------------------------------- per-tenant queues

  function Items(q: seq<QueuedWorkload>, tenant: string): (r: seq<QueuedWorkload>)
    ensures |r| <= |q|
  {
    if q == [] then []
    else if q[0].tenant == tenant then [q[0]] + Items(q[1..], tenant)
    else Items(q[1..], tenant)
  }

  function Weight(quotas: map<string, TenantQuota>, tenant: string): (w: nat)
    ensures w >= 1
  {
    if tenant in quotas && quotas[tenant].weight > 0 then quotas[tenant].weight else 1
  }

  /** Tenants in order of first appearance. */
  function TenantOrder(q: seq<QueuedWorkload>): seq<string> {
    if q == [] then []
    else
      var before, last := TenantOrder(q[..|q| - 1]), q[|q| - 1].tenant;
      if last in before then before else before + [last]
  }

  lemma {:induction false} TenantOrderDistinct(q: seq<QueuedWorkload>)
    ensures Distinct(TenantOrder(q))
  {
    if q != [] {
      TenantOrderDistinct(q[..|q| - 1]);
    }
  }

  lemma {:induction false} ItemsConcat(a: seq<QueuedWorkload>, b: seq<QueuedWorkload>, t: string)
    ensures Items(a + b, t) == Items(a, t) + Items(b, t)
  {
    if a == [] {
      assert a + b == b;
    } else {
      assert (a + b)[1..] == a[1..] + b;
      ItemsConcat(a[1..], b, t);
    }
  }

  lemma ItemsSnoc(q: seq<QueuedWorkload>, w: QueuedWorkload, t: string)
    ensures Items(q + [w], t) == if w.tenant == t then Items(q, t) + [w] else Items(q, t)
  {
    ItemsConcat(q, [w], t);
    assert Items([w][1..], t) == [];
  }

  lemma OrderSnoc(q: seq<QueuedWorkload>, w: QueuedWorkload)
    ensures TenantOrder(q + [w]) == if w.tenant in TenantOrder(q) then TenantOrder(q) else TenantOrder(q) + [w.tenant]
  {
    assert (q + [w])[..|q|] == q;
  }

  /** A tenant is listed exactly when it has something queued. */
  lemma {:induction false} ListedIffQueued(q: seq<QueuedWorkload>, t: string)
    ensures t in TenantOrder(q) <==> Items(q, t) != []
  {
    if q != [] {
      var init, last := q[..|q| - 1], q[|q| - 1];
      assert q == init + [last];
      ListedIffQueued(init, t);
      ItemsSnoc(init, last, t);
      OrderSnoc(init, last);
    }
  }

  lemma {:induction false} ItemsMembers(q: seq<QueuedWorkload>, t: string)
    ensures forall w | w in Items(q, t) :: w.tenant == t
    ensures forall w :: w in q && w.tenant == t ==> w in Items(q, t)
  {
    if q != [] {
      ItemsMembers(q[1..], t);
    }
  }

  /** Filtering a list that already belongs to one tenant. */
  lemma {:induction false} ItemsOfOwn(q: seq<QueuedWorkload>, t: string, u: string)
    requires forall w | w in q :: w.tenant == t
    ensures Items(q, u) == if u == t then q else []
  {
    if q != [] {
      assert q[0].tenant == t;
      ItemsOfOwn(q[1..], t, u);
      assert q == [q[0]] + q[1..];
    }
  }

  lemma {:induction false} ItemsCount(q: seq<QueuedWorkload>, w: QueuedWorkload)
    ensures multiset(Items(q, w.tenant))[w] == multiset(q)[w]
  {
    if q != [] {
      assert q == [q[0]] + q[1..];
      ItemsCount(q[1..], w);
    }
  }

  /** The per-tenant queues determine the multiset, hence the length. */
  lemma SameItemsSameMultiset(a: seq<QueuedWorkload>, b: seq<QueuedWorkload>)
    requires forall t :: Items(a, t) == Items(b, t)
    ensures multiset(a) == multiset(b) && |a| == |b|
  {
    forall w ensures multiset(a)[w] == multiset(b)[w] {
      ItemsCount(a, w);
      ItemsCount(b, w);
      assert Items(a, w.tenant) == Items(b, w.tenant);
    }
    assert multiset(a) == multiset(b);
    assert |multiset(a)| == |a| && |multiset(b)| == |b|;
  }

  // ---------------------------------------------------------------- closed form of the rounds

  /** How many of a tenant's `n` items `rounds` rounds of weight `w` serve. */
  function Cut(n: nat, w: nat, rounds: nat): (c: nat)
    ensures c <= n
  {
    if rounds == 0 then 0
    else
      var before := Cut(n, w, rounds - 1);
      if before + w > n then n else before + w
  }

  lemma {:induction false} CutFacts(n: nat, w: nat, rounds: nat)
    requires w >= 1
    ensures Cut(n, w, rounds) <= rounds * w
    ensures Cut(n, w, rounds) < n ==> Cut(n, w, rounds) == rounds * w
    ensures Cut(n, w, rounds) <= Cut(n, w, rounds + 1)
    ensures Cut(n, w, rounds) == n || Cut(n, w, rounds) >= rounds
  {
    if rounds > 0 {
      CutFacts(n, w, rounds - 1);
      assert rounds * w == (rounds - 1) * w + w;
    }
  }

  function ServedTo(q: seq<QueuedWorkload>, quotas: map<string, TenantQuota>, t: string, rounds: nat): (c: nat)
    ensures c <= |Items(q, t)|
  {
    Cut(|Items(q, t)|, Weight(quotas, t), rounds)
  }

  /** What a tenant is served in round `r`. */
  function Share(q: seq<QueuedWorkload>, quotas: map<string, TenantQuota>, t: string, r: nat): seq<QueuedWorkload> {
    CutFacts(|Items(q, t)|, Weight(quotas, t), r);
    Items(q, t)[ServedTo(q, quotas, t, r)..ServedTo(q, quotas, t, r + 1)]
  }

  /** Round `r` over the given tenants. */
  function Round(
      q: seq<QueuedWorkload>, quotas: map<string, TenantQuota>, tenants: seq<string>, r: nat): seq<QueuedWorkload>
  {
    if tenants == [] then []
    else
      var n := |tenants| - 1;
      Round(q, quotas, tenants[..n], r) + Share(q, quotas, tenants[n], r)
  }

  function FullRound(q: seq<QueuedWorkload>, quotas: map<string, TenantQuota>, r: nat): seq<QueuedWorkload> {
    Round(q, quotas, TenantOrder(q), r)
  }

  /** The output of the first `rounds` rounds. */
  function Served(q: seq<QueuedWorkload>, quotas: map<string, TenantQuota>, rounds: nat): seq<QueuedWorkload> {
    if rounds == 0 then [] else Served(q, quotas, rounds - 1) + FullRound(q, quotas, rounds - 1)
  }

  /** The fair order: enough rounds to serve everyone. */
  function Fair(q: seq<QueuedWorkload>, quotas: map<string, TenantQuota>): seq<QueuedWorkload> {
    Served(q, quotas, |q|)
  }

  lemma ShareItems(q: seq<QueuedWorkload>, quotas: map<string, TenantQuota>, t: string, r: nat, u: string)
    ensures Items(Share(q, quotas, t, r), u) == if u == t then Share(q, quotas, t, r) else []
  {
    ItemsMembers(q, t);
    assert forall w | w in Share(q, quotas, t, r) :: w in Items(q, t);
    ItemsOfOwn(Share(q, quotas, t, r), t, u);
  }

  lemma RoundSnoc(q: seq<QueuedWorkload>, quotas: map<string, TenantQuota>, tenants: seq<string>, t: string, r: nat)
    ensures Round(q, quotas, tenants + [t], r) == Round(q, quotas, tenants, r) + Share(q, quotas, t, r)
  {
    assert (tenants + [t])[..|tenants|] == tenants;
  }

  lemma {:induction false} RoundItems(
      q: seq<QueuedWorkload>, quotas: map<string, TenantQuota>, tenants: seq<string>, r: nat, u: string)
    requires Distinct(tenants)
    ensures Items(Round(q, quotas, tenants, r), u) == if u in tenants then Share(q, quotas, u, r) else []
  {
    if tenants != [] {
      var init, t := tenants[..|tenants| - 1], tenants[|tenants| - 1];
      assert tenants == init + [t];
      RoundItems(q, quotas, init, r, u);
      ItemsConcat(Round(q, quotas, init, r), Share(q, quotas, t, r), u);
      ShareItems(q, quotas, t, r, u);
    }
  }

  lemma ShareExtends(q: seq<QueuedWorkload>, quotas: map<string, TenantQuota>, r: nat, t: string)
    ensures Items(q, t)[..ServedTo(q, quotas, t, r)] + Share(q, quotas, t, r)
         == Items(q, t)[..ServedTo(q, quotas, t, r + 1)]
  {
    CutFacts(|Items(q, t)|, Weight(quotas, t), r);
  }

  lemma FullRoundItems(q: seq<QueuedWorkload>, quotas: map<string, TenantQuota>, r: nat, t: string)
    ensures Items(FullRound(q, quotas, r), t) == Share(q, quotas, t, r)
  {
    TenantOrderDistinct(q);
    RoundItems(q, quotas, TenantOrder(q), r, t);
    if t !in TenantOrder(q) {
      ListedIffQueued(q, t);
    }
  }

  lemma ServedItemsStep(q: seq<QueuedWorkload>, quotas: map<string, TenantQuota>, r: nat, t: string)
    ensures Items(Served(q, quotas, r + 1), t) == Items(Served(q, quotas, r), t) + Share(q, quotas, t, r)
  {
    ItemsConcat(Served(q, quotas, r), FullRound(q, quotas, r), t);
    FullRoundItems(q, quotas, r, t);
  }

  /** After `rounds` rounds each tenant has been served exactly a prefix of its own queue. */
  lemma {:induction false} ServedItems(q: seq<QueuedWorkload>, quotas: map<string, TenantQuota>, rounds: nat, t: string)
    ensures Items(Served(q, quotas, rounds), t) == Items(q, t)[..ServedTo(q, quotas, t, rounds)]
  {
    if rounds > 0 {
      ServedItems(q, quotas, rounds - 1, t);
      ServedItemsStep(q, quotas, rounds - 1, t);
      ShareExtends(q, quotas, rounds - 1, t);
    }
  }

  lemma {:induction false} ServedGrows(q: seq<QueuedWorkload>, quotas: map<string, TenantQuota>, r: nat, s: nat)
    requires r <= s
    ensures Served(q, quotas, r) <= Served(q, quotas, s)
    decreases s
  {
    if r < s {
      ServedGrows(q, quotas, r, s - 1);
    }
  }

  // ---------------------------------------------------------------- what the order promises

  /** Within a tenant nothing is reordered, dropped or invented. */
  lemma FairKeepsTenantOrder(q: seq<QueuedWorkload>, quotas: map<string, TenantQuota>, t: string)
    ensures Items(Fair(q, quotas), t) == Items(q, t)
  {
    ServedItems(q, quotas, |q|, t);
    CutFacts(|Items(q, t)|, Weight(quotas, t), |q|);
  }

  lemma FairPermutes(q: seq<QueuedWorkload>, quotas: map<string, TenantQuota>)
    ensures multiset(Fair(q, quotas)) == multiset(q) && |Fair(q, quotas)| == |q|
  {
    forall t ensures Items(Fair(q, quotas), t) == Items(q, t) {
      FairKeepsTenantOrder(q, quotas, t);
    }
    SameItemsSameMultiset(Fair(q, quotas), q);
  }

  lemma {:induction false} FirstTenantFirst(q: seq<QueuedWorkload>)
    requires q != []
    ensures TenantOrder(q) != [] && TenantOrder(q)[0] == q[0].tenant
  {
    if |q| == 1 {
      assert q[..0] == [];
      assert TenantOrder(q[..0]) == [];
    } else {
      FirstTenantFirst(q[..|q| - 1]);
    }
  }

  lemma {:induction false} RoundStarts(
      q: seq<QueuedWorkload>, quotas: map<string, TenantQuota>, tenants: seq<string>, r: nat)
    requires tenants != []
    ensures Share(q, quotas, tenants[0], r) <= Round(q, quotas, tenants, r)
  {
    var n := |tenants| - 1;
    if n == 0 {
      assert Round(q, quotas, tenants[..0], r) == [];
    } else {
      RoundStarts(q, quotas, tenants[..n], r);
    }
  }

  /** The globally most preferred workload stays first. */
  lemma FairStartsWithFirst(q: seq<QueuedWorkload>, quotas: map<string, TenantQuota>)
    requires q != []
    ensures Fair(q, quotas) != [] && Fair(q, quotas)[0] == q[0]
  {
    FirstTenantFirst(q);
    var t := q[0].tenant;
    assert Items(q, t)[0] == q[0];
    assert Cut(|Items(q, t)|, Weight(quotas, t), 0) == 0;
    assert Cut(|Items(q, t)|, Weight(quotas, t), 1) >= 1;
    assert Share(q, quotas, t, 0)[0] == q[0];
    RoundStarts(q, quotas, TenantOrder(q), 0);
    assert Served(q, quotas, 0) == [];
    assert Served(q, quotas, 1) == FullRound(q, quotas, 0);
    ServedGrows(q, quotas, 1, |q|);
  }

  /** A prefix of the output lies between two consecutive round boundaries. */
  lemma {:induction false} Locate(q: seq<QueuedWorkload>, quotas: map<string, TenantQuota>, k: nat, rounds: nat)
    returns (r: nat)
    requires k < |Served(q, quotas, rounds)|
    ensures r < rounds && |Served(q, quotas, r)| <= k < |Served(q, quotas, r + 1)|
    decreases rounds
  {
    if |Served(q, quotas, rounds - 1)| <= k {
      r := rounds - 1;
    } else {
      r := Locate(q, quotas, k, rounds - 1);
    }
  }

  lemma ItemsOfPrefix(a: seq<QueuedWorkload>, b: seq<QueuedWorkload>, t: string)
    requires a <= b
    ensures |Items(a, t)| <= |Items(b, t)|
  {
    ItemsConcat(a, b[|a|..], t);
    assert b == a + b[|a|..];
  }

  lemma ProportionalArithmetic(a: nat, b: nat, r: nat, wa: nat, wb: nat)
    requires a <= (r + 1) * wa && b == r * wb
    ensures a * wb <= b * wa + wa * wb
  {
    assert a * wb <= ((r + 1) * wa) * wb;
    assert ((r + 1) * wa) * wb == (r * wb) * wa + wa * wb;
  }

  lemma ProportionalSlack(a: nat, b: nat, r: nat, wa: nat, wb: nat)
    requires a <= (r + 1) * wa && b >= r * wb
    ensures a * wb <= b * wa + wa * wb
  {
    ProportionalArithmetic(a, r * wb, r, wa, wb);
    assert (r * wb) * wa <= b * wa;
  }

  /** How many items of tenant `t` stand among the first `k` of the fair order. */
  function ServedInPrefix(q: seq<QueuedWorkload>, quotas: map<string, TenantQuota>, k: nat, t: string): nat
    requires k <= |Fair(q, quotas)|
  {
    |Items(Fair(q, quotas)[..k], t)|
  }

  lemma ServedAtMost(q: seq<QueuedWorkload>, quotas: map<string, TenantQuota>, rounds: nat, t: string)
    ensures |Items(Served(q, quotas, rounds), t)| <= rounds * Weight(quotas, t)
  {
    ServedItems(q, quotas, rounds, t);
    CutFacts(|Items(q, t)|, Weight(quotas, t), rounds);
  }

  lemma NotAheadOfRound(q: seq<QueuedWorkload>, quotas: map<string, TenantQuota>, k: nat, r: nat, t: string)
    requires r < |q| && k <= |Fair(q, quotas)| && k <= |Served(q, quotas, r + 1)|
    ensures ServedInPrefix(q, quotas, k, t) <= (r + 1) * Weight(quotas, t)
  {
    assert ServedInPrefix(q, quotas, k, t) <= |Items(Served(q, quotas, r + 1), t)| by {
      ServedGrows(q, quotas, r + 1, |q|);
      ItemsOfPrefix(Fair(q, quotas)[..k], Served(q, quotas, r + 1), t);
    }
    ServedAtMost(q, quotas, r + 1, t);
  }

  lemma NotBehindRound(q: seq<QueuedWorkload>, quotas: map<string, TenantQuota>, k: nat, r: nat, t: string)
    requires r < |q| && |Served(q, quotas, r)| <= k <= |Fair(q, quotas)|
    requires ServedInPrefix(q, quotas, k, t) < |Items(q, t)|
    ensures ServedInPrefix(q, quotas, k, t) >= r * Weight(quotas, t)
  {
    var done := Served(q, quotas, r);
    assert done <= Fair(q, quotas)[..k] by {
      ServedGrows(q, quotas, r, |q|);
    }
    ItemsOfPrefix(done, Fair(q, quotas)[..k], t);
    ServedItems(q, quotas, r, t);
    CutFacts(|Items(q, t)|, Weight(quotas, t), r);
  }

  lemma WaitingMeansUnfinished(q: seq<QueuedWorkload>, quotas: map<string, TenantQuota>, k: nat, t: string)
    requires k <= |Fair(q, quotas)| && ServedInPrefix(q, quotas, k, t) < |Items(q, t)|
    ensures k < |Fair(q, quotas)|
  {
    FairKeepsTenantOrder(q, quotas, t);
    WholePrefix(Fair(q, quotas), t);
  }

  lemma WholePrefix(f: seq<QueuedWorkload>, t: string)
    ensures Items(f[..|f|], t) == Items(f, t)
  {
    assert f[..|f|] == f;
  }

  /** Proportional fairness in every prefix: while tenant `b` still waits, no tenant `a` runs ahead
      of it by more than one round of its weight. A tenant without a quota, or without a positive weight
      in it, counts as one of weight 1. */
  lemma PrefixFairness(q: seq<QueuedWorkload>, quotas: map<string, TenantQuota>, k: nat, a: string, b: string)
    requires k <= |Fair(q, quotas)| && |Items(Fair(q, quotas)[..k], b)| < |Items(q, b)|
    ensures var wa := if a in quotas && quotas[a].weight > 0 then quotas[a].weight else 1;
            var wb := if b in quotas && quotas[b].weight > 0 then quotas[b].weight else 1;
            |Items(Fair(q, quotas)[..k], a)| * wb <= |Items(Fair(q, quotas)[..k], b)| * wa + wa * wb
  {
    WaitingMeansUnfinished(q, quotas, k, b);
    var r := Locate(q, quotas, k, |q|);
    NotAheadOfRound(q, quotas, k, r, a);
    NotBehindRound(q, quotas, k, r, b);
    ProportionalSlack(ServedInPrefix(q, quotas, k, a), ServedInPrefix(q, quotas, k, b), r,
                      Weight(quotas, a), Weight(quotas, b));
  }

  // ---------------------------------------------------------------- the rounds, read off the output

  /** Tenant `a` first appears in the queue before tenant `b` does. */
  ghost predicate AppearsBefore(q: seq<QueuedWorkload>, a: string, b: string) {
    exists p | 0 <= p < |q| :: q[p].tenant == a && forall m | 0 <= m <= p :: q[m].tenant != b
  }

  /** Tenants follow one another in order of first appearance in the queue. */
  ghost predicate TenantsInOrder(q: seq<QueuedWorkload>, block: seq<QueuedWorkload>) {
    forall i, j | 0 <= i < j < |block| && block[i].tenant != block[j].tenant ::
      AppearsBefore(q, block[i].tenant, block[j].tenant)
  }

  /** From `lo` to `hi` the tenant gets as many places as its weight, or as many as it has left. */
  ghost predicate GetsShare(quotas: map<string, TenantQuota>, out: seq<QueuedWorkload>, lo: nat, hi: nat, t: string)
    requires lo <= hi <= |out|
  {
    var weight := if t in quotas && quotas[t].weight > 0 then quotas[t].weight else 1;
    var left := |Items(out[lo..], t)|;
    |Items(out[lo..hi], t)| == if weight < left then weight else left
  }

  /** One round: every tenant gets its share, in order of first appearance. */
  ghost predicate ServesOnce(
      q: seq<QueuedWorkload>, quotas: map<string, TenantQuota>, out: seq<QueuedWorkload>, lo: nat, hi: nat)
  {
    && lo <= hi <= |out|
    && TenantsInOrder(q, out[lo..hi])
    && forall t :: GetsShare(quotas, out, lo, hi, t)
  }

  /** The output falls into rounds, cut at these places. */
  ghost predicate InRounds(
      q: seq<QueuedWorkload>, quotas: map<string, TenantQuota>, out: seq<QueuedWorkload>, cuts: seq<nat>)
  {
    && |cuts| > 0 && cuts[0] == 0 && cuts[|cuts| - 1] == |out|
    && forall r | 0 <= r < |cuts| - 1 :: ServesOnce(q, quotas, out, cuts[r], cuts[r + 1])
  }

  lemma {:induction false} ListedAppears(q: seq<QueuedWorkload>, t: string)
    ensures t in TenantOrder(q) <==> exists p | 0 <= p < |q| :: q[p].tenant == t
  {
    if q != [] {
      ListedAppears(q[..|q| - 1], t);
    }
  }

  lemma {:induction false} OrderAppears(q: seq<QueuedWorkload>, i: nat, j: nat)
    requires i < j < |TenantOrder(q)|
    ensures AppearsBefore(q, TenantOrder(q)[i], TenantOrder(q)[j])
  {
    var n := |q| - 1;
    var init, a, b := q[..n], TenantOrder(q)[i], TenantOrder(q)[j];
    if j < |TenantOrder(init)| {
      OrderAppears(init, i, j);
      var p :| 0 <= p < |init| && init[p].tenant == a && forall m | 0 <= m <= p :: init[m].tenant != b;
      assert q[p].tenant == a && forall m | 0 <= m <= p :: q[m].tenant == init[m].tenant;
    } else {
      ListedAppears(init, a);
      ListedAppears(init, b);
      var p :| 0 <= p < |init| && init[p].tenant == a;
      assert q[p].tenant == a && forall m | 0 <= m <= p :: q[m].tenant == init[m].tenant;
    }
  }

  lemma ShareOwn(q: seq<QueuedWorkload>, quotas: map<string, TenantQuota>, t: string, r: nat)
    ensures forall w | w in Share(q, quotas, t, r) :: w.tenant == t
  {
    ItemsMembers(q, t);
    assert forall w | w in Share(q, quotas, t, r) :: w in Items(q, t);
  }

  lemma {:induction false} RoundOwn(
      q: seq<QueuedWorkload>, quotas: map<string, TenantQuota>, tenants: seq<string>, r: nat)
    ensures forall w | w in Round(q, quotas, tenants, r) :: w.tenant in tenants
  {
    if tenants != [] {
      var n := |tenants| - 1;
      RoundOwn(q, quotas, tenants[..n], r);
      ShareOwn(q, quotas, tenants[n], r);
    }
  }

  lemma InOrderWith(q: seq<QueuedWorkload>, before: seq<QueuedWorkload>, share: seq<QueuedWorkload>, t: string)
    requires TenantsInOrder(q, before) && forall w | w in share :: w.tenant == t
    requires forall i | 0 <= i < |before| :: AppearsBefore(q, before[i].tenant, t)
    ensures TenantsInOrder(q, before + share)
  {
    var block := before + share;
    forall i, j | 0 <= i < j < |block| && block[i].tenant != block[j].tenant
      ensures AppearsBefore(q, block[i].tenant, block[j].tenant)
    {
      if j < |before| {
        assert AppearsBefore(q, before[i].tenant, before[j].tenant);
      } else if i < |before| {
        assert block[j] in share;
      }
    }
  }

  lemma {:induction false} RoundInOrder(q: seq<QueuedWorkload>, quotas: map<string, TenantQuota>, n: nat, r: nat)
    requires n <= |TenantOrder(q)|
    ensures TenantsInOrder(q, Round(q, quotas, TenantOrder(q)[..n], r))
  {
    if n > 0 {
      var tenants := TenantOrder(q);
      var before, share := Round(q, quotas, tenants[..n - 1], r), Share(q, quotas, tenants[n - 1], r);
      assert tenants[..n][..n - 1] == tenants[..n - 1];
      RoundInOrder(q, quotas, n - 1, r);
      RoundOwn(q, quotas, tenants[..n - 1], r);
      ShareOwn(q, quotas, tenants[n - 1], r);
      forall i | 0 <= i < |before| ensures AppearsBefore(q, before[i].tenant, tenants[n - 1]) {
        assert before[i] in before;
        var k := IndexOf(tenants[..n - 1], before[i].tenant);
        OrderAppears(q, k, n - 1);
      }
      InOrderWith(q, before, share, tenants[n - 1]);
    }
  }

  lemma ItemsFromCut(q: seq<QueuedWorkload>, quotas: map<string, TenantQuota>, r: nat, t: string)
    requires Served(q, quotas, r) <= Fair(q, quotas)
    ensures |Items(Fair(q, quotas)[|Served(q, quotas, r)|..], t)| == |Items(q, t)| - ServedTo(q, quotas, t, r)
  {
    var out, done := Fair(q, quotas), Served(q, quotas, r);
    assert out == done + out[|done|..];
    ItemsConcat(done, out[|done|..], t);
    ServedItems(q, quotas, r, t);
    FairKeepsTenantOrder(q, quotas, t);
  }

  lemma ServedThenRound(q: seq<QueuedWorkload>, quotas: map<string, TenantQuota>, r: nat)
    requires Served(q, quotas, r + 1) <= Fair(q, quotas)
    ensures |Served(q, quotas, r)| <= |Served(q, quotas, r + 1)| && Served(q, quotas, r) <= Fair(q, quotas)
    ensures Fair(q, quotas)[|Served(q, quotas, r)|..|Served(q, quotas, r + 1)|] == FullRound(q, quotas, r)
  {
  }

  lemma RoundShares(
      q: seq<QueuedWorkload>, quotas: map<string, TenantQuota>, out: seq<QueuedWorkload>, lo: nat, hi: nat, r: nat,
      t: string)
    requires lo <= hi <= |out| && out[lo..hi] == FullRound(q, quotas, r)
    requires |Items(out[lo..], t)| == |Items(q, t)| - ServedTo(q, quotas, t, r)
    ensures GetsShare(quotas, out, lo, hi, t)
  {
    FullRoundItems(q, quotas, r, t);
  }

  lemma RoundServesOnce(q: seq<QueuedWorkload>, quotas: map<string, TenantQuota>, r: nat)
    requires Served(q, quotas, r + 1) <= Fair(q, quotas)
    ensures ServesOnce(q, quotas, Fair(q, quotas), |Served(q, quotas, r)|, |Served(q, quotas, r + 1)|)
  {
    var out, lo, hi := Fair(q, quotas), |Served(q, quotas, r)|, |Served(q, quotas, r + 1)|;
    ServedThenRound(q, quotas, r);
    FullRoundInOrder(q, quotas, r);
    forall t ensures GetsShare(quotas, out, lo, hi, t) {
      ItemsFromCut(q, quotas, r, t);
      RoundShares(q, quotas, out, lo, hi, r, t);
    }
  }

  lemma FullRoundInOrder(q: seq<QueuedWorkload>, quotas: map<string, TenantQuota>, r: nat)
    ensures TenantsInOrder(q, FullRound(q, quotas, r))
  {
    assert TenantOrder(q)[..|TenantOrder(q)|] == TenantOrder(q);
    RoundInOrder(q, quotas, |TenantOrder(q)|, r);
  }

  function Cuts(q: seq<QueuedWorkload>, quotas: map<string, TenantQuota>, rounds: nat): (cuts: seq<nat>)
    ensures |cuts| == rounds + 1 && forall r | 0 <= r <= rounds :: cuts[r] == |Served(q, quotas, r)|
  {
    seq(rounds + 1, r requires 0 <= r <= rounds => |Served(q, quotas, r)|)
  }

  lemma CutServes(q: seq<QueuedWorkload>, quotas: map<string, TenantQuota>, r: nat)
    requires r < |q|
    ensures ServesOnce(q, quotas, Fair(q, quotas), |Served(q, quotas, r)|, |Served(q, quotas, r + 1)|)
  {
    ServedGrows(q, quotas, r + 1, |q|);
    RoundServesOnce(q, quotas, r);
  }

  lemma FairInRounds(q: seq<QueuedWorkload>, quotas: map<string, TenantQuota>)
    ensures InRounds(q, quotas, Fair(q, quotas), Cuts(q, quotas, |q|))
  {
    var cuts, out := Cuts(q, quotas, |q|), Fair(q, quotas);
    assert cuts[0] == 0 && cuts[|q|] == |out|;
    forall r | 0 <= r < |q| ensures ServesOnce(q, quotas, out, cuts[r], cuts[r + 1]) {
      CutServes(q, quotas, r);
    }
  }

  // ---------------------------------------------------------------- which determine it

  lemma AppearsOneWay(q: seq<QueuedWorkload>, a: string, b: string)
    requires AppearsBefore(q, a, b)
    ensures !AppearsBefore(q, b, a)
  {
    var p :| 0 <= p < |q| && q[p].tenant == a && forall m | 0 <= m <= p :: q[m].tenant != b;
    forall r | 0 <= r < |q| && q[r].tenant == b ensures !(forall m | 0 <= m <= r :: q[m].tenant != a) {
      assert p <= r;
    }
  }

  lemma OccursIn(x: seq<QueuedWorkload>, t: string) returns (i: nat)
    requires Items(x, t) != []
    ensures i < |x| && x[i].tenant == t
  {
    ItemsMembers(x, t);
    ItemsCount(x, Items(x, t)[0]);
    var w := Items(x, t)[0];
    assert w in Items(x, t) && w in multiset(x);
    i := IndexOf(x, w);
  }

  lemma SameFirstTenant(q: seq<QueuedWorkload>, x: seq<QueuedWorkload>, y: seq<QueuedWorkload>)
    requires x != [] && y != [] && TenantsInOrder(q, x) && TenantsInOrder(q, y)
    requires forall t :: Items(x, t) == Items(y, t)
    ensures x[0].tenant == y[0].tenant
  {
    var a, b := x[0].tenant, y[0].tenant;
    if a != b {
      assert Items(y, a) == Items(x, a) && Items(x, b) == Items(y, b);
      var i := OccursIn(y, a);
      var j := OccursIn(x, b);
      assert AppearsBefore(q, y[0].tenant, y[i].tenant);
      assert AppearsBefore(q, x[0].tenant, x[j].tenant);
      AppearsOneWay(q, a, b);
    }
  }

  lemma SameHeads(x: seq<QueuedWorkload>, y: seq<QueuedWorkload>, t: string)
    requires x != [] && y != [] && x[0].tenant == y[0].tenant && Items(x, t) == Items(y, t)
    ensures Items(x[1..], t) == Items(y[1..], t)
    ensures x[0].tenant == t ==> x[0] == y[0]
  {
    if x[0].tenant == t {
      assert Items(x, t)[0] == x[0] && Items(x, t)[1..] == Items(x[1..], t);
      assert Items(y, t)[0] == y[0] && Items(y, t)[1..] == Items(y[1..], t);
    }
  }

  /** What each tenant gets and the order of the tenants determine a round. */
  lemma {:induction false} BlockDetermined(q: seq<QueuedWorkload>, x: seq<QueuedWorkload>, y: seq<QueuedWorkload>)
    requires TenantsInOrder(q, x) && TenantsInOrder(q, y) && forall t :: Items(x, t) == Items(y, t)
    ensures x == y
    decreases |x|
  {
    SameItemsSameMultiset(x, y);
    if x != [] {
      SameFirstTenant(q, x, y);
      SameHeads(x, y, x[0].tenant);
      forall t ensures Items(x[1..], t) == Items(y[1..], t) {
        SameHeads(x, y, t);
      }
      BlockDetermined(q, x[1..], y[1..]);
      assert x == [x[0]] + x[1..] && y == [y[0]] + y[1..];
    }
  }

  lemma BlockItems(
      q: seq<QueuedWorkload>, quotas: map<string, TenantQuota>, done: seq<QueuedWorkload>, block: seq<QueuedWorkload>,
      rest: seq<QueuedWorkload>, r: nat, t: string)
    requires done == Served(q, quotas, r) && Items(done + (block + rest), t) == Items(q, t)
    requires var weight := if t in quotas && quotas[t].weight > 0 then quotas[t].weight else 1;
             var left := |Items(block + rest, t)|;
             |Items(block, t)| == if weight < left then weight else left
    ensures Items(block, t) == Items(FullRound(q, quotas, r), t)
  {
    ItemsConcat(done, block + rest, t);
    ItemsConcat(block, rest, t);
    ServedItems(q, quotas, r, t);
    FullRoundItems(q, quotas, r, t);
    NextShare(Items(q, t), Items(block, t), Items(rest, t), Weight(quotas, t), r);
  }

  lemma NextShare(
      mine: seq<QueuedWorkload>, block: seq<QueuedWorkload>, rest: seq<QueuedWorkload>, w: nat, r: nat)
    requires w >= 1 && mine == mine[..Cut(|mine|, w, r)] + (block + rest)
    requires |block| == if w < |block| + |rest| then w else |block| + |rest|
    ensures Cut(|mine|, w, r) <= Cut(|mine|, w, r + 1)
    ensures block == mine[Cut(|mine|, w, r)..Cut(|mine|, w, r + 1)]
  {
    var cut := Cut(|mine|, w, r);
    assert Cut(|mine|, w, r + 1) == cut + |block|;
    assert mine[cut..] == block + rest;
    assert mine[cut..][..|block|] == block;
  }

  lemma BlockIsRound(
      q: seq<QueuedWorkload>, quotas: map<string, TenantQuota>, out: seq<QueuedWorkload>, r: nat, hi: nat)
    requires Served(q, quotas, r) <= out && ServesOnce(q, quotas, out, |Served(q, quotas, r)|, hi)
    requires forall t :: Items(out, t) == Items(q, t)
    ensures out[..hi] == Served(q, quotas, r + 1)
  {
    var done := Served(q, quotas, r);
    var lo := |done|;
    var block, rest := out[lo..hi], out[hi..];
    assert out == done + (block + rest) && out[lo..] == block + rest;
    forall t ensures Items(block, t) == Items(FullRound(q, quotas, r), t) {
      assert GetsShare(quotas, out, lo, hi, t);
      BlockItems(q, quotas, done, block, rest, r, t);
    }
    FullRoundInOrder(q, quotas, r);
    BlockDetermined(q, block, FullRound(q, quotas, r));
    assert out[..hi] == done + block;
  }

  lemma {:induction false} RoundsUpTo(
      q: seq<QueuedWorkload>, quotas: map<string, TenantQuota>, out: seq<QueuedWorkload>, cuts: seq<nat>, r: nat)
    requires InRounds(q, quotas, out, cuts) && (forall t :: Items(out, t) == Items(q, t)) && r < |cuts|
    ensures cuts[r] <= |out| && out[..cuts[r]] == Served(q, quotas, r)
  {
    if r == 0 {
      assert out[..0] == [];
    } else {
      RoundsUpTo(q, quotas, out, cuts, r - 1);
      assert ServesOnce(q, quotas, out, cuts[r - 1], cuts[r]);
      assert |Served(q, quotas, r - 1)| == cuts[r - 1];
      BlockIsRound(q, quotas, out, r - 1, cuts[r]);
    }
  }

  /** There is one output that keeps every tenant's order and falls into such rounds. */
  lemma RoundsDetermine(
      q: seq<QueuedWorkload>, quotas: map<string, TenantQuota>, out: seq<QueuedWorkload>, cuts: seq<nat>)
    requires InRounds(q, quotas, out, cuts) && forall t :: Items(out, t) == Items(q, t)
    ensures out == Fair(q, quotas)
  {
    RoundsUpTo(q, quotas, out, cuts, |cuts| - 1);
    assert out[..|out|] == out;
    SameItemsSameMultiset(out, q);
    ServedAllIsFair(q, quotas, |cuts| - 1);
  }

  // ---------------------------------------------------------------- the loop

  /** No number of rounds serves more than there is. */
  lemma ServedBounded(q: seq<QueuedWorkload>, quotas: map<string, TenantQuota>, r: nat)
    ensures |Served(q, quotas, r)| <= |q|
  {
    FairPermutes(q, quotas);
    if r <= |q| {
      ServedGrows(q, quotas, r, |q|);
    } else {
      forall t ensures Items(Served(q, quotas, r), t) == Items(q, t) {
        ServedItems(q, quotas, r, t);
        CutFacts(|Items(q, t)|, Weight(quotas, t), r);
      }
      SameItemsSameMultiset(Served(q, quotas, r), q);
    }
  }

  lemma ServedAllIsFair(q: seq<QueuedWorkload>, quotas: map<string, TenantQuota>, r: nat)
    requires |Served(q, quotas, r)| == |q|
    ensures Served(q, quotas, r) == Fair(q, quotas)
  {
    FairPermutes(q, quotas);
    if r <= |q| {
      ServedGrows(q, quotas, r, |q|);
    } else {
      ServedGrows(q, quotas, |q|, r);
    }
  }

  lemma {:induction false} EmptyRoundShares(
      q: seq<QueuedWorkload>, quotas: map<string, TenantQuota>, tenants: seq<string>, r: nat, t: string)
    requires t in tenants && Round(q, quotas, tenants, r) == []
    ensures Share(q, quotas, t, r) == []
  {
    var n := |tenants| - 1;
    if t != tenants[n] {
      EmptyRoundShares(q, quotas, tenants[..n], r, t);
    }
  }

  /** A round that serves nobody can only follow a complete output. */
  lemma EmptyRoundMeansDone(q: seq<QueuedWorkload>, quotas: map<string, TenantQuota>, r: nat)
    requires FullRound(q, quotas, r) == []
    ensures Served(q, quotas, r) == Fair(q, quotas)
  {
    forall t ensures Items(Served(q, quotas, r), t) == Items(q, t) {
      ServedItems(q, quotas, r, t);
      if t in TenantOrder(q) {
        EmptyRoundShares(q, quotas, TenantOrder(q), r, t);
        CutFacts(|Items(q, t)|, Weight(quotas, t), r);
      } else {
        ListedIffQueued(q, t);
      }
    }
    SameItemsSameMultiset(Served(q, quotas, r), q);
    ServedAllIsFair(q, quotas, r);
  }

  /** What a tenant still has queued after `rounds` rounds. */
  function Waiting(
      q: seq<QueuedWorkload>, quotas: map<string, TenantQuota>, t: string, rounds: nat): seq<QueuedWorkload>
  {
    Items(q, t)[ServedTo(q, quotas, t, rounds)..]
  }

  /** Serving one tenant takes its share and leaves the rest waiting. */
  lemma ServeTenant(q: seq<QueuedWorkload>, quotas: map<string, TenantQuota>, t: string, r: nat, take: nat)
    requires take == if Weight(quotas, t) > |Waiting(q, quotas, t, r)|
      then |Waiting(q, quotas, t, r)| else Weight(quotas, t)
    ensures Waiting(q, quotas, t, r)[..take] == Share(q, quotas, t, r)
    ensures Waiting(q, quotas, t, r)[take..] == Waiting(q, quotas, t, r + 1)
  {
    CutFacts(|Items(q, t)|, Weight(quotas, t), r);
  }

  /** The queues in the middle of round `r`, when the first `j` tenants have been served. */
  ghost predicate InRound(
      q: seq<QueuedWorkload>, quotas: map<string, TenantQuota>, items: map<string, seq<QueuedWorkload>>,
      order: seq<string>, r: nat, j: nat)
  {
    forall i | 0 <= i < |order| ::
      order[i] in items && items[order[i]] == Waiting(q, quotas, order[i], if i < j then r + 1 else r)
  }

  lemma InRoundNext(
      q: seq<QueuedWorkload>, quotas: map<string, TenantQuota>, items: map<string, seq<QueuedWorkload>>,
      order: seq<string>, r: nat, j: nat)
    requires Distinct(order) && j < |order| && InRound(q, quotas, items, order, r, j)
    ensures InRound(q, quotas, items[order[j] := Waiting(q, quotas, order[j], r + 1)], order, r, j + 1)
  {
  }

  /** One turn of the inner loop. */
  lemma TenantServed(
      q: seq<QueuedWorkload>, quotas: map<string, TenantQuota>, items: map<string, seq<QueuedWorkload>>,
      order: seq<string>, r: nat, j: nat, take: nat)
    requires Distinct(order) && j < |order| && InRound(q, quotas, items, order, r, j)
    requires take == if Weight(quotas, order[j]) > |items[order[j]]|
      then |items[order[j]]| else Weight(quotas, order[j])
    ensures Round(q, quotas, order[..j + 1], r) == Round(q, quotas, order[..j], r) + items[order[j]][..take]
    ensures InRound(q, quotas, items[order[j] := items[order[j]][take..]], order, r, j + 1)
  {
    assert order[..j + 1] == order[..j] + [order[j]];
    RoundSnoc(q, quotas, order[..j], order[j], r);
    ServeTenant(q, quotas, order[j], r, take);
    InRoundNext(q, quotas, items, order, r, j);
  }

  lemma NothingToServe(
      q: seq<QueuedWorkload>, quotas: map<string, TenantQuota>, items: map<string, seq<QueuedWorkload>>,
      order: seq<string>, r: nat, j: nat)
    requires Distinct(order) && j < |order| && InRound(q, quotas, items, order, r, j) && items[order[j]] == []
    ensures Round(q, quotas, order[..j + 1], r) == Round(q, quotas, order[..j], r)
    ensures InRound(q, quotas, items, order, r, j + 1)
  {
    TenantServed(q, quotas, items, order, r, j, 0);
    assert items[order[j] := items[order[j]][0..]] == items;
    assert Round(q, quotas, order[..j], r) + items[order[j]][..0] == Round(q, quotas, order[..j], r);
  }

  /** The queue `q`, split by tenant. */
  ghost predicate Split(
      q: seq<QueuedWorkload>, quotas: map<string, TenantQuota>, order: seq<string>,
      items: map<string, seq<QueuedWorkload>>, weights: map<string, nat>)
  {
    && order == TenantOrder(q)
    && (forall t :: t in items <==> t in order)
    && (forall t | t in order ::
          t in weights && weights[t] == if t in quotas && quotas[t].weight > 0 then quotas[t].weight else 1)
    && (forall t | t in order :: items[t] == Items(q, t))
  }

  lemma AllItemsSnoc(q: seq<QueuedWorkload>, w: QueuedWorkload)
    ensures forall t :: Items(q + [w], t) == if w.tenant == t then Items(q, t) + [w] else Items(q, t)
  {
    forall t ensures Items(q + [w], t) == if w.tenant == t then Items(q, t) + [w] else Items(q, t) {
      ItemsSnoc(q, w, t);
    }
  }

  lemma SplitOld(
      q: seq<QueuedWorkload>, quotas: map<string, TenantQuota>, order: seq<string>,
      items: map<string, seq<QueuedWorkload>>, weights: map<string, nat>, w: QueuedWorkload)
    requires Split(q, quotas, order, items, weights) && w.tenant in items
    ensures Split(q + [w], quotas, order, items[w.tenant := items[w.tenant] + [w]], weights)
  {
    OrderSnoc(q, w);
    AllItemsSnoc(q, w);
  }

  lemma SplitNew(
      q: seq<QueuedWorkload>, quotas: map<string, TenantQuota>, order: seq<string>,
      items: map<string, seq<QueuedWorkload>>, weights: map<string, nat>, w: QueuedWorkload)
    requires Split(q, quotas, order, items, weights) && w.tenant !in items
    ensures Split(q + [w], quotas, order + [w.tenant], items[w.tenant := [w]],
                  weights[w.tenant := Weight(quotas, w.tenant)])
  {
    OrderSnoc(q, w);
    ListedIffQueued(q, w.tenant);
    AllItemsSnoc(q, w);
  }

  /** Splits the queue by tenant, remembering first appearances. */
  method SplitByTenant(queued: seq<QueuedWorkload>, quotas: map<string, TenantQuota>)
    returns (order: seq<string>, items: map<string, seq<QueuedWorkload>>, weights: map<string, nat>)
    ensures Split(queued, quotas, order, items, weights)
  {
    order, items, weights := [], map[], map[];
    for i := 0 to |queued|
      invariant Split(queued[..i], quotas, order, items, weights)
    {
      var w := queued[i];
      assert queued[..i + 1] == queued[..i] + [w];
      if w.tenant in items {
        SplitOld(queued[..i], quotas, order, items, weights, w);
      } else {
        SplitNew(queued[..i], quotas, order, items, weights, w);
        var weight := 1;
        if w.tenant in quotas && quotas[w.tenant].weight > 0 {
          weight := quotas[w.tenant].weight;
        }
        order := order + [w.tenant];
        items := items[w.tenant := []];
        weights := weights[w.tenant := weight];
      }
      items := items[w.tenant := items[w.tenant] + [w]];
    }
    assert queued[..|queued|] == queued;
  }

  /** One pass over the tenants. */
  method ServeRound(
      queued: seq<QueuedWorkload>, quotas: map<string, TenantQuota>, order: seq<string>, weights: map<string, nat>,
      items: map<string, seq<QueuedWorkload>>, ghost r: nat)
    returns (served: seq<QueuedWorkload>, items': map<string, seq<QueuedWorkload>>, progress: bool)
    requires Distinct(order) && InRound(queued, quotas, items, order, r, 0)
    requires forall t | t in order :: t in weights && weights[t] == Weight(quotas, t)
    ensures served == Round(queued, quotas, order, r)
    ensures InRound(queued, quotas, items', order, r + 1, 0)
    ensures progress <==> served != []
  {
    served, items', progress := [], items, false;
    for j := 0 to |order|
      invariant served == Round(queued, quotas, order[..j], r)
      invariant InRound(queued, quotas, items', order, r, j)
      invariant progress <==> served != []
    {
      var t := order[j];
      if |items'[t]| == 0 {
        NothingToServe(queued, quotas, items', order, r, j);
        continue;
      }
      var take := weights[t];
      if take > |items'[t]| {
        take := |items'[t]|;
      }
      TenantServed(queued, quotas, items', order, r, j, take);
      served := served + items'[t][..take];
      items' := items'[t := items'[t][take..]];
      progress := true;
    }
    assert order[..|order|] == order;
  }

  /** Tenant `a` is ahead of tenant `b` by at most one round, each counted by its weight. */
  predicate AtMostOneRoundAhead(
      quotas: map<string, TenantQuota>, prefix: seq<QueuedWorkload>, a: string, b: string)
  {
    var wa := if a in quotas && quotas[a].weight > 0 then quotas[a].weight else 1;
    var wb := if b in quotas && quotas[b].weight > 0 then quotas[b].weight else 1;
    |Items(prefix, a)| * wb <= |Items(prefix, b)| * wa + wa * wb
  }

  /** In every prefix of `out`, while tenant `b` waits no tenant is ahead of it by more than one round. */
  ghost predicate Proportional(
      q: seq<QueuedWorkload>, quotas: map<string, TenantQuota>, out: seq<QueuedWorkload>)
  {
    forall k, a, b | 0 <= k <= |out| && |Items(out[..k], b)| < |Items(q, b)| ::
      AtMostOneRoundAhead(quotas, out[..k], a, b)
  }

  lemma FairIsProportional(q: seq<QueuedWorkload>, quotas: map<string, TenantQuota>)
    ensures Proportional(q, quotas, Fair(q, quotas))
  {
    var out := Fair(q, quotas);
    forall k, a, b | 0 <= k <= |out| && |Items(out[..k], b)| < |Items(q, b)|
      ensures AtMostOneRoundAhead(quotas, out[..k], a, b)
    {
      PrefixFairness(q, quotas, k, a, b);
    }
  }

  lemma FairIsFair(q: seq<QueuedWorkload>, quotas: map<string, TenantQuota>)
    ensures forall t :: Items(Fair(q, quotas), t) == Items(q, t)
    ensures exists cuts :: InRounds(q, quotas, Fair(q, quotas), cuts)
    ensures Proportional(q, quotas, Fair(q, quotas))
  {
    FairInRounds(q, quotas);
    FairIsProportional(q, quotas);
    forall t ensures Items(Fair(q, quotas), t) == Items(q, t) {
      FairKeepsTenantOrder(q, quotas, t);
    }
  }

  method WeightedRoundRobinByTenant(queued: seq<QueuedWorkload>, quotas: map<string, TenantQuota>)
    returns (out: seq<QueuedWorkload>)
    ensures out == Fair(queued, quotas)
    ensures forall t :: Items(out, t) == Items(queued, t)
    ensures exists cuts :: InRounds(queued, quotas, out, cuts)
    ensures Proportional(queued, quotas, out)
  {
    if |queued| == 0 {
      FairIsFair(queued, quotas);
      return [];
    }
    var order, items, weights := SplitByTenant(queued, quotas);
    TenantOrderDistinct(queued);
    out := [];
    var remaining := |queued|;
    ghost var r := 0;
    while remaining > 0
      invariant out == Served(queued, quotas, r) && remaining == |queued| - |out|
      invariant InRound(queued, quotas, items, order, r, 0)
      decreases remaining
    {
      var served: seq<QueuedWorkload>;
      var progress: bool;
      served, items, progress := ServeRound(queued, quotas, order, weights, items, r);
      out := out + served;
      remaining := remaining - |served|;
      if !progress {
        EmptyRoundMeansDone(queued, quotas, r);
        FairIsFair(queued, quotas);
        return;
      }
      r := r + 1;
    }
    ServedBounded(queued, quotas, r);
    ServedAllIsFair(queued, quotas, r);
    FairIsFair(queued, quotas);
  }
}
