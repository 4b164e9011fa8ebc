/** When an allocation succeeds, in terms of the devices registered and free, and what happens to the
    usage counts when a pool is taken away from under an allocation. */
module Capacity {
  import opened Sequences
  import opened DeviceNames
  import opened Placement
  import opened AcceleratorSim
  import opened Accounting

  /** The free devices of registered pools that meet the request. */
  ghost function EligibleSet(s: Sim, memMiB: int, opts: Options): set<string> {
    set k, id |
      k in s.pools && id in DeviceIDs(s.pools[k]) && id !in UsedDevices(s) && HasFitting(s.pools[k], id, memMiB, opts)
      :: id
  }

  lemma EligibleIff(s: Sim, memMiB: int, opts: Options, id: string)
    ensures id in EligibleSet(s, memMiB, opts) <==>
              exists k | k in s.pools ::
                id in DeviceIDs(s.pools[k]) && Offers(s.pools[k], id, UsedDevices(s), memMiB, opts)
  {
    forall k | k in s.pools
      ensures Offers(s.pools[k], id, UsedDevices(s), memMiB, opts)
         <==> id !in UsedDevices(s) && HasFitting(s.pools[k], id, memMiB, opts)
    {
      OffersIff(s.pools[k], id, UsedDevices(s), memMiB, opts);
    }
  }

  // ---------------------------------------------------------------- placement sees exactly those

  lemma {:induction false} EligibleListed(ds: seq<Device>, used: set<string>, memMiB: int, opts: Options, d: Device)
    requires d in ds && Eligible(d, used, memMiB, opts)
    ensures d.id in EligibleIDs(ds, used, memMiB, opts)
  {
    var n := |ds| - 1;
    if d != ds[n] {
      EligibleListed(ds[..n], used, memMiB, opts, d);
    }
  }

  lemma OfferedIsListed(nodes: seq<Node>, used: set<string>, memMiB: int, opts: Options, id: string)
    requires Offers(nodes, id, used, memMiB, opts)
    ensures id in Flatten(EligiblePerNode(nodes, used, memMiB, opts))
  {
    var n :| n in nodes && HasEligible(n.devices, id, used, memMiB, opts);
    var d :| d in n.devices && d.id == id && Eligible(d, used, memMiB, opts);
    var i := IndexOf(nodes, n);
    EligibleListed(n.devices, used, memMiB, opts, d);
    FlattenSplit(EligiblePerNode(nodes, used, memMiB, opts), i);
  }

  lemma {:induction false} OffersConcatenated(
      pools: map<string, seq<Node>>, order: seq<string>, k: string, id: string, used: set<string>, memMiB: int,
      opts: Options)
    requires (forall x | x in order :: x in pools) && k in order && Offers(pools[k], id, used, memMiB, opts)
    ensures Offers(Concatenated(pools, order), id, used, memMiB, opts)
  {
    if k == order[0] {
      var n :| n in pools[k] && HasEligible(n.devices, id, used, memMiB, opts);
      assert n in Concatenated(pools, order);
    } else {
      OffersConcatenated(pools, order[1..], k, id, used, memMiB, opts);
      var n :| n in Concatenated(pools, order[1..]) && HasEligible(n.devices, id, used, memMiB, opts);
      assert n in Concatenated(pools, order);
    }
  }

  /** What placement has to pick from. */
  ghost function Offered(s: Sim, memMiB: int, opts: Options, order: seq<string>): seq<string>
    requires Visits(s.pools, order)
  {
    Flatten(EligiblePerNode(Concatenated(s.pools, order), UsedDevices(s), memMiB, opts))
  }

  lemma OfferedIff(s: Sim, memMiB: int, opts: Options, order: seq<string>, id: string)
    requires Visits(s.pools, order)
    ensures id in Offered(s, memMiB, opts, order) <==> id in EligibleSet(s, memMiB, opts)
  {
    var nodes, used := Concatenated(s.pools, order), UsedDevices(s);
    EligibleIff(s, memMiB, opts, id);
    if id in Offered(s, memMiB, opts, order) {
      EligibleAcrossNodes(nodes, used, memMiB, opts);
      OffersInPool(s.pools, order, id, used, memMiB, opts);
      var k :| k in order && Offers(s.pools[k], id, used, memMiB, opts);
      OffersIsRegistered(s.pools[k], id, used, memMiB, opts);
    }
    if id in EligibleSet(s, memMiB, opts) {
      var k :| k in s.pools && id in DeviceIDs(s.pools[k]) && Offers(s.pools[k], id, used, memMiB, opts);
      OffersConcatenated(s.pools, order, k, id, used, memMiB, opts);
      OfferedIsListed(nodes, used, memMiB, opts, id);
    }
  }

  lemma OfferedDistinct(s: Sim, memMiB: int, opts: Options, order: seq<string>)
    requires PoolsBuilt(s.pools) && Visits(s.pools, order)
    ensures Distinct(Offered(s, memMiB, opts, order))
  {
    FleetDistinct(s.pools, order);
    EligibleAcrossNodes(Concatenated(s.pools, order), UsedDevices(s), memMiB, opts);
    DistinctPermuted(DeviceIDs(Concatenated(s.pools, order)), Offered(s, memMiB, opts, order));
  }

  /** In whatever order the pools are visited, placement has exactly the eligible devices to pick from. */
  lemma PlacementSees(s: Sim, memMiB: int, opts: Options, order: seq<string>)
    requires PoolsBuilt(s.pools) && Visits(s.pools, order)
    ensures |Offered(s, memMiB, opts, order)| == |EligibleSet(s, memMiB, opts)|
  {
    OfferedDistinct(s, memMiB, opts, order);
    DistinctSize(Offered(s, memMiB, opts, order));
    forall id ensures id in Offered(s, memMiB, opts, order) <==> id in EligibleSet(s, memMiB, opts) {
      OfferedIff(s, memMiB, opts, order, id);
    }
    assert (set id | id in Offered(s, memMiB, opts, order)) == EligibleSet(s, memMiB, opts);
  }

  /** Without a node limit or same-node demand the locked part of an allocation succeeds exactly if
      enough eligible devices are free, whatever the policy and the order of the pools. */
  lemma AllocationSucceedsIff(s: Sim, gpuCount: int, memMiB: int, opts: Options, r: AllocationResult)
    requires Valid(s) && Placed(s, gpuCount, memMiB, opts, r)
    requires !EffectivePolicy(opts).UnknownPolicy? && !opts.requireSameNode && opts.maxNodes == 0
    ensures r.Allocated? <==> |EligibleSet(s, memMiB, opts)| >= gpuCount
  {
    var order, picked :| PlacementAnswer(s, gpuCount, memMiB, opts, order, picked) && r == Verdict(picked, gpuCount);
    PlacementSees(s, memMiB, opts, order);
    var per := EligiblePerNode(Concatenated(s.pools, order), UsedDevices(s), memMiB, opts);
    PoliciesAcceptAlike(per, gpuCount, EffectivePolicy(opts), picked);
    PickIsSafe(per, gpuCount, EffectivePolicy(opts), false, 0, picked);
  }

  // ---------------------------------------------------------------- with a node limit

  /** The eligible devices node by node, the pools visited in this order. */
  ghost function PerNode(s: Sim, memMiB: int, opts: Options, order: seq<string>): seq<NodeDevices>
    requires Visits(s.pools, order)
  {
    EligiblePerNode(Concatenated(s.pools, order), UsedDevices(s), memMiB, opts)
  }

  lemma {:induction false} ConcatenatedSplit(pools: map<string, seq<Node>>, a: seq<string>, b: seq<string>)
    requires forall k | k in a + b :: k in pools
    ensures (forall k | k in a :: k in pools) && (forall k | k in b :: k in pools)
    ensures Concatenated(pools, a + b) == Concatenated(pools, a) + Concatenated(pools, b)
  {
    assert forall k | k in a || k in b :: k in a + b;
    if a == [] {
      assert a + b == b;
    } else {
      assert (a + b)[1..] == a[1..] + b && (a + b)[0] == a[0];
      ConcatenatedSplit(pools, a[1..], b);
    }
  }

  lemma {:induction false} ConcatenatedPermuted(pools: map<string, seq<Node>>, a: seq<string>, b: seq<string>)
    requires Distinct(a) && Distinct(b) && (forall k :: k in a <==> k in b) && forall k | k in a :: k in pools
    ensures multiset(Concatenated(pools, a)) == multiset(Concatenated(pools, b))
  {
    FirstIsMember(b);
    if a != [] {
      var i := IndexOf(b, a[0]);
      var rest := b[..i] + b[i + 1..];
      assert b == b[..i] + ([b[i]] + b[i + 1..]);
      assert forall k | k in rest :: k in b;
      ConcatenatedSplit(pools, b[..i], [b[i]] + b[i + 1..]);
      ConcatenatedSplit(pools, [b[i]], b[i + 1..]);
      ConcatenatedSplit(pools, b[..i], b[i + 1..]);
      assert Concatenated(pools, [b[i]]) == pools[a[0]] by {
        assert [b[i]][1..] == [];
      }
      RestAlike(a, b, i);
      ConcatenatedPermuted(pools, a[1..], rest);
    }
  }

  lemma RestAlike(a: seq<string>, b: seq<string>, i: nat)
    requires Distinct(a) && Distinct(b) && (forall k :: k in a <==> k in b) && |a| > 0 && i < |b| && b[i] == a[0]
    ensures var rest := b[..i] + b[i + 1..]; Distinct(rest) && forall k :: k in a[1..] <==> k in rest
  {
    var rest := b[..i] + b[i + 1..];
    forall k ensures k in a[1..] <==> k in rest {
      if k in a[1..] {
        assert k in b && k != a[0];
        var j := IndexOf(b, k);
        assert rest[if j < i then j else j - 1] == k;
      }
      if k in rest {
        var j := IndexOf(rest, k);
        assert k == b[if j < i then j else j + 1];
        assert k in a && k != a[0];
      }
    }
  }

  lemma PerNodePermuted(a: seq<Node>, b: seq<Node>, used: set<string>, memMiB: int, opts: Options)
    requires multiset(a) == multiset(b)
    ensures multiset(EligiblePerNode(a, used, memMiB, opts)) == multiset(EligiblePerNode(b, used, memMiB, opts))
  {
    var eligible := (n: Node) => NodeDevices(n.id, EligibleIDs(n.devices, used, memMiB, opts));
    ImagesPermuted(
      a, b, eligible, EligiblePerNode(a, used, memMiB, opts), EligiblePerNode(b, used, memMiB, opts));
  }

  /** The order of the pools only permutes the nodes. */
  lemma OrderPermutes(s: Sim, memMiB: int, opts: Options, a: seq<string>, b: seq<string>)
    requires Visits(s.pools, a) && Visits(s.pools, b)
    ensures multiset(PerNode(s, memMiB, opts, a)) == multiset(PerNode(s, memMiB, opts, b))
  {
    ConcatenatedPermuted(s.pools, a, b);
    PerNodePermuted(Concatenated(s.pools, a), Concatenated(s.pools, b), UsedDevices(s), memMiB, opts);
  }

  lemma HoldablePermuted(a: seq<NodeDevices>, b: seq<NodeDevices>, need: int, k: nat)
    requires multiset(a) == multiset(b)
    ensures |a| == |b| && (Holdable(a, need, k) <==> Holdable(b, need, k))
  {
    assert |multiset(a)| == |a| && |multiset(b)| == |b|;
    if t :| Holds(a, t, need, k) {
      assert Holds(b, t, need, k);
    }
    if t :| Holds(b, t, need, k) {
      assert Holds(a, t, need, k);
    }
  }

  /** Some nodes, no more than the limit, hold enough eligible devices; in whatever order they are listed. */
  ghost predicate FleetHolds(s: Sim, gpuCount: int, memMiB: int, opts: Options, order: seq<string>)
    requires Visits(s.pools, order)
  {
    var per := PerNode(s, memMiB, opts, order);
    Holdable(per, gpuCount, Allowed(|per|, opts.maxNodes))
  }

  /** With pack or locality-aware placement the locked part of an allocation succeeds exactly if some nodes
      within the limit hold enough eligible devices. */
  lemma LimitedAllocationSucceedsIff(
      s: Sim, gpuCount: int, memMiB: int, opts: Options, r: AllocationResult, order: seq<string>)
    requires Valid(s) && Placed(s, gpuCount, memMiB, opts, r) && Visits(s.pools, order)
    requires EffectivePolicy(opts) in {Pack, LocalityAware} && !opts.requireSameNode
    ensures r.Allocated? <==> FleetHolds(s, gpuCount, memMiB, opts, order)
  {
    var visited, picked :|
      PlacementAnswer(s, gpuCount, memMiB, opts, visited, picked) && r == Verdict(picked, gpuCount);
    var per := PerNode(s, memMiB, opts, visited);
    OfferedDistinct(s, memMiB, opts, visited);
    PackAndLocalityOptimal(per, gpuCount, EffectivePolicy(opts), opts.maxNodes, picked, []);
    PickIsSafe(per, gpuCount, EffectivePolicy(opts), false, opts.maxNodes, picked);
    OrderPermutes(s, memMiB, opts, visited, order);
    HoldablePermuted(per, PerNode(s, memMiB, opts, order), gpuCount, Allowed(|per|, opts.maxNodes));
  }

  /** On one node it succeeds exactly if some node alone has enough eligible devices, whatever the policy. */
  lemma SameNodeAllocationSucceedsIff(
      s: Sim, gpuCount: int, memMiB: int, opts: Options, r: AllocationResult, order: seq<string>)
    requires Placed(s, gpuCount, memMiB, opts, r) && Visits(s.pools, order) && opts.requireSameNode
    ensures r.Allocated? <==> OneNodeServes(PerNode(s, memMiB, opts, order), gpuCount)
  {
    var visited, picked :|
      PlacementAnswer(s, gpuCount, memMiB, opts, visited, picked) && r == Verdict(picked, gpuCount);
    var per, per' := PerNode(s, memMiB, opts, visited), PerNode(s, memMiB, opts, order);
    SameNodeSucceedsIff(per, gpuCount, EffectivePolicy(opts), opts.maxNodes, picked);
    OrderPermutes(s, memMiB, opts, visited, order);
    if i :| 0 <= i < |per| && |per[i].deviceIDs| >= gpuCount {
      assert per[i] in multiset(per');
      var j := IndexOf(per', per[i]);
      assert |per'[j].deviceIDs| >= gpuCount;
    }
    if i :| 0 <= i < |per'| && |per'[i].deviceIDs| >= gpuCount {
      assert per'[i] in multiset(per);
      var j := IndexOf(per, per'[i]);
      assert |per[j].deviceIDs| >= gpuCount;
    }
  }

  // ---------------------------------------------------------------- an allocation that succeeds

  lemma {:induction false} SomeOrder(keys: set<string>) returns (order: seq<string>)
    ensures Distinct(order) && forall k :: k in order <==> k in keys
    decreases |keys|
  {
    if keys == {} {
      order := [];
    } else {
      var k :| k in keys;
      var rest := SomeOrder(keys - {k});
      order := [k] + rest;
    }
  }

  /** First fit on any of the options above. */
  ghost predicate PlainOptions(opts: Options) {
    opts.policy == FirstFit && !opts.requireSameNode && opts.maxNodes == 0
  }

  /** With enough eligible devices there is something to reserve. */
  lemma CanAllocate(s: Sim, gpuCount: int, memMiB: int, opts: Options) returns (ids: seq<string>)
    requires Valid(s) && gpuCount > 0 && PlainOptions(opts) && |EligibleSet(s, memMiB, opts)| >= gpuCount
    ensures Reservable(s, gpuCount, memMiB, opts, ids) && Placed(s, gpuCount, memMiB, opts, Allocated(ids))
  {
    var order := SomeOrder(s.pools.Keys);
    assert Visits(s.pools, order);
    var per := EligiblePerNode(Concatenated(s.pools, order), UsedDevices(s), memMiB, opts);
    ids := UpTo(Flatten(Kept(per, 0)), gpuCount);
    assert PlacementAnswer(s, gpuCount, memMiB, opts, order, Devices(ids));
    assert Placed(s, gpuCount, memMiB, opts, Verdict(Devices(ids), gpuCount));
    AllocationSucceedsIff(s, gpuCount, memMiB, opts, Verdict(Devices(ids), gpuCount));
  }

  lemma PlacedIsReservable(s: Sim, gpuCount: int, memMiB: int, opts: Options, ids: seq<string>)
    requires Placed(s, gpuCount, memMiB, opts, Allocated(ids))
    ensures Reservable(s, gpuCount, memMiB, opts, ids)
  {
    var order, picked :|
      PlacementAnswer(s, gpuCount, memMiB, opts, order, picked) && Allocated(ids) == Verdict(picked, gpuCount);
    assert picked == Devices(ids);
    PickIsSafe(EligiblePerNode(Concatenated(s.pools, order), UsedDevices(s), memMiB, opts), gpuCount,
               EffectivePolicy(opts), opts.requireSameNode, opts.maxNodes, picked);
  }

  // ---------------------------------------------------------------- one pool, no other allocations

  /** A single pool of `n` devices on one node, with nothing allocated. */
  function Fleet(k: string, n: int, memMiB: int, profile: string): Sim
    requires n > 0 && memMiB > 0
  {
    Sim(map[k := BuiltNodes(PoolSpec(1, n, memMiB, "", profile), k)], map[], map[], 0)
  }

  lemma {:induction false} DeviceNumbers(k: string, n: nat)
    requires k != ""
    ensures |set j: nat | j < n :: DeviceID(k, 0, j)| == n
  {
    if n > 0 {
      DeviceNumbers(k, n - 1);
      var all, rest := set j: nat | j < n :: DeviceID(k, 0, j), set j: nat | j < n - 1 :: DeviceID(k, 0, j);
      assert all == rest + {DeviceID(k, 0, n - 1)};
      if DeviceID(k, 0, n - 1) in rest {
        var j: nat :| j < n - 1 && DeviceID(k, 0, n - 1) == DeviceID(k, 0, j);
        DeviceIDInjective(k, 0, n - 1, k, 0, j);
      }
    }
  }

  lemma BuiltOffers(spec: PoolSpec, k: string, j: nat, used: set<string>, memMiB: int, opts: Options)
    requires SpecOk(spec) && spec.nodeCount == 1 && j < spec.devicesPerNode
    requires memMiB <= spec.memoryMiBPerDevice && opts.preferredDeviceType == "" &&
      opts.preferredProfile == spec.profile
    requires DeviceID(k, 0, j) !in used
    ensures Offers(BuiltNodes(spec, k), DeviceID(k, 0, j), used, memMiB, opts)
  {
    var n := BuiltNodes(spec, k)[0];
    var d := n.devices[j];
    assert d == BuiltDevice(spec, k, 0, j) && d in n.devices;
    assert HasEligible(n.devices, d.id, used, memMiB, opts);
    assert n in BuiltNodes(spec, k);
  }

  /** Whatever is used, the rest of the pool is eligible. */
  lemma RestIsEligible(s: Sim, k: string, n: int, memMiB: int, opts: Options)
    requires n > 0 && memMiB > 0 && k != "" && opts.preferredDeviceType == ""
    requires s.pools == Fleet(k, n, memMiB, opts.preferredProfile).pools
    ensures |EligibleSet(s, memMiB, opts)| >= n - |UsedDevices(s)|
  {
    var spec := PoolSpec(1, n, memMiB, "", opts.preferredProfile);
    var all := set j: nat | j < n :: DeviceID(k, 0, j);
    DeviceNumbers(k, n);
    forall id | id in all && id !in UsedDevices(s) ensures id in EligibleSet(s, memMiB, opts) {
      var j: nat :| j < n && id == DeviceID(k, 0, j);
      BuiltOffers(spec, k, j, UsedDevices(s), memMiB, opts);
      DeviceBuilt(spec, k, 0, j);
      assert k in s.pools;
      EligibleIff(s, memMiB, opts, id);
    }
    Exceeds(all, UsedDevices(s), EligibleSet(s, memMiB, opts));
  }

  lemma Exceeds(all: set<string>, used: set<string>, eligible: set<string>)
    requires all - used <= eligible
    ensures |eligible| >= |all| - |used|
  {
    assert all == (all - used) + (all * used);
    Smaller(all * used, used);
    Smaller(all - used, eligible);
  }

  lemma Smaller(a: set<string>, b: set<string>)
    requires a <= b
    ensures |a| <= |b|
  {
    assert b == a + (b - a);
  }

  // ---------------------------------------------------------------- taking a pool away

  const PLAIN: Options := Options(FirstFit, false, 0, "", "")

  lemma FleetIsValid(k: string, n: int)
    requires n > 0 && k != ""
    ensures Valid(Fleet(k, n, 1, "")) && UsedDevices(Fleet(k, n, 1, "")) == {}
    ensures Step(EMPTY, Register(k, PoolSpec(1, n, 1, "", "")), Fleet(k, n, 1, ""))
  {
    var s, spec := Fleet(k, n, 1, ""), PoolSpec(1, n, 1, "", "");
    assert SpecOk(spec) && s.pools[k] == BuiltNodes(spec, k);
    assert BuiltPool(s.pools[k], k);
  }

  lemma ThreeSteps(a: Op, b: Op, c: Op, s1: Sim, s2: Sim, s3: Sim)
    requires Step(EMPTY, a, s1) && Step(s1, b, s2) && Step(s2, c, s3)
    ensures IsTrace([EMPTY, s1, s2, s3], [a, b, c])
  {
  }

  /** All `n` devices of the fleet can be allocated at once. */
  lemma AllocateAll(k: string, n: int) returns (s: Sim)
    requires n > 0 && k != ""
    ensures Step(Fleet(k, n, 1, ""), Allocate("w", n, 1, PLAIN), s)
    ensures s.pools == Fleet(k, n, 1, "").pools && s.allocations.Keys == {"w"} && |s.allocations["w"]| == n
  {
    FleetIsValid(k, n);
    RestIsEligible(Fleet(k, n, 1, ""), k, n, 1, PLAIN);
    var ids := CanAllocate(Fleet(k, n, 1, ""), n, 1, PLAIN);
    s := Reserve(Fleet(k, n, 1, ""), "w", ids);
  }

  /** Register `n` devices, allocate them all, then do one more thing. */
  lemma AllTaken(k: string, n: int, op: Op, last: Sim -> Sim) returns (states: seq<Sim>, ops: seq<Op>)
    requires n > 0 && k != "" && forall s :: Step(s, op, last(s))
    ensures IsTrace(states, ops) && |states| == 4
    ensures ops == [Register(k, PoolSpec(1, n, 1, "", "")), Allocate("w", n, 1, PLAIN), op]
    ensures states[3] == last(states[2]) && states[2].pools == Fleet(k, n, 1, "").pools
    ensures states[2].allocations.Keys == {"w"} && |states[2].allocations["w"]| == n
  {
    FleetIsValid(k, n);
    var s := AllocateAll(k, n);
    ops := [Register(k, PoolSpec(1, n, 1, "", "")), Allocate("w", n, 1, PLAIN), op];
    states := [EMPTY, Fleet(k, n, 1, ""), s, last(s)];
    ThreeSteps(ops[0], ops[1], op, states[1], s, last(s));
  }

  function DeletePool(s: Sim, k: string): Sim { s.(pools := s.pools - {k}) }

  lemma HeldByOne(s: Sim)
    requires s.allocations.Keys == {"w"}
    ensures MapSum(Held(s.allocations)) == |s.allocations["w"]|
  {
    HeldSplit(s.allocations, "w");
    assert s.allocations - {"w"} == map[];
    assert Held(map[]) == map[];
  }

  /** Register, allocate, delete: the fleet still counts an allocation that no pool counts. */
  lemma DeleteBreaksCounts(k: string) returns (states: seq<Sim>, ops: seq<Op>)
    requires k != ""
    ensures IsTrace(states, ops) && |states| == 4
    ensures ops[2] == Delete(k) && !SumsAgree(states[3])
  {
    states, ops := AllTaken(k, 1, Delete(k), s => DeletePool(s, k));
    var s := states[3];
    HeldByOne(s);
    assert s.pools == map[];
    assert PerPool(s.pools.Keys, s.allocations) == map[];
  }

  function Shrink(s: Sim, k: string): Sim {
    s.(pools := s.pools[k := BuiltNodes(PoolSpec(1, 1, 1, "", ""), k)])
  }

  /** Register two devices, allocate both, register one: the pool reports minus one available. */
  lemma ShrinkGoesNegative(k: string) returns (states: seq<Sim>, ops: seq<Op>)
    requires WellFormedKey(k)
    ensures IsTrace(states, ops) && |states| == 4 && k in states[3].pools
    ensures |DeviceIDs(states[3].pools[k])| - AllocatedFrom(states[3], k) == -1
  {
    WellFormedNotEmpty(k);
    states, ops := AllTaken(k, 2, Register(k, PoolSpec(1, 1, 1, "", "")), s => Shrink(s, k));
    var s := states[3];
    WellFormedSeparate({k});
    TraceCovered(states, ops, 3, {k});
    TraceStaysValid(states, ops, 3);
    AllocatedIsUsed(s, {k}, k);
    UsedByOne(s, k);
    OneDevice(k);
  }

  lemma UsedByOne(s: Sim, k: string)
    requires Valid(s) && Covers({k}, s) && s.allocations.Keys == {"w"}
    ensures |UsedOf(s, k)| == |s.allocations["w"]|
  {
    DistinctSize(s.allocations["w"]);
    forall id ensures id in UsedOf(s, k) <==> id in s.allocations["w"] {
      if id in s.allocations["w"] {
        assert id in UsedDevices(s);
        assert NamedIn(id, k);
      }
      if id in UsedDevices(s) {
        var w :| w in s.allocations && id in s.allocations[w];
        assert w in s.allocations.Keys;
      }
    }
    assert UsedOf(s, k) == set id | id in s.allocations["w"];
  }

  lemma OneDevice(k: string)
    ensures |DeviceIDs(BuiltNodes(PoolSpec(1, 1, 1, "", ""), k))| == 1
  {
    var nodes := BuiltNodes(PoolSpec(1, 1, 1, "", ""), k);
    assert DeviceIDs(nodes[1..]) == [];
    assert |NodeDeviceIDs(nodes[0])| == 1;
  }
}
