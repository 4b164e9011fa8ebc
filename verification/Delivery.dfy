/** Whether what the scheduler admits can be delivered: the capacity it reads, aggregated from the pools'
    reported status (internal/controller/scheduler_loop.go), against what the simulator will allocate for
    an admission (internal/controller/gpuworkload_controller.go, internal/sim/contract.go). */
module Delivery {
  import opened Sequences
  import opened Workloads
  import opened Checks
  import opened Inputs
  import opened DeviceNames
  import opened AcceleratorSim
  import opened Accounting
  import opened Capacity

  // ---------------------------------------------------------------- what the scheduler reads

  /** The simulator's pools are built from these specifications. */
  ghost predicate Specified(s: Sim, specs: map<string, PoolSpec>) {
    && specs.Keys == s.pools.Keys
    && forall k | k in specs :: k in s.pools && SpecOk(specs[k]) && s.pools[k] == BuiltNodes(specs[k], k)
  }

  /** A pool with its usage as the simulator counts it. */
  ghost function Report(s: Sim, specs: map<string, PoolSpec>, k: string): Pool
    requires k in s.pools && k in specs
  {
    Pool(specs[k].profile, specs[k].memoryMiBPerDevice, |DeviceIDs(s.pools[k])| - AllocatedFrom(s, k))
  }

  ghost function Reports(s: Sim, specs: map<string, PoolSpec>, order: seq<string>): seq<Pool>
    requires forall k | k in order :: k in s.pools && k in specs
  {
    if order == [] then [] else [Report(s, specs, order[0])] + Reports(s, specs, order[1..])
  }

  // ---------------------------------------------------------------- what the simulator can allocate

  /** Every device of the pool meets the request: the simulator compares profiles letter by letter. */
  predicate Usable(spec: PoolSpec, profile: string, memMiB: int) {
    spec.profile == profile && spec.memoryMiBPerDevice >= memMiB
  }

  lemma {:induction false} DeviceOf(nodes: seq<Node>, id: string) returns (n: Node, d: Device)
    requires id in DeviceIDs(nodes)
    ensures n in nodes && d in n.devices && d.id == id
  {
    if id in NodeDeviceIDs(nodes[0]) {
      var j := IndexOf(NodeDeviceIDs(nodes[0]), id);
      n, d := nodes[0], nodes[0].devices[j];
    } else {
      n, d := DeviceOf(nodes[1..], id);
    }
  }

  lemma BuiltAlike(spec: PoolSpec, k: string, n: Node, d: Device)
    requires SpecOk(spec) && n in BuiltNodes(spec, k) && d in n.devices
    ensures d.memoryMiB == spec.memoryMiBPerDevice && d.profile == spec.profile
  {
    var i := IndexOf(BuiltNodes(spec, k), n);
    var j := IndexOf(n.devices, d);
    assert d == BuiltDevice(spec, k, i, j);
  }

  lemma BuiltOffersIff(spec: PoolSpec, k: string, id: string, used: set<string>, memMiB: int, profile: string)
    requires SpecOk(spec) && profile != ""
    ensures Offers(BuiltNodes(spec, k), id, used, memMiB, AdmissionOptions(profile))
       <==> id in DeviceIDs(BuiltNodes(spec, k)) && id !in used && Usable(spec, profile, memMiB)
  {
    var nodes, opts := BuiltNodes(spec, k), AdmissionOptions(profile);
    if Offers(nodes, id, used, memMiB, opts) {
      OffersIsRegistered(nodes, id, used, memMiB, opts);
      var n :| n in nodes && HasEligible(n.devices, id, used, memMiB, opts);
      var d :| d in n.devices && d.id == id && Eligible(d, used, memMiB, opts);
      BuiltAlike(spec, k, n, d);
    }
    if id in DeviceIDs(nodes) && id !in used && Usable(spec, profile, memMiB) {
      var n, d := DeviceOf(nodes, id);
      BuiltAlike(spec, k, n, d);
      assert Eligible(d, used, memMiB, opts);
      assert HasEligible(n.devices, id, used, memMiB, opts);
    }
  }

  /** The free devices of the usable ones among these pools. */
  ghost function UsableFree(s: Sim, specs: map<string, PoolSpec>, keys: seq<string>, profile: string, memMiB: int)
    : set<string>
    requires forall k | k in keys :: k in s.pools && k in specs
  {
    set k, id | k in keys && Usable(specs[k], profile, memMiB) && id in Free(s, k) :: id
  }

  lemma EligibleIsUsable(s: Sim, specs: map<string, PoolSpec>, order: seq<string>, profile: string, memMiB: int)
    requires Specified(s, specs) && Visits(s.pools, order) && profile != ""
    ensures EligibleSet(s, memMiB, AdmissionOptions(profile)) == UsableFree(s, specs, order, profile, memMiB)
  {
    var opts, used := AdmissionOptions(profile), UsedDevices(s);
    forall k, id | k in order
      ensures Offers(s.pools[k], id, used, memMiB, opts)
         <==> id in DeviceIDs(s.pools[k]) && id !in used && Usable(specs[k], profile, memMiB)
    {
      BuiltOffersIff(specs[k], k, id, used, memMiB, profile);
    }
    forall id ensures id in EligibleSet(s, memMiB, opts) <==> id in UsableFree(s, specs, order, profile, memMiB) {
      EligibleIff(s, memMiB, opts, id);
      if id in EligibleSet(s, memMiB, opts) {
        var k :| k in s.pools && id in DeviceIDs(s.pools[k]) && Offers(s.pools[k], id, used, memMiB, opts);
        assert k in order && id in Free(s, k);
      }
      if id in UsableFree(s, specs, order, profile, memMiB) {
        var k :| k in order && Usable(specs[k], profile, memMiB) && id in Free(s, k);
        assert k in s.pools && id in DeviceIDs(s.pools[k]) && Offers(s.pools[k], id, used, memMiB, opts);
      }
    }
  }

  /** How many free devices a pool has for the request. */
  ghost function FreeFor(s: Sim, specs: map<string, PoolSpec>, profile: string, memMiB: int): string -> int {
    (k: string) => if k in s.pools && k in specs && Usable(specs[k], profile, memMiB) then |Free(s, k)| else 0
  }

  lemma UsableSplit(s: Sim, specs: map<string, PoolSpec>, order: seq<string>, profile: string, memMiB: int)
    requires Valid(s) && Distinct(order) && order != [] && forall k | k in order :: k in s.pools && k in specs
    ensures |UsableFree(s, specs, order, profile, memMiB)|
         == FreeFor(s, specs, profile, memMiB)(order[0]) + |UsableFree(s, specs, order[1..], profile, memMiB)|
  {
    var k := order[0];
    var all, rest := UsableFree(s, specs, order, profile, memMiB), UsableFree(s, specs, order[1..], profile, memMiB);
    var here := if Usable(specs[k], profile, memMiB) then Free(s, k) else {};
    forall id ensures id in all <==> id in here || id in rest {
      if id in all {
        var a :| a in order && Usable(specs[a], profile, memMiB) && id in Free(s, a);
        assert a == k || a in order[1..];
      }
    }
    assert all == here + rest;
    forall id | id in here ensures id !in rest {
      if a :| a in order[1..] && Usable(specs[a], profile, memMiB) && id in Free(s, a) {
        SamePool(s.pools, k, a, id);
      }
    }
    assert here !! rest;
  }

  lemma {:induction false} UsableCount(
      s: Sim, specs: map<string, PoolSpec>, order: seq<string>, profile: string, memMiB: int)
    requires Valid(s) && Distinct(order) && forall k | k in order :: k in s.pools && k in specs
    ensures |UsableFree(s, specs, order, profile, memMiB)| == SumBy(order, FreeFor(s, specs, profile, memMiB))
  {
    if order == [] {
      assert UsableFree(s, specs, order, profile, memMiB) == {};
    } else {
      UsableSplit(s, specs, order, profile, memMiB);
      UsableCount(s, specs, order[1..], profile, memMiB);
    }
  }

  /** An admission is delivered exactly if the pools of its very profile, with devices large enough, have as
      many devices free as it asks for. */
  lemma DeliveredIff(
      s: Sim, specs: map<string, PoolSpec>, order: seq<string>, w: QueuedWorkload, r: AllocationResult)
    requires Valid(s) && Specified(s, specs) && Visits(s.pools, order) && w.profile != ""
    requires Placed(s, w.gpuCount, w.gpuMemoryMiB, AdmissionOptions(w.profile), r)
    ensures r.Allocated? <==> SumBy(order, FreeFor(s, specs, w.profile, w.gpuMemoryMiB)) >= w.gpuCount
  {
    AllocationSucceedsIff(s, w.gpuCount, w.gpuMemoryMiB, AdmissionOptions(w.profile), r);
    EligibleIsUsable(s, specs, order, w.profile, w.gpuMemoryMiB);
    UsableCount(s, specs, order, w.profile, w.gpuMemoryMiB);
  }

  // ---------------------------------------------------------------- where the two agree

  /** The pools filed under the profile are spelled like it, and their devices have the same memory. */
  ghost predicate Uniform(specs: map<string, PoolSpec>, profile: string, memMiB: int) {
    forall k | k in specs && NormalizeProfile(specs[k].profile) == profile ::
      specs[k].profile == profile && specs[k].memoryMiBPerDevice == memMiB
  }

  /** Pool by pool the status shows the devices that are free. */
  ghost predicate Exact(s: Sim, specs: map<string, PoolSpec>) {
    forall k | k in s.pools && k in specs :: Report(s, specs, k).availableDevices == |Free(s, k)|
  }

  lemma {:induction false} ReportedCount(
      s: Sim, specs: map<string, PoolSpec>, order: seq<string>, profile: string, deviceMiB: int, memMiB: int)
    requires (forall k | k in order :: k in s.pools && k in specs) && Exact(s, specs)
    requires Uniform(specs, profile, deviceMiB) && NormalizeProfile(profile) == profile
    ensures SumBy(order, FreeFor(s, specs, profile, memMiB))
         == if deviceMiB >= memMiB then SumBy(PoolsOf(Reports(s, specs, order), profile), PoolDevices) else 0
    ensures forall p | p in PoolsOf(Reports(s, specs, order), profile) :: p.memoryMiBPerDevice == deviceMiB
  {
    if order != [] {
      ReportedCount(s, specs, order[1..], profile, deviceMiB, memMiB);
      var reports := Reports(s, specs, order);
      assert reports[0] == Report(s, specs, order[0]) && reports[1..] == Reports(s, specs, order[1..]);
      var rest := PoolsOf(reports[1..], profile);
      if NormalizeProfile(specs[order[0]].profile) == profile {
        assert PoolsOf(reports, profile) == [reports[0]] + rest;
        assert SumBy([reports[0]] + rest, PoolDevices) == PoolDevices(reports[0]) + SumBy(rest, PoolDevices);
      }
    }
  }

  lemma SameMemoryFirst(pools: seq<Pool>, memMiB: int)
    requires memMiB > 0 && pools != [] && forall p | p in pools :: p.memoryMiBPerDevice == memMiB
    ensures FirstMemory(pools) == memMiB
  {
    assert pools[0] in pools;
  }

  /** The scheduler's two capacity checks pass exactly if enough of the profile's free devices are large
      enough. */
  lemma ChecksRead(pools: seq<Pool>, fleet: FleetFreeCapacity, w: QueuedWorkload, deviceMiB: int)
    requires Aggregates(pools, fleet) && w.profile != "" && w.gpuCount > 0 && w.gpuMemoryMiB > 0 && deviceMiB > 0
    requires forall p | p in PoolsOf(pools, w.profile) :: p.memoryMiBPerDevice == deviceMiB
    ensures FitsGPUCount(w, fleet) == Ok(true) && FitsPerDeviceMemory(w, fleet) == Ok(true)
       <==> deviceMiB >= w.gpuMemoryMiB && SumBy(PoolsOf(pools, w.profile), PoolDevices) >= w.gpuCount
  {
    var mine := PoolsOf(pools, w.profile);
    LookupIsAggregated(pools, fleet.byProfile, w.profile);
    if mine != [] {
      SameMemoryFirst(mine, deviceMiB);
    }
  }

  /** On exact status, with one spelling and one device memory for the workload's profile, the scheduler's
      capacity checks pass exactly if the admission will be delivered. */
  lemma FitsIffDelivered(
      s: Sim, specs: map<string, PoolSpec>, order: seq<string>, fleet: FleetFreeCapacity, w: QueuedWorkload,
      deviceMiB: int, r: AllocationResult)
    requires Valid(s) && Grounded(s) && Separate(s.pools.Keys) && Specified(s, specs) && Visits(s.pools, order)
    requires Aggregates(Reports(s, specs, order), fleet) && Uniform(specs, w.profile, deviceMiB) && deviceMiB > 0
    requires NormalizeProfile(w.profile) == w.profile != "" && w.gpuCount > 0 && w.gpuMemoryMiB > 0
    requires Placed(s, w.gpuCount, w.gpuMemoryMiB, AdmissionOptions(w.profile), r)
    ensures r.Allocated? <==> FitsGPUCount(w, fleet) == Ok(true) && FitsPerDeviceMemory(w, fleet) == Ok(true)
  {
    assert Exact(s, specs) by {
      AccountingIsExact(s);
    }
    DeliveredIff(s, specs, order, w, r);
    ReportedCount(s, specs, order, w.profile, deviceMiB, w.gpuMemoryMiB);
    ChecksRead(Reports(s, specs, order), fleet, w, deviceMiB);
  }

  // ---------------------------------------------------------------- where they do not

  lemma OneReport(k: string, spelled: string)
    requires k != ""
    ensures var s, specs := Fleet(k, 1, 1, spelled), map[k := PoolSpec(1, 1, 1, "", spelled)];
            Valid(s) && Specified(s, specs) && Visits(s.pools, [k]) && Reports(s, specs, [k]) == [Pool(spelled, 1, 1)]
  {
    var s, spec := Fleet(k, 1, 1, spelled), PoolSpec(1, 1, 1, "", spelled);
    var specs := map[k := spec];
    assert SpecOk(spec) && s.pools[k] == BuiltNodes(spec, k);
    assert BuiltPool(s.pools[k], k);
    assert HeldFrom(s.allocations, k) == map[];
    var nodes := s.pools[k];
    assert DeviceIDs(nodes[1..]) == [] && |NodeDeviceIDs(nodes[0])| == 1;
    assert [k][1..] == [];
    assert Reports(s, specs, []) == [];
  }

  lemma NeverDelivered(s: Sim, specs: map<string, PoolSpec>, k: string, w: QueuedWorkload, r: AllocationResult)
    requires Valid(s) && Specified(s, specs) && Visits(s.pools, [k]) && w.profile != ""
    requires specs[k].profile != w.profile
    requires Placed(s, w.gpuCount, w.gpuMemoryMiB, AdmissionOptions(w.profile), r)
    ensures !r.Allocated?
  {
    DeliveredIff(s, specs, [k], w, r);
    assert SumBy([k][1..], FreeFor(s, specs, w.profile, w.gpuMemoryMiB)) == 0;
  }

  lemma OnePoolFits(pool: Pool, fleet: FleetFreeCapacity, w: QueuedWorkload)
    requires Aggregates([pool], fleet) && NormalizeProfile(pool.profile) == w.profile != ""
    requires 0 < w.gpuCount <= pool.availableDevices && 0 < w.gpuMemoryMiB <= pool.memoryMiBPerDevice
    ensures FitsGPUCount(w, fleet) == Ok(true) && FitsPerDeviceMemory(w, fleet) == Ok(true)
  {
    assert [pool][1..] == [];
    assert PoolsOf([pool], w.profile) == [pool] && SumBy([pool], PoolDevices) == pool.availableDevices by {
      assert SumBy([pool][1..], PoolDevices) == 0;
      assert PoolsOf([pool][1..], w.profile) == [];
    }
    ChecksRead([pool], fleet, w, pool.memoryMiBPerDevice);
  }

  /** A pool spelled otherwise than its normalized profile counts for the scheduler, but none of its devices
      is ever allocated for an admission. */
  lemma MisspelledPool(k: string, spelled: string, fleet: FleetFreeCapacity, w: QueuedWorkload, r: AllocationResult)
    requires k != "" && NormalizeProfile(spelled) == w.profile != "" && spelled != w.profile
    requires w.gpuCount == 1 && w.gpuMemoryMiB == 1 && Aggregates([Pool(spelled, 1, 1)], fleet)
    requires Placed(Fleet(k, 1, 1, spelled), 1, 1, AdmissionOptions(w.profile), r)
    ensures Reports(Fleet(k, 1, 1, spelled), map[k := PoolSpec(1, 1, 1, "", spelled)], [k]) == [Pool(spelled, 1, 1)]
    ensures FitsGPUCount(w, fleet) == Ok(true) && FitsPerDeviceMemory(w, fleet) == Ok(true) && !r.Allocated?
  {
    OneReport(k, spelled);
    NeverDelivered(Fleet(k, 1, 1, spelled), map[k := PoolSpec(1, 1, 1, "", spelled)], k, w, r);
    OnePoolFits(Pool(spelled, 1, 1), fleet, w);
  }
}
