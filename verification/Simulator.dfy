/** The accelerator simulator (internal/sim/state.go, internal/sim/contract.go): pools of devices,
    allocations, and runs. `Sim` is its state as a value, `Step` what each operation may do to it, and
    `Simulator` the mutable object whose methods take those steps. */
module AcceleratorSim {
  import opened Sequences
  import opened DeviceNames
  import opened Placement

  datatype Device = Device(id: string, memoryMiB: int, deviceType: string, profile: string)

  datatype Node = Node(id: string, devices: seq<Device>)

  datatype PoolSpec = PoolSpec(
    nodeCount: int, devicesPerNode: int, memoryMiBPerDevice: int, deviceType: string, profile: string)

  datatype Status = RunRunning | RunSucceeded | RunFailed | RunPreempted

  datatype Run = Run(workloadID: string, startedAt: int, endsAt: int, status: Status)

  /** An empty policy name selects first fit. */
  datatype Options = Options(
    policy: Policy, requireSameNode: bool, maxNodes: int, preferredDeviceType: string, preferredProfile: string)

  datatype Sim = Sim(
    pools: map<string, seq<Node>>, allocations: map<string, seq<string>>, runs: map<string, Run>, nextRunID: nat)

  // ---------------------------------------------------------------- pools

  predicate SpecOk(spec: PoolSpec) {
    spec.nodeCount > 0 && spec.devicesPerNode > 0 && spec.memoryMiBPerDevice > 0
  }

  function BuiltDevice(spec: PoolSpec, k: string, i: nat, j: nat): Device {
    Device(DeviceID(k, i, j), spec.memoryMiBPerDevice, spec.deviceType, spec.profile)
  }

  function BuiltNode(spec: PoolSpec, k: string, i: nat): Node
    requires SpecOk(spec)
  {
    Node(NodeID(k, i), seq(spec.devicesPerNode, j requires 0 <= j < spec.devicesPerNode => BuiltDevice(spec, k, i, j)))
  }

  function BuiltNodes(spec: PoolSpec, k: string): (nodes: seq<Node>)
    requires SpecOk(spec)
    ensures |nodes| == spec.nodeCount
    ensures forall i | 0 <= i < spec.nodeCount :: nodes[i] == BuiltNode(spec, k, i)
  {
    seq(spec.nodeCount, i requires 0 <= i < spec.nodeCount => BuiltNode(spec, k, i))
  }

  method BuildNodesWithPoolKey(spec: PoolSpec, poolKey: string) returns (r: Option<seq<Node>>)
    ensures r.None? <==> !SpecOk(spec)
    ensures r.Some? ==> r.value == BuiltNodes(spec, poolKey)
    ensures r.None? <==> spec.nodeCount <= 0 || spec.devicesPerNode <= 0 || spec.memoryMiBPerDevice <= 0
    ensures r.Some? ==>
              && |r.value| == spec.nodeCount
              && forall i | 0 <= i < |r.value| ::
                   && r.value[i].id
                      == (if poolKey in {"", "_default"} then "" else poolKey + "/") + ("node-" + Decimal(i))
                   && |r.value[i].devices| == spec.devicesPerNode
                   && forall j | 0 <= j < |r.value[i].devices| ::
                        var d := r.value[i].devices[j];
                        && d.id == r.value[i].id + "/" + ("gpu-" + Decimal(j)) && d.memoryMiB == spec.memoryMiBPerDevice
                        && d.deviceType == spec.deviceType && d.profile == spec.profile
  {
    if spec.nodeCount <= 0 || spec.devicesPerNode <= 0 || spec.memoryMiBPerDevice <= 0 {
      return None;
    }
    var prefix := "";
    if poolKey != "" && poolKey != DEFAULT_POOL_KEY {
      prefix := poolKey + "/";
    }
    var nodes := new Node[spec.nodeCount];
    for i := 0 to spec.nodeCount
      invariant forall k | 0 <= k < i :: nodes[k] == BuiltNode(spec, poolKey, k)
    {
      var nodeID := prefix + NodeName(i);
      var devices := new Device[spec.devicesPerNode];
      for j := 0 to spec.devicesPerNode
        invariant forall k | 0 <= k < j :: devices[k] == BuiltDevice(spec, poolKey, i, k)
        invariant forall k | 0 <= k < i :: nodes[k] == BuiltNode(spec, poolKey, k)
      {
        devices[j] := Device(nodeID + "/" + GpuName(j), spec.memoryMiBPerDevice, spec.deviceType, spec.profile);
      }
      assert devices[..] == BuiltNode(spec, poolKey, i).devices;
      nodes[i] := Node(nodeID, devices[..]);
    }
    assert nodes[..] == BuiltNodes(spec, poolKey);
    return Some(nodes[..]);
  }

  function NodeDeviceIDs(n: Node): (ids: seq<string>)
    ensures |ids| == |n.devices| && forall j | 0 <= j < |ids| :: ids[j] == n.devices[j].id
  {
    seq(|n.devices|, j requires 0 <= j < |n.devices| => n.devices[j].id)
  }

  /** Every device of a list of nodes. */
  function DeviceIDs(nodes: seq<Node>): seq<string> {
    if nodes == [] then [] else NodeDeviceIDs(nodes[0]) + DeviceIDs(nodes[1..])
  }

  lemma {:induction false} DeviceIDsConcat(a: seq<Node>, b: seq<Node>)
    ensures DeviceIDs(a + b) == DeviceIDs(a) + DeviceIDs(b)
  {
    if a == [] {
      assert a + b == b;
    } else {
      assert (a + b)[1..] == a[1..] + b;
      DeviceIDsConcat(a[1..], b);
    }
  }

  /** All pools one after the other, in the order in which the map happens to be visited. */
  function Concatenated(pools: map<string, seq<Node>>, order: seq<string>): seq<Node>
    requires forall k | k in order :: k in pools
  {
    if order == [] then [] else pools[order[0]] + Concatenated(pools, order[1..])
  }

  ghost predicate Visits(pools: map<string, seq<Node>>, order: seq<string>) {
    Distinct(order) && forall k :: k in order <==> k in pools
  }

  // ---------------------------------------------------------------- no two devices share an identifier

  /** Every pool is what RegisterFleet builds for its key. */
  ghost predicate PoolsBuilt(pools: map<string, seq<Node>>) {
    forall k | k in pools :: k != "" && BuiltPool(pools[k], k)
  }

  ghost predicate BuiltPool(nodes: seq<Node>, k: string) {
    exists spec | SpecOk(spec) :: nodes == BuiltNodes(spec, k)
  }

  /** `id` is a device of pool `k`, on a node numbered below `n`. */
  ghost predicate Named(id: string, k: string, n: nat) {
    exists i: nat, j: nat :: i < n && id == DeviceID(k, i, j)
  }

  lemma NodeIDsNamed(spec: PoolSpec, k: string, i: nat)
    requires SpecOk(spec) && i < spec.nodeCount && k != ""
    ensures Distinct(NodeDeviceIDs(BuiltNodes(spec, k)[i]))
    ensures forall id | id in NodeDeviceIDs(BuiltNodes(spec, k)[i]) :: exists j: nat :: id == DeviceID(k, i, j)
  {
    var ids := NodeDeviceIDs(BuiltNodes(spec, k)[i]);
    assert forall j | 0 <= j < |ids| :: ids[j] == DeviceID(k, i, j);
    forall a, b | 0 <= a < b < |ids| ensures ids[a] != ids[b] {
      if ids[a] == ids[b] {
        DeviceIDInjective(k, i, a, k, i, b);
      }
    }
  }

  lemma DistinctConcat(a: seq<string>, b: seq<string>)
    requires Distinct(a) && Distinct(b) && forall id | id in a :: id !in b
    ensures Distinct(a + b)
  {
    forall i, j | 0 <= i < j < |a + b| ensures (a + b)[i] != (a + b)[j] {
      if i < |a| <= j {
        assert (a + b)[i] in a && (a + b)[j] in b;
      }
    }
  }

  lemma {:induction false} PoolDistinct(spec: PoolSpec, k: string, n: nat)
    requires SpecOk(spec) && k != "" && n <= spec.nodeCount
    ensures Distinct(DeviceIDs(BuiltNodes(spec, k)[..n]))
    ensures forall id | id in DeviceIDs(BuiltNodes(spec, k)[..n]) :: Named(id, k, n)
  {
    if n > 0 {
      var nodes := BuiltNodes(spec, k);
      PoolDistinct(spec, k, n - 1);
      NodeIDsNamed(spec, k, n - 1);
      var before, last := DeviceIDs(nodes[..n - 1]), NodeDeviceIDs(nodes[n - 1]);
      assert nodes[..n] == nodes[..n - 1] + [nodes[n - 1]];
      DeviceIDsConcat(nodes[..n - 1], [nodes[n - 1]]);
      assert DeviceIDs([nodes[n - 1]][1..]) == [];
      assert DeviceIDs([nodes[n - 1]]) == last;
      forall id | id in before ensures id !in last && Named(id, k, n) {
        var i: nat, j: nat :| i < n - 1 && id == DeviceID(k, i, j);
        if id in last {
          var j': nat :| id == DeviceID(k, n - 1, j');
          DeviceIDInjective(k, i, j, k, n - 1, j');
        }
      }
      DistinctConcat(before, last);
    }
  }

  ghost predicate NamedIn(id: string, k: string) {
    exists i: nat, j: nat :: id == DeviceID(k, i, j)
  }

  lemma BuiltPoolDistinct(nodes: seq<Node>, k: string)
    requires k != "" && BuiltPool(nodes, k)
    ensures Distinct(DeviceIDs(nodes))
    ensures forall id | id in DeviceIDs(nodes) :: NamedIn(id, k)
  {
    var spec :| SpecOk(spec) && nodes == BuiltNodes(spec, k);
    PoolDistinct(spec, k, spec.nodeCount);
    assert nodes[..spec.nodeCount] == nodes;
    forall id | id in DeviceIDs(nodes) ensures NamedIn(id, k) {
      assert Named(id, k, spec.nodeCount);
    }
  }

  lemma {:induction false} FleetDistinct(pools: map<string, seq<Node>>, order: seq<string>)
    requires PoolsBuilt(pools) && Distinct(order) && forall k | k in order :: k in pools
    ensures Distinct(DeviceIDs(Concatenated(pools, order)))
    ensures forall id | id in DeviceIDs(Concatenated(pools, order)) ::
      exists k | k in order :: id in DeviceIDs(pools[k])
  {
    if order != [] {
      var k := order[0];
      var rest := Concatenated(pools, order[1..]);
      FleetDistinct(pools, order[1..]);
      BuiltPoolDistinct(pools[k], k);
      DeviceIDsConcat(pools[k], rest);
      forall id | id in DeviceIDs(pools[k]) ensures id !in DeviceIDs(rest) {
        if id in DeviceIDs(rest) {
          var k' :| k' in order[1..] && id in DeviceIDs(pools[k']);
          SamePool(pools, k, k', id);
        }
      }
      DistinctConcat(DeviceIDs(pools[k]), DeviceIDs(rest));
    }
  }

  /** A device belongs to one pool only. */
  lemma SamePool(pools: map<string, seq<Node>>, k: string, k': string, id: string)
    requires PoolsBuilt(pools) && k in pools && k' in pools
    requires id in DeviceIDs(pools[k]) && id in DeviceIDs(pools[k'])
    ensures k == k'
  {
    BuiltPoolDistinct(pools[k], k);
    BuiltPoolDistinct(pools[k'], k');
    assert NamedIn(id, k) && NamedIn(id, k');
    var i: nat, j: nat :| id == DeviceID(k, i, j);
    var i': nat, j': nat :| id == DeviceID(k', i', j');
    DeviceIDInjective(k, i, j, k', i', j');
  }

  // ---------------------------------------------------------------- eligibility

  /** Free, large enough, and of the preferred type and profile where one is preferred. */
  predicate Eligible(d: Device, used: set<string>, memMiB: int, opts: Options) {
    && d.id !in used
    && d.memoryMiB >= memMiB
    && (opts.preferredDeviceType != "" ==> d.deviceType == opts.preferredDeviceType)
    && (opts.preferredProfile != "" ==> d.profile == opts.preferredProfile)
  }

  function EligibleIDs(ds: seq<Device>, used: set<string>, memMiB: int, opts: Options): seq<string> {
    if ds == [] then []
    else
      var before, d := EligibleIDs(ds[..|ds| - 1], used, memMiB, opts), ds[|ds| - 1];
      if Eligible(d, used, memMiB, opts) then before + [d.id] else before
  }

  function EligiblePerNode(nodes: seq<Node>, used: set<string>, memMiB: int, opts: Options): (r: seq<NodeDevices>)
    ensures |r| == |nodes|
    ensures forall i | 0 <= i < |nodes| ::
      r[i] == NodeDevices(nodes[i].id, EligibleIDs(nodes[i].devices, used, memMiB, opts))
  {
    seq(|nodes|, i requires 0 <= i < |nodes| =>
      NodeDevices(nodes[i].id, EligibleIDs(nodes[i].devices, used, memMiB, opts)))
  }

  method ComputeEligibleDevicesPerNode(nodes: seq<Node>, used: set<string>, memMiB: int, opts: Options)
    returns (out: seq<NodeDevices>)
    ensures out == EligiblePerNode(nodes, used, memMiB, opts)
  {
    out := [];
    for i := 0 to |nodes|
      invariant |out| == i
      invariant forall k | 0 <= k < i ::
        out[k] == NodeDevices(nodes[k].id, EligibleIDs(nodes[k].devices, used, memMiB, opts))
    {
      var ids: seq<string> := [];
      var ds := nodes[i].devices;
      for j := 0 to |ds|
        invariant ids == EligibleIDs(ds[..j], used, memMiB, opts)
      {
        assert ds[..j + 1][..j] == ds[..j];
        var d := ds[j];
        if d.id in used {
          continue;
        }
        if d.memoryMiB < memMiB {
          continue;
        }
        if opts.preferredDeviceType != "" && d.deviceType != opts.preferredDeviceType {
          continue;
        }
        if opts.preferredProfile != "" && d.profile != opts.preferredProfile {
          continue;
        }
        ids := ids + [d.id];
      }
      assert ds[..|ds|] == ds;
      out := out + [NodeDevices(nodes[i].id, ids)];
    }
  }

  ghost predicate HasEligible(ds: seq<Device>, id: string, used: set<string>, memMiB: int, opts: Options) {
    exists d | d in ds :: d.id == id && Eligible(d, used, memMiB, opts)
  }

  /** Some node has an eligible device of this identifier. */
  ghost predicate Offers(nodes: seq<Node>, id: string, used: set<string>, memMiB: int, opts: Options) {
    exists n | n in nodes :: HasEligible(n.devices, id, used, memMiB, opts)
  }

  lemma {:induction false} EligibleWithin(
      ds: seq<Device>, used: set<string>, memMiB: int, opts: Options, ids: seq<string>)
    requires |ids| == |ds| && forall j | 0 <= j < |ds| :: ids[j] == ds[j].id
    ensures Within(EligibleIDs(ds, used, memMiB, opts), ids)
    ensures forall id | id in EligibleIDs(ds, used, memMiB, opts) :: HasEligible(ds, id, used, memMiB, opts)
  {
    if ds != [] {
      var n := |ds| - 1;
      EligibleWithin(ds[..n], used, memMiB, opts, ids[..n]);
      assert ids == ids[..n] + [ids[n]];
      forall id | id in EligibleIDs(ds, used, memMiB, opts) ensures HasEligible(ds, id, used, memMiB, opts) {
        if id in EligibleIDs(ds[..n], used, memMiB, opts) {
          var d :| d in ds[..n] && d.id == id && Eligible(d, used, memMiB, opts);
          assert d in ds;
        } else {
          assert ds[n] in ds;
        }
      }
    }
  }

  /** What may be picked are devices of the nodes, each at most once, all eligible. */
  lemma {:induction false} EligibleAcrossNodes(nodes: seq<Node>, used: set<string>, memMiB: int, opts: Options)
    ensures Within(Flatten(EligiblePerNode(nodes, used, memMiB, opts)), DeviceIDs(nodes))
    ensures forall id | id in Flatten(EligiblePerNode(nodes, used, memMiB, opts)) ::
      Offers(nodes, id, used, memMiB, opts)
  {
    if nodes != [] {
      var per := EligiblePerNode(nodes, used, memMiB, opts);
      EligibleAcrossNodes(nodes[1..], used, memMiB, opts);
      assert per[1..] == EligiblePerNode(nodes[1..], used, memMiB, opts);
      EligibleWithin(nodes[0].devices, used, memMiB, opts, NodeDeviceIDs(nodes[0]));
      forall id | id in Flatten(per) ensures Offers(nodes, id, used, memMiB, opts) {
        if id in per[0].deviceIDs {
          assert nodes[0] in nodes;
        } else {
          var n :| n in nodes[1..] && HasEligible(n.devices, id, used, memMiB, opts);
          assert n in nodes;
        }
      }
    }
  }

  // ---------------------------------------------------------------- operations

  function CanonicalKey(poolKey: string): string {
    if poolKey == "" then DEFAULT_POOL_KEY else poolKey
  }

  /** What an admission asks of the simulator. */
  function AdmissionOptions(profile: string): Options {
    Options(FirstFit, false, 0, "", profile)
  }

  function EffectivePolicy(opts: Options): Policy {
    if opts.policy == UnknownPolicy("") then FirstFit else opts.policy
  }

  function UsedDevices(s: Sim): set<string> {
    set w, id | w in s.allocations && id in s.allocations[w] :: id
  }

  function RunName(n: nat): string { "run-" + Decimal(n) }

  /** Completion is noticed lazily, when the run is next looked at. */
  function Settled(r: Run, now: int): Run {
    if r.status == RunRunning && now >= r.endsAt then r.(status := RunSucceeded) else r
  }

  predicate IsRunning(runs: map<string, Run>, w: string, id: string) {
    id in runs && runs[id].workloadID == w && runs[id].status == RunRunning
  }

  /** A run of the workload that no other of its runs was started after. */
  ghost predicate IsLatest(s: Sim, w: string, id: string) {
    && id in s.runs && s.runs[id].workloadID == w
    && forall k | k in s.runs && s.runs[k].workloadID == w :: s.runs[k].startedAt <= s.runs[id].startedAt
  }

  datatype Op =
    | Register(key: string, spec: PoolSpec)
    | Delete(key: string)
    | Allocate(w: string, gpuCount: int, memMiB: int, opts: Options)
    | Release(w: string)
    | Start(w: string, now: int, seconds: int)
    | Poll(runID: string, now: int)
    | PollLatest(w: string, now: int)
    | Preempt(w: string)

  /** What placement answers when the pools are visited in this order. */
  ghost predicate PlacementAnswer(s: Sim, gpuCount: nat, memMiB: int, opts: Options, order: seq<string>, r: Picked) {
    && Visits(s.pools, order)
    && PickAnswer(EligiblePerNode(Concatenated(s.pools, order), UsedDevices(s), memMiB, opts),
                  gpuCount, EffectivePolicy(opts), opts.requireSameNode, opts.maxNodes, r)
  }

  /** Without a policy an allocation is placed first fit, and with one not known it is not placed at all. */
  lemma PolicyNames(s: Sim, gpuCount: nat, memMiB: int, opts: Options, order: seq<string>, r: Picked)
    ensures opts.policy == UnknownPolicy("") ==>
              (PlacementAnswer(s, gpuCount, memMiB, opts, order, r)
               <==> PlacementAnswer(s, gpuCount, memMiB, opts.(policy := FirstFit), order, r))
    ensures opts.policy.UnknownPolicy? && opts.policy.name != "" && !opts.requireSameNode ==>
              (PlacementAnswer(s, gpuCount, memMiB, opts, order, r) ==> r == PolicyUnknown)
  {
    if Visits(s.pools, order) {
      var nodes, used := Concatenated(s.pools, order), UsedDevices(s);
      forall i | 0 <= i < |nodes|
        ensures EligibleIDs(nodes[i].devices, used, memMiB, opts)
             == EligibleIDs(nodes[i].devices, used, memMiB, opts.(policy := FirstFit))
      {
        PolicyIsNoFilter(nodes[i].devices, used, memMiB, opts);
      }
      assert EligiblePerNode(nodes, used, memMiB, opts)
        == EligiblePerNode(nodes, used, memMiB, opts.(policy := FirstFit));
    }
  }

  lemma {:induction false} PolicyIsNoFilter(ds: seq<Device>, used: set<string>, memMiB: int, opts: Options)
    ensures EligibleIDs(ds, used, memMiB, opts) == EligibleIDs(ds, used, memMiB, opts.(policy := FirstFit))
  {
    if ds != [] {
      PolicyIsNoFilter(ds[..|ds| - 1], used, memMiB, opts);
    }
  }

  /** The locked part of an allocation may reserve exactly these devices. */
  ghost predicate Reservable(s: Sim, gpuCount: int, memMiB: int, opts: Options, ids: seq<string>) {
    && gpuCount > 0 && |ids| == gpuCount
    && exists order :: PlacementAnswer(s, gpuCount, memMiB, opts, order, Devices(ids))
  }

  function Reserve(s: Sim, w: string, ids: seq<string>): Sim {
    s.(allocations := s.allocations[w := ids])
  }

  function WithRun(s: Sim, id: string, r: Run): Sim {
    s.(runs := s.runs[id := r])
  }

  /** What one operation may do. An operation that reports an error changes nothing. Allocate is
      its locked part alone: whether the workload already has an allocation is checked before the
      lock is taken, so nothing is assumed about it here. */
  ghost predicate Step(s: Sim, op: Op, s': Sim) {
    match op
    case Register(key, spec) =>
      s' == if SpecOk(spec)
            then s.(pools := s.pools[CanonicalKey(key) := BuiltNodes(spec, CanonicalKey(key))]) else s
    case Delete(key) => s' == if key == "" then s else s.(pools := s.pools - {key})
    case Allocate(w, gpuCount, memMiB, opts) =>
      s' == s || exists ids :: Reservable(s, gpuCount, memMiB, opts, ids) && s' == Reserve(s, w, ids)
    case Release(w) => s' == s.(allocations := s.allocations - {w})
    case Start(w, now, seconds) =>
      || s' == s
      || (&& w in s.allocations && s.allocations[w] != []
          && (forall id :: !IsRunning(s.runs, w, id))
          && s' == WithRun(s, RunName(s.nextRunID + 1), Run(w, now, now + seconds, RunRunning))
                   .(nextRunID := s.nextRunID + 1))
    case Poll(id, now) => s' == if id in s.runs then WithRun(s, id, Settled(s.runs[id], now)) else s
    case PollLatest(w, now) =>
      || (s' == s && forall id | id in s.runs :: s.runs[id].workloadID != w)
      || exists id :: IsLatest(s, w, id) && s' == WithRun(s, id, Settled(s.runs[id], now))
    case Preempt(w) =>
      || (s' == s && forall id :: !IsRunning(s.runs, w, id))
      || exists id :: IsRunning(s.runs, w, id) && s' == WithRun(s, id, s.runs[id].(status := RunPreempted))
  }

  // ---------------------------------------------------------------- the invariant

  /** No device is in two allocations, or twice in one. */
  ghost predicate Exclusive(allocations: map<string, seq<string>>) {
    && (forall w | w in allocations :: Distinct(allocations[w]))
    && (forall w, w', id | w in allocations && w' in allocations && id in allocations[w] && id in allocations[w'] ::
          w == w')
  }

  ghost predicate Numbered(id: string, n: nat) {
    exists k: nat :: 1 <= k <= n && id == RunName(k)
  }

  /** Identifiers are numbered up to `n`, and a workload has at most one running run. */
  ghost predicate RunsOk(runs: map<string, Run>, n: nat) {
    && (forall id | id in runs :: Numbered(id, n))
    && (forall w, a, b | IsRunning(runs, w, a) && IsRunning(runs, w, b) :: a == b)
  }

  ghost predicate Valid(s: Sim) {
    PoolsBuilt(s.pools) && Exclusive(s.allocations) && RunsOk(s.runs, s.nextRunID)
  }

  /** Some node has a device of this identifier with enough memory, of the type and profile preferred where
      one is. */
  ghost predicate HasFitting(nodes: seq<Node>, id: string, memMiB: int, opts: Options) {
    exists n | n in nodes ::
      exists d | d in n.devices ::
        && d.id == id && memMiB <= d.memoryMiB
        && (opts.preferredDeviceType == "" || d.deviceType == opts.preferredDeviceType)
        && (opts.preferredProfile == "" || d.profile == opts.preferredProfile)
  }

  /** Which is what eligibility comes to, for devices not in use. */
  lemma OffersIff(nodes: seq<Node>, id: string, used: set<string>, memMiB: int, opts: Options)
    ensures Offers(nodes, id, used, memMiB, opts) <==> id !in used && HasFitting(nodes, id, memMiB, opts)
  {
    if Offers(nodes, id, used, memMiB, opts) {
      var n :| n in nodes && HasEligible(n.devices, id, used, memMiB, opts);
      var d :| d in n.devices && d.id == id && Eligible(d, used, memMiB, opts);
    }
    if id !in used && HasFitting(nodes, id, memMiB, opts) {
      var n, d :| n in nodes && d in n.devices
        && d.id == id && memMiB <= d.memoryMiB
        && (opts.preferredDeviceType == "" || d.deviceType == opts.preferredDeviceType)
        && (opts.preferredProfile == "" || d.profile == opts.preferredProfile);
      assert Eligible(d, used, memMiB, opts);
      assert HasEligible(n.devices, id, used, memMiB, opts);
    }
  }

  /** What an allocation gets: exactly as many devices as asked for, all different, none in use, each
      a device of some registered pool that meets the request. */
  ghost predicate GoodReservation(s: Sim, memMiB: int, opts: Options, ids: seq<string>) {
    && Distinct(ids)
    && (forall id | id in ids :: id !in UsedDevices(s))
    && (forall id | id in ids :: exists k | k in s.pools :: HasFitting(s.pools[k], id, memMiB, opts))
  }

  lemma {:induction false} OffersInPool(
      pools: map<string, seq<Node>>, order: seq<string>, id: string, used: set<string>, memMiB: int, opts: Options)
    requires forall k | k in order :: k in pools
    requires Offers(Concatenated(pools, order), id, used, memMiB, opts)
    ensures exists k | k in order :: Offers(pools[k], id, used, memMiB, opts)
  {
    var n :| n in Concatenated(pools, order) && HasEligible(n.devices, id, used, memMiB, opts);
    if n in pools[order[0]] {
      assert Offers(pools[order[0]], id, used, memMiB, opts);
    } else {
      assert n in Concatenated(pools, order[1..]);
      OffersInPool(pools, order[1..], id, used, memMiB, opts);
    }
  }

  lemma ReservationIsGood(s: Sim, gpuCount: int, memMiB: int, opts: Options, ids: seq<string>)
    requires PoolsBuilt(s.pools) && Reservable(s, gpuCount, memMiB, opts, ids)
    ensures GoodReservation(s, memMiB, opts, ids)
  {
    var order :| PlacementAnswer(s, gpuCount, memMiB, opts, order, Devices(ids));
    var nodes, used := Concatenated(s.pools, order), UsedDevices(s);
    var per := EligiblePerNode(nodes, used, memMiB, opts);
    FleetDistinct(s.pools, order);
    EligibleAcrossNodes(nodes, used, memMiB, opts);
    DistinctPermuted(DeviceIDs(nodes), Flatten(per));
    PickIsSafe(per, gpuCount, EffectivePolicy(opts), opts.requireSameNode, opts.maxNodes, Devices(ids));
    forall id | id in ids ensures id !in used && exists k | k in s.pools :: HasFitting(s.pools[k], id, memMiB, opts) {
      WithinMembers(ids, Flatten(per), id);
      assert Offers(nodes, id, used, memMiB, opts);
      OffersInPool(s.pools, order, id, used, memMiB, opts);
      var k :| k in order && Offers(s.pools[k], id, used, memMiB, opts);
      OffersIff(s.pools[k], id, used, memMiB, opts);
    }
  }

  lemma ReserveKeepsExclusive(s: Sim, w: string, ids: seq<string>)
    requires Exclusive(s.allocations) && Distinct(ids) && forall id | id in ids :: id !in UsedDevices(s)
    ensures Exclusive(Reserve(s, w, ids).allocations)
  {
  }

  lemma RunNameInjective(m: nat, n: nat)
    requires RunName(m) == RunName(n)
    ensures m == n
  {
    NumberedInjective("run-", m, n);
  }

  /** The next run identifier has never been used. */
  lemma NextRunIsNew(s: Sim)
    requires RunsOk(s.runs, s.nextRunID)
    ensures RunName(s.nextRunID + 1) !in s.runs
  {
    if RunName(s.nextRunID + 1) in s.runs {
      var k: nat :| 1 <= k <= s.nextRunID && RunName(s.nextRunID + 1) == RunName(k);
      RunNameInjective(s.nextRunID + 1, k);
    }
  }

  lemma StartKeepsRunsOk(s: Sim, w: string, now: int, seconds: int, s': Sim)
    requires RunsOk(s.runs, s.nextRunID) && Step(s, Start(w, now, seconds), s')
    ensures RunsOk(s'.runs, s'.nextRunID)
  {
    if s' != s {
      NextRunIsNew(s);
      var newest := RunName(s.nextRunID + 1);
      assert forall v, k :: IsRunning(s'.runs, v, k) ==> IsRunning(s.runs, v, k) || (k == newest && v == w);
      assert forall v, k | IsRunning(s.runs, v, k) :: v != w;
      forall id | id in s'.runs ensures Numbered(id, s'.nextRunID) {
        if id in s.runs {
          var k: nat :| 1 <= k <= s.nextRunID && id == RunName(k);
        }
      }
    }
  }

  /** Changing a run's status away from Running, or not at all, keeps the run table in order. */
  lemma SettleKeepsRunsOk(s: Sim, id: string, r: Run)
    requires RunsOk(s.runs, s.nextRunID) && id in s.runs && r.workloadID == s.runs[id].workloadID
    requires r.status == RunRunning ==> s.runs[id].status == RunRunning
    ensures RunsOk(WithRun(s, id, r).runs, s.nextRunID)
  {
    var s' := WithRun(s, id, r);
    assert forall w, k :: IsRunning(s'.runs, w, k) ==> IsRunning(s.runs, w, k);
  }

  lemma AllocateKeepsExclusive(s: Sim, w: string, gpuCount: int, memMiB: int, opts: Options, s': Sim)
    requires Valid(s) && Step(s, Allocate(w, gpuCount, memMiB, opts), s')
    ensures Exclusive(s'.allocations) && s' == s.(allocations := s'.allocations)
  {
    if s' != s {
      var ids :| Reservable(s, gpuCount, memMiB, opts, ids) && s' == Reserve(s, w, ids);
      ReservationIsGood(s, gpuCount, memMiB, opts, ids);
      ReserveKeepsExclusive(s, w, ids);
    }
  }

  lemma PollLatestKeepsRunsOk(s: Sim, w: string, now: int, s': Sim)
    requires RunsOk(s.runs, s.nextRunID) && Step(s, PollLatest(w, now), s')
    ensures RunsOk(s'.runs, s'.nextRunID) && s' == s.(runs := s'.runs)
  {
    if id :| IsLatest(s, w, id) && s' == WithRun(s, id, Settled(s.runs[id], now)) {
      SettleKeepsRunsOk(s, id, Settled(s.runs[id], now));
    }
  }

  lemma PreemptKeepsRunsOk(s: Sim, w: string, s': Sim)
    requires RunsOk(s.runs, s.nextRunID) && Step(s, Preempt(w), s')
    ensures RunsOk(s'.runs, s'.nextRunID) && s' == s.(runs := s'.runs)
  {
    if id :| IsRunning(s.runs, w, id) && s' == WithRun(s, id, s.runs[id].(status := RunPreempted)) {
      SettleKeepsRunsOk(s, id, s.runs[id].(status := RunPreempted));
    }
  }

  lemma StepKeepsValid(s: Sim, op: Op, s': Sim)
    requires Valid(s) && Step(s, op, s')
    ensures Valid(s')
  {
    match op
    case Register(key, spec) =>
      assert SpecOk(spec) ==> BuiltPool(s'.pools[CanonicalKey(key)], CanonicalKey(key));
    case Delete(key) =>
    case Allocate(w, gpuCount, memMiB, opts) => AllocateKeepsExclusive(s, w, gpuCount, memMiB, opts, s');
    case Release(w) =>
    case Start(w, now, seconds) => StartKeepsRunsOk(s, w, now, seconds, s');
    case Poll(id, now) =>
      if id in s.runs {
        SettleKeepsRunsOk(s, id, Settled(s.runs[id], now));
      }
    case PollLatest(w, now) => PollLatestKeepsRunsOk(s, w, now, s');
    case Preempt(w) => PreemptKeepsRunsOk(s, w, s');
  }

  // ---------------------------------------------------------------- whole traces

  /** Runs are never forgotten or altered except that a running one may end; ended ones stay ended. */
  ghost predicate Evolves(s: Sim, s': Sim) {
    && s.nextRunID <= s'.nextRunID
    && forall id | id in s.runs ::
         && id in s'.runs
         && s'.runs[id] == s.runs[id].(status := s'.runs[id].status)
         && (s.runs[id].status != RunRunning ==> s'.runs[id].status == s.runs[id].status)
  }

  lemma StepEvolves(s: Sim, op: Op, s': Sim)
    requires Valid(s) && Step(s, op, s')
    ensures Evolves(s, s')
  {
    NextRunIsNew(s);
  }

  const EMPTY: Sim := Sim(map[], map[], map[], 0)

  ghost predicate IsTrace(states: seq<Sim>, ops: seq<Op>) {
    && |states| == |ops| + 1 && states[0] == EMPTY
    && forall k | 0 <= k < |ops| :: Step(states[k], ops[k], states[k + 1])
  }

  /** Over every sequence of operations devices are exclusive and each workload has at most one
      running run. */
  lemma {:induction false} TraceStaysValid(states: seq<Sim>, ops: seq<Op>, k: nat)
    requires IsTrace(states, ops) && k < |states|
    ensures Valid(states[k])
  {
    if k > 0 {
      TraceStaysValid(states, ops, k - 1);
      StepKeepsValid(states[k - 1], ops[k - 1], states[k]);
    }
  }

  lemma {:induction false} TraceEvolves(states: seq<Sim>, ops: seq<Op>, i: nat, j: nat)
    requires IsTrace(states, ops) && i <= j < |states|
    ensures Evolves(states[i], states[j])
    decreases j
  {
    if i < j {
      TraceEvolves(states, ops, i, j - 1);
      TraceStaysValid(states, ops, j - 1);
      StepEvolves(states[j - 1], ops[j - 1], states[j]);
    }
  }

  /** Run identifiers are never reused: a run that appears at one step has an identifier no earlier
      state knows. */
  lemma RunIDsNeverReused(states: seq<Sim>, ops: seq<Op>, i: nat, j: nat, id: string)
    requires IsTrace(states, ops) && i <= j < |ops|
    requires id !in states[j].runs && id in states[j + 1].runs
    ensures id !in states[i].runs && id == RunName(states[j].nextRunID + 1)
  {
    TraceEvolves(states, ops, i, j);
    assert Step(states[j], ops[j], states[j + 1]);
  }

  /** Preempt stops at the first match, yet afterwards no run of the workload is running. */
  lemma PreemptStopsWorkload(s: Sim, w: string, s': Sim)
    requires Valid(s) && Step(s, Preempt(w), s')
    ensures forall id :: !IsRunning(s'.runs, w, id)
    ensures s'.allocations == s.allocations && s'.pools == s.pools
  {
    if id :| IsRunning(s.runs, w, id) && s' == WithRun(s, id, s.runs[id].(status := RunPreempted)) {
      assert forall k | IsRunning(s.runs, w, k) :: k == id;
      forall k ensures !IsRunning(s'.runs, w, k) {
        assert IsRunning(s'.runs, w, k) ==> IsRunning(s.runs, w, k) && k != id;
      }
    }
  }

  // ---------------------------------------------------------------- the object

  datatype AllocationResult =
    | Allocated(ids: seq<string>)
    | WorkloadIDRequired | CountNotPositive | MemoryNotPositive
    | AlreadyAllocated | FleetNotRegistered | MaxNodesNegative
    | PlacementFailed | InsufficientDevices(found: nat)

  datatype StartResult = Started(runID: string) | NoAllocation | NoDevices | AlreadyRunning | InputRejected | NoEstimate

  /** What is refused before the lock is taken, and why. */
  function Refusal(s: Sim, w: string, gpuCount: int, memMiB: int, opts: Options): Option<AllocationResult> {
    if w == "" then Some(WorkloadIDRequired)
    else if gpuCount <= 0 then Some(CountNotPositive)
    else if memMiB <= 0 then Some(MemoryNotPositive)
    else if w in s.allocations then Some(AlreadyAllocated)
    else if s.pools == map[] then Some(FleetNotRegistered)
    else if opts.maxNodes < 0 then Some(MaxNodesNegative)
    else None
  }

  function Verdict(picked: Picked, gpuCount: int): AllocationResult {
    if !picked.Devices? then PlacementFailed
    else if |picked.ids| < gpuCount then InsufficientDevices(|picked.ids|)
    else Allocated(picked.ids)
  }

  /** The result is the verdict on what the policy picks, the pools visited in some order. */
  ghost predicate Placed(s: Sim, gpuCount: int, memMiB: int, opts: Options, r: AllocationResult) {
    && gpuCount > 0
    && exists order, picked ::
         PlacementAnswer(s, gpuCount, memMiB, opts, order, picked) && r == Verdict(picked, gpuCount)
  }

  /** What a start answers, and the state it leaves. */
  ghost function StartAnswer(s: Sim, w: string, inputAccepted: bool, estimate: nat -> Option<int>, now: int)
    : (StartResult, Sim)
  {
    if w == "" || !inputAccepted then (InputRejected, s)
    else if w !in s.allocations then (NoAllocation, s)
    else if s.allocations[w] == [] then (NoDevices, s)
    else if exists id :: IsRunning(s.runs, w, id) then (AlreadyRunning, s)
    else
      match estimate(|s.allocations[w]|)
      case None => (NoEstimate, s)
      case Some(seconds) =>
        var id := RunName(s.nextRunID + 1);
        (Started(id), WithRun(s, id, Run(w, now, now + seconds, RunRunning)).(nextRunID := s.nextRunID + 1))
  }

  class Simulator {
    var pools: map<string, seq<Node>>
    var allocations: map<string, seq<string>>
    var runs: map<string, Run>
    var nextRunID: nat

    ghost function Value(): Sim
      reads this
    {
      Sim(pools, allocations, runs, nextRunID)
    }

    constructor ()
      ensures Value() == EMPTY
    {
      pools, allocations, runs, nextRunID := map[], map[], map[], 0;
    }

    method RegisterFleet(poolKey: string, spec: PoolSpec) returns (ok: bool)
      modifies this
      ensures Step(old(Value()), Register(poolKey, spec), Value())
      ensures ok <==> SpecOk(spec)
      ensures ok ==>
                var key := if poolKey == "" then "_default" else poolKey;
                pools == old(pools)[key := BuiltNodes(spec, key)]
    {
      var key := if poolKey == "" then DEFAULT_POOL_KEY else poolKey;
      var nodes := BuildNodesWithPoolKey(spec, key);
      if nodes.None? {
        return false;
      }
      pools := pools[key := nodes.value];
      return true;
    }

    method DeleteFleet(poolKey: string)
      modifies this
      ensures Step(old(Value()), Delete(poolKey), Value())
    {
      if poolKey == "" {
        return;
      }
      pools := pools - {poolKey};
    }

    /** All nodes, the pools visited in any order. */
    method AllNodes() returns (nodes: seq<Node>, ghost order: seq<string>)
      ensures Visits(pools, order) && nodes == Concatenated(pools, order)
    {
      nodes, order := [], [];
      var todo := pools.Keys;
      while todo != {}
        invariant todo <= pools.Keys
        invariant Distinct(order) && forall k :: k in order <==> k in pools.Keys - todo
        invariant nodes == Concatenated(pools, order)
        decreases todo
      {
        var k :| k in todo;
        ConcatenatedSnoc(pools, order, k);
        assert k !in order;
        nodes := nodes + pools[k];
        order := order + [k];
        todo := todo - {k};
      }
    }

    /** The checks made before the lock is taken. */
    method PreCheck(w: string, gpuCount: int, memMiB: int, opts: Options) returns (refusal: Option<AllocationResult>)
      ensures refusal == Refusal(Value(), w, gpuCount, memMiB, opts)
    {
      if w == "" {
        return Some(WorkloadIDRequired);
      }
      if gpuCount <= 0 {
        return Some(CountNotPositive);
      }
      if memMiB <= 0 {
        return Some(MemoryNotPositive);
      }
      if w in allocations {
        return Some(AlreadyAllocated);
      }
      if |pools| == 0 {
        return Some(FleetNotRegistered);
      }
      if opts.maxNodes < 0 {
        return Some(MaxNodesNegative);
      }
      return None;
    }

    /** The part done under the lock. It never looks at the workload's own entry. */
    method AllocateLocked(w: string, gpuCount: int, memMiB: int, opts: Options) returns (r: AllocationResult)
      requires gpuCount > 0
      modifies this
      ensures Step(old(Value()), Allocate(w, gpuCount, memMiB, opts), Value())
      ensures Placed(old(Value()), gpuCount, memMiB, opts, r)
      ensures r.Allocated? ==>
                Reservable(old(Value()), gpuCount, memMiB, opts, r.ids) && Value() == Reserve(old(Value()), w, r.ids)
      ensures r.Allocated? && Valid(old(Value())) ==> GoodReservation(old(Value()), memMiB, opts, r.ids)
      ensures !r.Allocated? ==> Value() == old(Value())
    {
      var used := set x, id | x in allocations && id in allocations[x] :: id;
      var nodes, order := AllNodes();
      var perNode := ComputeEligibleDevicesPerNode(nodes, used, memMiB, opts);
      var policy := if opts.policy == UnknownPolicy("") then FirstFit else opts.policy;
      var picked := PickDevices(perNode, gpuCount, policy, opts.requireSameNode, opts.maxNodes);
      assert PlacementAnswer(Value(), gpuCount, memMiB, opts, order, picked);
      if !picked.Devices? {
        return PlacementFailed;
      }
      if |picked.ids| < gpuCount {
        return InsufficientDevices(|picked.ids|);
      }
      assert |picked.ids| == gpuCount by {
        PickIsSafe(perNode, gpuCount, policy, opts.requireSameNode, opts.maxNodes, picked);
      }
      assert Devices(picked.ids) == picked;
      assert Reservable(Value(), gpuCount, memMiB, opts, picked.ids);
      if Valid(Value()) {
        ReservationIsGood(Value(), gpuCount, memMiB, opts, picked.ids);
      }
      allocations := allocations[w := picked.ids];
      return Allocated(picked.ids);
    }

    method AllocateWithOptions(w: string, gpuCount: int, memMiB: int, opts: Options) returns (r: AllocationResult)
      modifies this
      ensures Step(old(Value()), Allocate(w, gpuCount, memMiB, opts), Value())
      ensures r.Allocated? ==> Reservable(old(Value()), gpuCount, memMiB, opts, r.ids)
      ensures r.Allocated? ==>
                w !in old(allocations) && Value() == Reserve(old(Value()), w, r.ids) && |r.ids| == gpuCount > 0
      ensures r.Allocated? && Valid(old(Value())) ==> GoodReservation(old(Value()), memMiB, opts, r.ids)
      ensures !r.Allocated? ==> Value() == old(Value())
      ensures var refusal := Refusal(old(Value()), w, gpuCount, memMiB, opts);
              if refusal.Some? then r == refusal.value else Placed(old(Value()), gpuCount, memMiB, opts, r)
      ensures r.WorkloadIDRequired? <==> w == ""
      ensures r.CountNotPositive? <==> w != "" && gpuCount <= 0
      ensures r.MemoryNotPositive? <==> w != "" && gpuCount > 0 && memMiB <= 0
      ensures r.AlreadyAllocated? <==> w != "" && gpuCount > 0 && memMiB > 0 && w in old(allocations)
      ensures r.FleetNotRegistered? <==>
                w != "" && gpuCount > 0 && memMiB > 0 && w !in old(allocations) && old(pools) == map[]
      ensures r.MaxNodesNegative? <==>
                && w != "" && gpuCount > 0 && memMiB > 0 && w !in old(allocations) && old(pools) != map[]
                && opts.maxNodes < 0
    {
      var refusal := PreCheck(w, gpuCount, memMiB, opts);
      if refusal.Some? {
        return refusal.value;
      }
      r := AllocateLocked(w, gpuCount, memMiB, opts);
    }

    /** `inputAccepted` is the outcome of validating the runtime input; `estimate` its duration in
        seconds on a number of devices, or none if the profile is unknown. */
    method StartWithRuntimeInput(w: string, inputAccepted: bool, estimate: nat -> Option<int>, now: int)
      returns (r: StartResult)
      modifies this
      ensures exists seconds :: Step(old(Value()), Start(w, now, seconds), Value())
      ensures (r, Value()) == StartAnswer(old(Value()), w, inputAccepted, estimate, now)
      ensures r.Started? ==>
                && w in old(allocations) && estimate(|old(allocations)[w]|).Some?
                && r.runID == "run-" + Decimal(old(nextRunID) + 1) && nextRunID == old(nextRunID) + 1
                && runs == old(runs)[r.runID :=
                     Run(w, now, now + estimate(|old(allocations)[w]|).value, RunRunning)]
      ensures !r.Started? ==> Value() == old(Value())
    {
      if w == "" || !inputAccepted {
        assert Step(Value(), Start(w, now, 0), Value());
        return InputRejected;
      }
      if w !in allocations {
        assert Step(Value(), Start(w, now, 0), Value());
        return NoAllocation;
      }
      if |allocations[w]| == 0 {
        assert Step(Value(), Start(w, now, 0), Value());
        return NoDevices;
      }
      var running := FindRunning(w);
      if running.Some? {
        assert Step(Value(), Start(w, now, 0), Value());
        return AlreadyRunning;
      }
      var duration := estimate(|allocations[w]|);
      if duration.None? {
        assert Step(Value(), Start(w, now, 0), Value());
        return NoEstimate;
      }
      assert allocations[w] != [];
      nextRunID := nextRunID + 1;
      var runID := RunName(nextRunID);
      runs := runs[runID := Run(w, now, now + duration.value, RunRunning)];
      assert Step(old(Value()), Start(w, now, duration.value), Value());
      return Started(runID);
    }

    /** Scans the run table, in any order, for a running run of the workload. */
    method FindRunning(w: string) returns (r: Option<string>)
      ensures r.Some? ==> IsRunning(runs, w, r.value)
      ensures r.None? ==> forall id :: !IsRunning(runs, w, id)
    {
      var todo := runs.Keys;
      while todo != {}
        invariant todo <= runs.Keys
        invariant forall id | IsRunning(runs, w, id) :: id in todo
        decreases todo
      {
        var id :| id in todo;
        if runs[id].workloadID == w && runs[id].status == RunRunning {
          return Some(id);
        }
        todo := todo - {id};
      }
      return None;
    }

    method GetStatus(runID: string, now: int) returns (r: Option<Status>)
      modifies this
      ensures Step(old(Value()), Poll(runID, now), Value())
      ensures r.None? <==> runID !in runs
      ensures r.Some? ==>
                && runID in old(runs) && runs == old(runs)[runID := old(runs)[runID].(status := r.value)]
                && r.value == if old(runs)[runID].status == RunRunning && old(runs)[runID].endsAt <= now
                              then RunSucceeded else old(runs)[runID].status
    {
      if runID !in runs {
        return None;
      }
      var run := runs[runID];
      if run.status == RunRunning && now >= run.endsAt {
        run := run.(status := RunSucceeded);
      }
      runs := runs[runID := run];
      return Some(run.status);
    }

    method GetLatestRunStatusForWorkload(w: string, now: int) returns (r: Option<Status>)
      modifies this
      ensures w == "" ==> r.None? && Value() == old(Value())
      ensures w != "" ==> Step(old(Value()), PollLatest(w, now), Value())
      ensures w != "" ==> (r.None? <==> forall id | id in runs :: runs[id].workloadID != w)
      ensures r.Some? ==> exists id | id in old(runs) ::
                && IsLatest(old(Value()), w, id) && runs == old(runs)[id := old(runs)[id].(status := r.value)]
                && r.value == if old(runs)[id].status == RunRunning && old(runs)[id].endsAt <= now
                              then RunSucceeded else old(runs)[id].status
    {
      if w == "" {
        return None;
      }
      var latest: Option<string> := None;
      var todo := runs.Keys;
      while todo != {}
        invariant todo <= runs.Keys
        invariant latest.None? ==> forall k | k in runs.Keys - todo :: runs[k].workloadID != w
        invariant latest.Some? ==> latest.value in runs && runs[latest.value].workloadID == w
        invariant latest.Some? ==> forall k | k in runs.Keys - todo && runs[k].workloadID == w ::
                    runs[k].startedAt <= runs[latest.value].startedAt
        decreases todo
      {
        var id :| id in todo;
        todo := todo - {id};
        if runs[id].workloadID == w {
          if latest.None? || runs[id].startedAt > runs[latest.value].startedAt {
            latest := Some(id);
          }
        }
      }
      if latest.None? {
        return None;
      }
      assert IsLatest(Value(), w, latest.value);
      var run := runs[latest.value];
      if run.status == RunRunning && now >= run.endsAt {
        run := run.(status := RunSucceeded);
      }
      runs := runs[latest.value := run];
      assert Value() == WithRun(old(Value()), latest.value, Settled(old(runs)[latest.value], now));
      assert runs[latest.value].workloadID == w;
      return Some(run.status);
    }

    method PreemptWorkload(w: string)
      modifies this
      ensures w == "" ==> Value() == old(Value())
      ensures w != "" ==> Step(old(Value()), Preempt(w), Value())
    {
      if w == "" {
        return;
      }
      var running := FindRunning(w);
      if running.Some? {
        runs := runs[running.value := runs[running.value].(status := RunPreempted)];
        assert Value() == WithRun(old(Value()), running.value, old(runs)[running.value].(status := RunPreempted));
      }
    }

    method ReleaseWorkload(w: string)
      modifies this
      ensures w != "" ==> Step(old(Value()), Release(w), Value())
      ensures w == "" ==> Value() == old(Value())
    {
      if w == "" {
        return;
      }
      allocations := allocations - {w};
    }
  }

  lemma {:induction false} ConcatenatedSnoc(pools: map<string, seq<Node>>, order: seq<string>, k: string)
    requires k in pools && forall x | x in order :: x in pools
    ensures Concatenated(pools, order + [k]) == Concatenated(pools, order) + pools[k]
  {
    if order == [] {
      assert order + [k] == [k];
      assert Concatenated(pools, [k][1..]) == [];
    } else {
      assert (order + [k])[1..] == order[1..] + [k];
      ConcatenatedSnoc(pools, order[1..], k);
    }
  }
}
