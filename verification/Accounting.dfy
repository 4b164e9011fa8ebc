/** Fleet and per-pool usage of internal/sim/state.go, and when the two add up. */
module Accounting {
  import opened Sequences
  import opened DeviceNames
  import opened AcceleratorSim

  datatype Usage = Usage(total: int, inUse: int, available: int)

  function PoolSizes(pools: map<string, seq<Node>>): map<string, int> {
    map k | k in pools :: |DeviceIDs(pools[k])|
  }

  function Held(allocations: map<string, seq<string>>): map<string, int> {
    map w | w in allocations :: |allocations[w]|
  }

  /** How many of the identifiers count for the pool. */
  function CountIn(ids: seq<string>, k: string): nat {
    if ids == [] then 0 else CountIn(ids[..|ids| - 1], k) + if CountsFor(k, ids[|ids| - 1]) then 1 else 0
  }

  function HeldFrom(allocations: map<string, seq<string>>, k: string): map<string, int> {
    map w | w in allocations :: CountIn(allocations[w], k)
  }

  ghost function AllocatedFrom(s: Sim, k: string): int {
    MapSum(HeldFrom(s.allocations, k))
  }

  // ---------------------------------------------------------------- the two counters

  method CountDevices(nodes: seq<Node>) returns (total: int)
    ensures total == |DeviceIDs(nodes)|
  {
    total := 0;
    for i := 0 to |nodes|
      invariant total == |DeviceIDs(nodes[..i])|
    {
      assert nodes[..i + 1] == nodes[..i] + [nodes[i]];
      DeviceIDsConcat(nodes[..i], [nodes[i]]);
      assert DeviceIDs([nodes[i]][1..]) == [];
      total := total + |nodes[i].devices|;
    }
    assert nodes[..|nodes|] == nodes;
  }

  method SumPools(s: Sim) returns (total: int)
    ensures total == MapSum(PoolSizes(s.pools))
  {
    total := 0;
    var todo := s.pools;
    while todo != map[]
      invariant forall k | k in todo :: k in s.pools && todo[k] == s.pools[k]
      invariant total + MapSum(PoolSizes(todo)) == MapSum(PoolSizes(s.pools))
      decreases |todo|
    {
      var k :| k in todo;
      MapSumRemove(PoolSizes(todo), k);
      assert PoolSizes(todo - {k}) == PoolSizes(todo) - {k};
      var n := CountDevices(todo[k]);
      total := total + n;
      todo := todo - {k};
    }
  }

  method SumAllocations(s: Sim) returns (inUse: int)
    ensures inUse == MapSum(Held(s.allocations))
  {
    inUse := 0;
    var todo := s.allocations;
    while todo != map[]
      invariant forall w | w in todo :: w in s.allocations && todo[w] == s.allocations[w]
      invariant inUse + MapSum(Held(todo)) == MapSum(Held(s.allocations))
      decreases |todo|
    {
      var w :| w in todo;
      MapSumRemove(Held(todo), w);
      assert Held(todo - {w}) == Held(todo) - {w};
      inUse := inUse + |todo[w]|;
      todo := todo - {w};
    }
  }

  method FleetUsage(s: Sim) returns (u: Usage)
    ensures u.total == MapSum(PoolSizes(s.pools)) && u.inUse == MapSum(Held(s.allocations))
    ensures u.available + u.inUse == u.total
  {
    var total := SumPools(s);
    var inUse := SumAllocations(s);
    return Usage(total, inUse, total - inUse);
  }

  method CountForPool(ids: seq<string>, poolKey: string) returns (n: int)
    ensures n == CountIn(ids, poolKey)
  {
    n := 0;
    for i := 0 to |ids|
      invariant n == CountIn(ids[..i], poolKey)
    {
      assert ids[..i + 1][..i] == ids[..i];
      if CountsFor(poolKey, ids[i]) {
        n := n + 1;
      }
    }
    assert ids[..|ids|] == ids;
  }

  method SumAllocationsFrom(s: Sim, poolKey: string) returns (inUse: int)
    ensures inUse == AllocatedFrom(s, poolKey)
  {
    inUse := 0;
    var todo := s.allocations;
    while todo != map[]
      invariant forall w | w in todo :: w in s.allocations && todo[w] == s.allocations[w]
      invariant inUse + MapSum(HeldFrom(todo, poolKey)) == AllocatedFrom(s, poolKey)
      decreases |todo|
    {
      var w :| w in todo;
      MapSumRemove(HeldFrom(todo, poolKey), w);
      assert HeldFrom(todo - {w}, poolKey) == HeldFrom(todo, poolKey) - {w};
      var n := CountForPool(todo[w], poolKey);
      inUse := inUse + n;
      todo := todo - {w};
    }
  }

  /** `ok` is false if the pool is not registered. */
  method FleetUsageForPool(s: Sim, poolKey: string) returns (u: Usage, ok: bool)
    ensures ok <==> poolKey in s.pools
    ensures ok && s.pools[poolKey] != [] ==>
              u == Usage(|DeviceIDs(s.pools[poolKey])|, AllocatedFrom(s, poolKey),
                         |DeviceIDs(s.pools[poolKey])| - AllocatedFrom(s, poolKey))
    ensures !ok || s.pools[poolKey] == [] ==> u == Usage(0, 0, 0)
  {
    if poolKey !in s.pools {
      return Usage(0, 0, 0), false;
    }
    if |s.pools[poolKey]| == 0 {
      return Usage(0, 0, 0), true;
    }
    var total := CountDevices(s.pools[poolKey]);
    var inUse := SumAllocationsFrom(s, poolKey);
    return Usage(total, inUse, total - inUse), true;
  }

  // ---------------------------------------------------------------- grounded allocations

  /** Some registered pool has this device. */
  ghost predicate Registered(pools: map<string, seq<Node>>, id: string) {
    exists k | k in pools :: id in DeviceIDs(pools[k])
  }

  /** Every allocated device belongs to a registered pool. */
  ghost predicate Grounded(s: Sim) {
    forall id | id in UsedDevices(s) :: Registered(s.pools, id)
  }

  /** The operation takes no allocated device away from its pool. */
  ghost predicate KeepsDevices(s: Sim, op: Op) {
    match op
    case Register(key, spec) =>
      var k := CanonicalKey(key);
      SpecOk(spec) && k in s.pools ==>
        forall id | id in UsedDevices(s) && id in DeviceIDs(s.pools[k]) :: id in DeviceIDs(BuiltNodes(spec, k))
    case Delete(key) =>
      key != "" && key in s.pools ==> forall id | id in UsedDevices(s) :: id !in DeviceIDs(s.pools[key])
    case _ => true
  }

  lemma OffersIsRegistered(nodes: seq<Node>, id: string, used: set<string>, memMiB: int, opts: Options)
    requires Offers(nodes, id, used, memMiB, opts)
    ensures id in DeviceIDs(nodes)
  {
    var n :| n in nodes && HasEligible(n.devices, id, used, memMiB, opts);
    var d :| d in n.devices && d.id == id && Eligible(d, used, memMiB, opts);
    var i := IndexOf(nodes, n);
    var j := IndexOf(n.devices, d);
    assert NodeDeviceIDs(n)[j] == id;
    assert nodes == nodes[..i] + ([n] + nodes[i + 1..]);
    DeviceIDsConcat(nodes[..i], [n] + nodes[i + 1..]);
    assert ([n] + nodes[i + 1..])[1..] == nodes[i + 1..];
  }

  lemma AllocateKeepsGrounded(s: Sim, w: string, gpuCount: int, memMiB: int, opts: Options, s': Sim)
    requires Valid(s) && Grounded(s) && Step(s, Allocate(w, gpuCount, memMiB, opts), s')
    ensures Grounded(s')
  {
    if s' != s {
      var ids :| Reservable(s, gpuCount, memMiB, opts, ids) && s' == Reserve(s, w, ids);
      ReservationIsGood(s, gpuCount, memMiB, opts, ids);
      forall id | id in UsedDevices(s') ensures Registered(s'.pools, id) {
        if id in ids {
          var k :| k in s.pools && Offers(s.pools[k], id, UsedDevices(s), memMiB, opts);
          OffersIsRegistered(s.pools[k], id, UsedDevices(s), memMiB, opts);
        } else {
          assert id in UsedDevices(s);
        }
      }
    }
  }

  lemma DeleteKeepsGroundedIff(s: Sim, key: string, s': Sim)
    requires Valid(s) && Grounded(s) && Step(s, Delete(key), s')
    ensures Grounded(s') <==> KeepsDevices(s, Delete(key))
  {
    if key != "" && key in s.pools {
      assert UsedDevices(s') == UsedDevices(s);
      if KeepsDevices(s, Delete(key)) {
        forall id | id in UsedDevices(s') ensures Registered(s'.pools, id) {
          var k :| k in s.pools && id in DeviceIDs(s.pools[k]);
          assert k in s'.pools;
        }
      }
      if Grounded(s') {
        forall id | id in UsedDevices(s) ensures id !in DeviceIDs(s.pools[key]) {
          assert Registered(s'.pools, id);
          var k :| k in s'.pools && id in DeviceIDs(s'.pools[k]);
          if id in DeviceIDs(s.pools[key]) {
            SamePool(s.pools, key, k, id);
          }
        }
      }
    } else {
      assert s' == s || s'.pools == s.pools;
    }
  }

  lemma RegisterKeepsGroundedIff(s: Sim, key: string, spec: PoolSpec, s': Sim)
    requires Valid(s) && Grounded(s) && Step(s, Register(key, spec), s')
    ensures Grounded(s') <==> KeepsDevices(s, Register(key, spec))
  {
    var k := CanonicalKey(key);
    if SpecOk(spec) {
      assert UsedDevices(s') == UsedDevices(s);
      if KeepsDevices(s, Register(key, spec)) {
        forall id | id in UsedDevices(s') ensures Registered(s'.pools, id) {
          assert Registered(s.pools, id);
          var a :| a in s.pools && id in DeviceIDs(s.pools[a]);
          assert a in s'.pools && id in DeviceIDs(s'.pools[a]);
        }
      }
      if Grounded(s') && k in s.pools {
        StepKeepsValid(s, Register(key, spec), s');
        forall id | id in UsedDevices(s) && id in DeviceIDs(s.pools[k]) ensures id in DeviceIDs(BuiltNodes(spec, k)) {
          assert Registered(s'.pools, id);
          var a :| a in s'.pools && id in DeviceIDs(s'.pools[a]);
          if a != k {
            SamePool(s.pools, k, a, id);
          }
        }
      }
    }
  }

  /** Allocations stay grounded exactly as long as no pool that holds allocated devices is deleted or
      re-registered without them. */
  lemma StaysGroundedIff(s: Sim, op: Op, s': Sim)
    requires Valid(s) && Grounded(s) && Step(s, op, s')
    ensures Grounded(s') <==> KeepsDevices(s, op)
  {
    match op
    case Register(key, spec) => RegisterKeepsGroundedIff(s, key, spec, s');
    case Delete(key) => DeleteKeepsGroundedIff(s, key, s');
    case Allocate(w, gpuCount, memMiB, opts) => AllocateKeepsGrounded(s, w, gpuCount, memMiB, opts, s');
    case Release(w) => assert forall id | id in UsedDevices(s') :: id in UsedDevices(s);
    case Start(_, _, _) => assert UsedDevices(s') == UsedDevices(s);
    case Poll(_, _) => assert UsedDevices(s') == UsedDevices(s);
    case PollLatest(_, _) => assert UsedDevices(s') == UsedDevices(s);
    case Preempt(_) => assert UsedDevices(s') == UsedDevices(s);
  }

  lemma {:induction false} TraceStaysGrounded(states: seq<Sim>, ops: seq<Op>, k: nat)
    requires IsTrace(states, ops) && k < |states|
    requires forall i | 0 <= i < |ops| :: KeepsDevices(states[i], ops[i])
    ensures Valid(states[k]) && Grounded(states[k])
  {
    TraceStaysValid(states, ops, k);
    if k > 0 {
      TraceStaysGrounded(states, ops, k - 1);
      StaysGroundedIff(states[k - 1], ops[k - 1], states[k]);
    }
  }

  /** Registering changes nothing exactly if the specification is refused or is the one the pool was
      built from. */
  lemma ReRegisterIsIdempotent(s: Sim, key: string, spec: PoolSpec, s': Sim)
    requires Step(s, Register(key, spec), s')
    ensures s' == s <==>
              SpecOk(spec) ==>
                CanonicalKey(key) in s.pools && s.pools[CanonicalKey(key)] == BuiltNodes(spec, CanonicalKey(key))
  {
    var k := CanonicalKey(key);
    if SpecOk(spec) {
      assert s'.pools[k] == BuiltNodes(spec, k);
      if k in s.pools && s.pools[k] == BuiltNodes(spec, k) {
        assert s'.pools == s.pools;
      }
    }
  }

  // ---------------------------------------------------------------- per-pool counts add up

  lemma {:induction false} MapSumAdd(c: map<string, int>, a: map<string, int>, b: map<string, int>)
    requires a.Keys == b.Keys == c.Keys && forall k | k in c :: c[k] == a[k] + b[k]
    ensures MapSum(c) == MapSum(a) + MapSum(b)
    decreases |a|
  {
    if a == map[] {
      assert b == map[] && c == map[];
    } else {
      var x := AnyKey(a);
      MapSumRemove(b, x);
      MapSumRemove(c, x);
      MapSumAdd(c - {x}, a - {x}, b - {x});
    }
  }

  lemma {:induction false} MapSumZero(m: map<string, int>)
    requires forall k | k in m :: m[k] == 0
    ensures MapSum(m) == 0
    decreases |m|
  {
    if m != map[] {
      MapSumZero(m - {AnyKey(m)});
    }
  }

  /** The pools among `keys` that a device counts for. */
  function Claimants(keys: set<string>, id: string): set<string> {
    set k | k in keys && CountsFor(k, id)
  }

  function Marks(keys: set<string>, id: string): map<string, int> {
    map k | k in keys :: if CountsFor(k, id) then 1 else 0
  }

  function Counts(keys: set<string>, ids: seq<string>): map<string, int> {
    map k | k in keys :: CountIn(ids, k)
  }

  lemma {:induction false} MarksAreClaimants(keys: set<string>, id: string)
    ensures MapSum(Marks(keys, id)) == |Claimants(keys, id)|
    decreases |keys|
  {
    if keys == {} {
      assert Marks(keys, id) == map[] && Claimants(keys, id) == {};
    } else {
      var x :| x in keys;
      var rest := keys - {x};
      MarksAreClaimants(rest, id);
      MapSumRemove(Marks(keys, id), x);
      assert Marks(keys, id) - {x} == Marks(rest, id);
      assert Claimants(keys, id) == Claimants(rest, id) + if CountsFor(x, id) then {x} else {};
    }
  }

  lemma CountsSplit(keys: set<string>, ids: seq<string>, id: string)
    ensures MapSum(Counts(keys, ids + [id])) == MapSum(Counts(keys, ids)) + |Claimants(keys, id)|
  {
    forall k | k in keys ensures CountIn(ids + [id], k) == CountIn(ids, k) + if CountsFor(k, id) then 1 else 0 {
      assert (ids + [id])[..|ids|] == ids;
    }
    MapSumAdd(Counts(keys, ids + [id]), Counts(keys, ids), Marks(keys, id));
    MarksAreClaimants(keys, id);
  }

  /** Each device counts for at least one pool, or each for at most one. */
  ghost predicate Leans(keys: set<string>, ids: seq<string>, over: bool) {
    forall id | id in ids :: if over then |Claimants(keys, id)| >= 1 else |Claimants(keys, id)| <= 1
  }

  ghost predicate OnceEach(keys: set<string>, ids: seq<string>) {
    forall id | id in ids :: |Claimants(keys, id)| == 1
  }

  /** `counted` errs on one side of `actual`, and is exact just when nothing errs. */
  ghost predicate Compares(counted: int, actual: int, over: bool, exact: bool) {
    && (if over then counted >= actual else counted <= actual)
    && (counted == actual <==> exact)
  }

  lemma {:induction false} CountsCompare(keys: set<string>, ids: seq<string>, over: bool)
    requires Leans(keys, ids, over)
    ensures Compares(MapSum(Counts(keys, ids)), |ids|, over, OnceEach(keys, ids))
  {
    if ids == [] {
      MapSumZero(Counts(keys, ids));
    } else {
      var n := |ids| - 1;
      assert ids == ids[..n] + [ids[n]];
      CountsCompare(keys, ids[..n], over);
      CountsSplit(keys, ids[..n], ids[n]);
      assert OnceEach(keys, ids) <==> OnceEach(keys, ids[..n]) && |Claimants(keys, ids[n])| == 1;
    }
  }

  /** Per-pool sums over a table of allocations. */
  ghost function PerPool(keys: set<string>, allocations: map<string, seq<string>>): map<string, int> {
    map k | k in keys :: MapSum(HeldFrom(allocations, k))
  }

  lemma HeldSplit(allocations: map<string, seq<string>>, w: string)
    requires w in allocations
    ensures MapSum(Held(allocations)) == |allocations[w]| + MapSum(Held(allocations - {w}))
  {
    MapSumRemove(Held(allocations), w);
    assert Held(allocations - {w}) == Held(allocations) - {w};
  }

  lemma HeldFromSplit(allocations: map<string, seq<string>>, w: string, k: string)
    requires w in allocations
    ensures MapSum(HeldFrom(allocations, k)) == CountIn(allocations[w], k) + MapSum(HeldFrom(allocations - {w}, k))
  {
    MapSumRemove(HeldFrom(allocations, k), w);
    assert HeldFrom(allocations - {w}, k) == HeldFrom(allocations, k) - {w};
  }

  lemma PerPoolSplit(keys: set<string>, allocations: map<string, seq<string>>, w: string)
    requires w in allocations
    ensures MapSum(PerPool(keys, allocations))
      == MapSum(Counts(keys, allocations[w])) + MapSum(PerPool(keys, allocations - {w}))
  {
    forall k | k in keys
      ensures PerPool(keys, allocations)[k] == Counts(keys, allocations[w])[k] + PerPool(keys, allocations - {w})[k]
    {
      HeldFromSplit(allocations, w, k);
    }
    MapSumAdd(PerPool(keys, allocations), Counts(keys, allocations[w]), PerPool(keys, allocations - {w}));
  }

  lemma NothingHeld(keys: set<string>)
    ensures MapSum(PerPool(keys, map[])) == 0
  {
    forall k | k in keys ensures MapSum(HeldFrom(map[], k)) == 0 {
      assert HeldFrom(map[], k) == map[];
    }
    MapSumZero(PerPool(keys, map[]));
  }

  ghost predicate AllLean(keys: set<string>, allocations: map<string, seq<string>>, over: bool) {
    forall w | w in allocations :: Leans(keys, allocations[w], over)
  }

  ghost predicate AllOnce(keys: set<string>, allocations: map<string, seq<string>>) {
    forall w | w in allocations :: OnceEach(keys, allocations[w])
  }

  /** If every device counts for at least one pool, or every one for at most one, the per-pool counts
      add up to the total exactly if each counts once. */
  lemma {:induction false} PoolsCompare(keys: set<string>, allocations: map<string, seq<string>>, over: bool)
    requires AllLean(keys, allocations, over)
    ensures Compares(MapSum(PerPool(keys, allocations)), MapSum(Held(allocations)), over, AllOnce(keys, allocations))
    decreases |allocations|
  {
    if allocations == map[] {
      assert Held(allocations) == map[];
      NothingHeld(keys);
    } else {
      var w := AnyKey(allocations);
      var rest := allocations - {w};
      PoolsCompare(keys, rest, over);
      CountsCompare(keys, allocations[w], over);
      PerPoolSplit(keys, allocations, w);
      HeldSplit(allocations, w);
      assert AllOnce(keys, allocations) <==> AllOnce(keys, rest) && OnceEach(keys, allocations[w]) by {
        assert forall x | x in allocations && x != w :: x in rest && rest[x] == allocations[x];
      }
    }
  }

  /** The allocated counts of the pools sum to that of the fleet. */
  ghost predicate SumsAgree(s: Sim) {
    MapSum(PerPool(s.pools.Keys, s.allocations)) == MapSum(Held(s.allocations))
  }

  lemma SumsCompare(s: Sim, over: bool)
    requires forall id | id in UsedDevices(s) :: Leans(s.pools.Keys, [id], over)
    ensures SumsAgree(s) <==> forall id | id in UsedDevices(s) :: |Claimants(s.pools.Keys, id)| == 1
  {
    var keys := s.pools.Keys;
    forall w, id | w in s.allocations && id in s.allocations[w]
      ensures if over then |Claimants(keys, id)| >= 1 else |Claimants(keys, id)| <= 1
    {
      assert id in UsedDevices(s);
      assert Leans(keys, [id], over) && id in [id];
    }
    PoolsCompare(keys, s.allocations, over);
    if AllOnce(keys, s.allocations) {
      forall id | id in UsedDevices(s) ensures |Claimants(keys, id)| == 1 {
        var w :| w in s.allocations && id in s.allocations[w];
        assert OnceEach(keys, s.allocations[w]);
      }
    }
  }

  lemma OneMember(a: set<string>, x: string)
    requires x in a
    ensures |a| >= 1 && (|a| == 1 <==> a == {x})
  {
    assert a == {x} + (a - {x});
  }

  /** Who claims a device, from its owner's name. */
  lemma ClaimantsOf(keys: set<string>, k: string, i: nat, j: nat)
    requires "" !in keys && k != ""
    ensures forall x :: x in Claimants(keys, DeviceID(k, i, j)) <==> x in keys && (x == k || Confusable(x, k, i))
  {
    forall x | x in keys ensures CountsFor(x, DeviceID(k, i, j)) <==> x == k || Confusable(x, k, i) {
      CountsForIff(x, k, i, j);
    }
  }

  lemma OwnerUnique(id: string, k: string, k': string)
    requires k != "" && k' != "" && NamedIn(id, k) && NamedIn(id, k')
    ensures k == k'
  {
    var i: nat, j: nat :| id == DeviceID(k, i, j);
    var i': nat, j': nat :| id == DeviceID(k', i', j');
    DeviceIDInjective(k, i, j, k', i', j');
  }

  // ---------------------------------------------------------------- while every owner is registered

  /** No registered pool claims an allocated device of another. */
  ghost predicate NoneConfused(s: Sim) {
    forall k, k', i: nat, j: nat | k in s.pools && k' != "" && DeviceID(k', i, j) in UsedDevices(s) ::
      !Confusable(k, k', i)
  }

  lemma GroundedOwner(s: Sim, id: string) returns (k: string, i: nat, j: nat)
    requires Valid(s) && Grounded(s) && id in UsedDevices(s)
    ensures k in s.pools && k != "" && id in DeviceIDs(s.pools[k]) && id == DeviceID(k, i, j)
  {
    k :| k in s.pools && id in DeviceIDs(s.pools[k]);
    BuiltPoolDistinct(s.pools[k], k);
    assert NamedIn(id, k);
    i, j :| id == DeviceID(k, i, j);
  }

  lemma GroundedClaims(s: Sim, id: string, k: string, i: nat, j: nat)
    requires Valid(s) && k in s.pools && k != "" && id == DeviceID(k, i, j)
    ensures Leans(s.pools.Keys, [id], true)
    ensures |Claimants(s.pools.Keys, id)| == 1 <==> forall x | x in s.pools :: !Confusable(x, k, i)
  {
    var keys := s.pools.Keys;
    ClaimantsOf(keys, k, i, j);
    OneMember(Claimants(keys, id), k);
    if Claimants(keys, id) == {k} {
      forall x | x in s.pools ensures !Confusable(x, k, i) {
        assert x in keys;
      }
    }
  }

  /** With every allocated device in a registered pool, the sums agree exactly if no registered pool
      claims an allocated device of another. */
  lemma GroundedSumsAgreeIff(s: Sim)
    requires Valid(s) && Grounded(s)
    ensures SumsAgree(s) <==> NoneConfused(s)
  {
    forall id | id in UsedDevices(s) ensures Leans(s.pools.Keys, [id], true) {
      var k, i, j := GroundedOwner(s, id);
      GroundedClaims(s, id, k, i, j);
    }
    SumsCompare(s, true);
    if NoneConfused(s) {
      forall id | id in UsedDevices(s) ensures |Claimants(s.pools.Keys, id)| == 1 {
        var k, i, j := GroundedOwner(s, id);
        GroundedClaims(s, id, k, i, j);
      }
    }
    if SumsAgree(s) {
      forall k, k', i: nat, j: nat | k in s.pools && k' != "" && DeviceID(k', i, j) in UsedDevices(s)
        ensures !Confusable(k, k', i)
      {
        var id := DeviceID(k', i, j);
        var a, x, y := GroundedOwner(s, id);
        DeviceIDInjective(k', i, j, a, x, y);
        GroundedClaims(s, id, k', i, j);
      }
    }
  }

  lemma SeparateNoneConfused(s: Sim)
    requires Valid(s) && Grounded(s) && Separate(s.pools.Keys)
    ensures NoneConfused(s)
  {
    forall k, k', i: nat, j: nat | k in s.pools && k' != "" && DeviceID(k', i, j) in UsedDevices(s)
      ensures !Confusable(k, k', i)
    {
      var a, x, y := GroundedOwner(s, DeviceID(k', i, j));
      DeviceIDInjective(k', i, j, a, x, y);
      assert k in s.pools.Keys && k' in s.pools.Keys;
    }
  }

  // ---------------------------------------------------------------- which sets of keys can be trusted

  /** Every fleet with these keys whose allocations are grounded has sums that agree. */
  ghost predicate Trusted(keys: set<string>) {
    forall s | Valid(s) && Grounded(s) && s.pools.Keys == keys :: SumsAgree(s)
  }

  lemma DeviceBuilt(spec: PoolSpec, k: string, i: nat, j: nat)
    requires SpecOk(spec) && i < spec.nodeCount && j < spec.devicesPerNode
    ensures DeviceID(k, i, j) in DeviceIDs(BuiltNodes(spec, k))
  {
    var nodes := BuiltNodes(spec, k);
    assert NodeDeviceIDs(nodes[i])[j] == DeviceID(k, i, j);
    assert nodes == nodes[..i] + ([nodes[i]] + nodes[i + 1..]);
    DeviceIDsConcat(nodes[..i], [nodes[i]] + nodes[i + 1..]);
    assert ([nodes[i]] + nodes[i + 1..])[1..] == nodes[i + 1..];
  }

  /** A fleet of minimal pools in which one workload holds device 0 of node `i` of pool `k`. */
  ghost function Witness(keys: set<string>, k: string, i: nat): Sim {
    Sim(map x | x in keys :: BuiltNodes(PoolSpec(i + 1, 1, 1, "", ""), x), map["w" := [DeviceID(k, i, 0)]], map[], 0)
  }

  lemma WitnessIsGrounded(keys: set<string>, k: string, i: nat)
    requires "" !in keys && k in keys
    ensures Valid(Witness(keys, k, i)) && Grounded(Witness(keys, k, i))
    ensures UsedDevices(Witness(keys, k, i)) == {DeviceID(k, i, 0)}
  {
    var s, spec := Witness(keys, k, i), PoolSpec(i + 1, 1, 1, "", "");
    forall x | x in s.pools ensures x != "" && BuiltPool(s.pools[x], x) {
      assert SpecOk(spec) && s.pools[x] == BuiltNodes(spec, x);
    }
    forall id ensures id in UsedDevices(s) <==> id == DeviceID(k, i, 0) {
      assert "w" in s.allocations && DeviceID(k, i, 0) in s.allocations["w"];
      if id in UsedDevices(s) {
        var w :| w in s.allocations && id in s.allocations[w];
        assert w == "w";
      }
    }
    DeviceBuilt(spec, k, i, 0);
    assert k in s.pools && DeviceID(k, i, 0) in DeviceIDs(s.pools[k]);
  }

  /** A set of pool keys can be trusted exactly if no key is a path prefix of another or is spelled
      like a node of another. */
  lemma TrustedIff(keys: set<string>)
    requires "" !in keys
    ensures Trusted(keys) <==> Separate(keys)
  {
    if Separate(keys) {
      forall s | Valid(s) && Grounded(s) && s.pools.Keys == keys ensures SumsAgree(s) {
        SeparateNoneConfused(s);
        GroundedSumsAgreeIff(s);
      }
    }
    if Trusted(keys) {
      forall k, k', i: nat | k in keys && k' in keys ensures !Confusable(k, k', i) {
        var s := Witness(keys, k', i);
        WitnessIsGrounded(keys, k', i);
        assert s.pools.Keys == keys && SumsAgree(s);
        GroundedSumsAgreeIff(s);
        assert DeviceID(k', i, 0) in UsedDevices(s) && k in s.pools;
      }
    }
  }

  // ---------------------------------------------------------------- when owners may be gone

  /** `keys` names every pool that is or was: all that are registered, and the owner of every
      allocated device. */
  ghost predicate Covers(keys: set<string>, s: Sim) {
    && "" !in keys && s.pools.Keys <= keys
    && forall id | id in UsedDevices(s) :: exists k | k in keys :: NamedIn(id, k)
  }

  ghost predicate OwnersRegistered(s: Sim) {
    forall id, k | id in UsedDevices(s) && k != "" && NamedIn(id, k) :: k in s.pools
  }

  lemma SeparateClaims(s: Sim, keys: set<string>, id: string, k: string)
    requires Covers(keys, s) && Separate(keys) && k in keys && NamedIn(id, k)
    ensures Claimants(s.pools.Keys, id) == if k in s.pools then {k} else {}
  {
    var i: nat, j: nat :| id == DeviceID(k, i, j);
    ClaimantsOf(s.pools.Keys, k, i, j);
    assert forall x | x in s.pools.Keys :: x in keys && !Confusable(x, k, i);
  }

  /** Between keys that can be trusted the sums agree exactly as long as the owner of every allocated
      device is still registered, whatever has happened to the pools otherwise. */
  lemma SumsAgreeIff(s: Sim, keys: set<string>)
    requires Covers(keys, s) && Separate(keys)
    ensures SumsAgree(s) <==> OwnersRegistered(s)
  {
    forall id | id in UsedDevices(s) ensures Leans(s.pools.Keys, [id], false) {
      var k :| k in keys && NamedIn(id, k);
      SeparateClaims(s, keys, id, k);
    }
    SumsCompare(s, false);
    if OwnersRegistered(s) {
      forall id | id in UsedDevices(s) ensures |Claimants(s.pools.Keys, id)| == 1 {
        var k :| k in keys && NamedIn(id, k);
        SeparateClaims(s, keys, id, k);
      }
    }
    if SumsAgree(s) {
      forall id, k | id in UsedDevices(s) && k != "" && NamedIn(id, k) ensures k in s.pools {
        var a :| a in keys && NamedIn(id, a);
        OwnerUnique(id, k, a);
        SeparateClaims(s, keys, id, a);
      }
    }
  }

  // ---------------------------------------------------------------- and never exceed the pool

  ghost function IDsFor(ids: seq<string>, k: string): set<string> {
    set id | id in ids && CountsFor(k, id)
  }

  ghost function AllFor(allocations: map<string, seq<string>>, k: string): set<string> {
    set w, id | w in allocations && id in allocations[w] && CountsFor(k, id) :: id
  }

  lemma {:induction false} CountIsSize(ids: seq<string>, k: string)
    requires Distinct(ids)
    ensures CountIn(ids, k) == |IDsFor(ids, k)|
  {
    if ids == [] {
      assert IDsFor(ids, k) == {};
    } else {
      var n := |ids| - 1;
      CountIsSize(ids[..n], k);
      assert ids[n] !in ids[..n];
      assert IDsFor(ids, k) == IDsFor(ids[..n], k) + if CountsFor(k, ids[n]) then {ids[n]} else {};
    }
  }

  lemma AllForSplit(allocations: map<string, seq<string>>, w: string, k: string)
    requires Exclusive(allocations) && w in allocations
    ensures AllFor(allocations, k) == AllFor(allocations - {w}, k) + IDsFor(allocations[w], k)
    ensures AllFor(allocations - {w}, k) !! IDsFor(allocations[w], k)
  {
    var rest := allocations - {w};
    forall id ensures id in AllFor(allocations, k) <==> id in AllFor(rest, k) || id in IDsFor(allocations[w], k) {
      if id in AllFor(allocations, k) {
        var x :| x in allocations && id in allocations[x] && CountsFor(k, id);
        assert x != w ==> x in rest && rest[x] == allocations[x];
      }
      if id in AllFor(rest, k) {
        var x :| x in rest && id in rest[x] && CountsFor(k, id);
        assert allocations[x] == rest[x];
      }
    }
    forall id | id in AllFor(rest, k) ensures id !in IDsFor(allocations[w], k) {
      var x :| x in rest && id in rest[x] && CountsFor(k, id);
      assert allocations[x] == rest[x];
    }
  }

  lemma {:induction false} SumIsSize(allocations: map<string, seq<string>>, k: string)
    requires Exclusive(allocations)
    ensures MapSum(HeldFrom(allocations, k)) == |AllFor(allocations, k)|
    decreases |allocations|
  {
    if allocations == map[] {
      assert HeldFrom(allocations, k) == map[] && AllFor(allocations, k) == {};
    } else {
      var w := AnyKey(allocations);
      var rest := allocations - {w};
      SumIsSize(rest, k);
      CountIsSize(allocations[w], k);
      HeldFromSplit(allocations, w, k);
      AllForSplit(allocations, w, k);
    }
  }

  // ---------------------------------------------------------------- what is available

  /** Allocated devices that bear the pool's name. */
  ghost function UsedOf(s: Sim, k: string): set<string> {
    set id | id in UsedDevices(s) && NamedIn(id, k)
  }

  function DeviceSet(nodes: seq<Node>): set<string> {
    set id | id in DeviceIDs(nodes)
  }

  /** Those of them that the pool no longer has. */
  ghost function Stale(s: Sim, k: string): set<string>
    requires k in s.pools
  {
    UsedOf(s, k) - DeviceSet(s.pools[k])
  }

  /** Devices of the pool that are not allocated. */
  ghost function Free(s: Sim, k: string): set<string>
    requires k in s.pools
  {
    DeviceSet(s.pools[k]) - UsedDevices(s)
  }

  lemma AllocatedIsUsed(s: Sim, keys: set<string>, k: string)
    requires Valid(s) && Covers(keys, s) && Separate(keys) && k in s.pools
    ensures AllocatedFrom(s, k) == |UsedOf(s, k)|
  {
    SumIsSize(s.allocations, k);
    forall id ensures id in AllFor(s.allocations, k) <==> id in UsedOf(s, k) {
      if id in UsedDevices(s) {
        var a :| a in keys && NamedIn(id, a);
        SeparateClaims(s, keys, id, a);
        assert CountsFor(k, id) <==> k in Claimants(s.pools.Keys, id);
        if NamedIn(id, k) {
          OwnerUnique(id, k, a);
        }
      }
    }
    assert AllFor(s.allocations, k) == UsedOf(s, k);
  }

  lemma Balance(all: set<string>, named: set<string>, free: set<string>, stale: set<string>)
    requires free == all - named && stale == named - all
    ensures |all| - |named| == |free| - |stale|
  {
    var both := all * named;
    assert all == both + free && named == both + stale;
    assert |all| == |both| + |free| && |named| == |both| + |stale|;
  }

  lemma FreeIsUnnamed(s: Sim, k: string)
    requires Valid(s) && k in s.pools
    ensures |DeviceSet(s.pools[k])| == |DeviceIDs(s.pools[k])|
    ensures Free(s, k) == DeviceSet(s.pools[k]) - UsedOf(s, k)
  {
    BuiltPoolDistinct(s.pools[k], k);
    DistinctSize(DeviceIDs(s.pools[k]));
    assert forall id | id in DeviceSet(s.pools[k]) :: NamedIn(id, k);
  }

  /** What a pool reports as available is the number of its free devices less the number of allocated
      devices it no longer has. */
  lemma AvailableIs(s: Sim, keys: set<string>, k: string)
    requires Valid(s) && Covers(keys, s) && Separate(keys) && k in s.pools
    ensures |DeviceIDs(s.pools[k])| - AllocatedFrom(s, k) == |Free(s, k)| - |Stale(s, k)|
  {
    AllocatedIsUsed(s, keys, k);
    FreeIsUnnamed(s, k);
    Balance(DeviceSet(s.pools[k]), UsedOf(s, k), Free(s, k), Stale(s, k));
  }

  lemma GroundedIsFresh(s: Sim, k: string)
    requires Valid(s) && Grounded(s) && k in s.pools
    ensures Stale(s, k) == {}
  {
    forall id | id in UsedOf(s, k) ensures id in DeviceIDs(s.pools[k]) {
      var a, i, j := GroundedOwner(s, id);
      assert NamedIn(id, a);
      OwnerUnique(id, k, a);
    }
  }

  lemma GroundedCovered(s: Sim)
    requires Valid(s) && Grounded(s)
    ensures Covers(s.pools.Keys, s) && OwnersRegistered(s)
  {
    forall id | id in UsedDevices(s) ensures exists k | k in s.pools.Keys :: NamedIn(id, k) {
      var k, i, j := GroundedOwner(s, id);
      assert NamedIn(id, k);
    }
    forall id, k | id in UsedDevices(s) && k != "" && NamedIn(id, k) ensures k in s.pools {
      var a, i, j := GroundedOwner(s, id);
      assert NamedIn(id, a);
      OwnerUnique(id, k, a);
    }
  }

  /** Per-pool accounting is exact while allocations are grounded and keys can be trusted: counts add
      up, and each pool reports as available exactly its free devices. */
  lemma AccountingIsExact(s: Sim)
    requires Valid(s) && Grounded(s) && Separate(s.pools.Keys)
    ensures SumsAgree(s)
    ensures forall k | k in s.pools :: |DeviceIDs(s.pools[k])| - AllocatedFrom(s, k) == |Free(s, k)|
  {
    GroundedCovered(s);
    SumsAgreeIff(s, s.pools.Keys);
    forall k | k in s.pools ensures |DeviceIDs(s.pools[k])| - AllocatedFrom(s, k) == |Free(s, k)| {
      AvailableIs(s, s.pools.Keys, k);
      GroundedIsFresh(s, k);
    }
  }

  // ---------------------------------------------------------------- which operations do what

  lemma ReservedFromPool(s: Sim, gpuCount: int, memMiB: int, opts: Options, ids: seq<string>, id: string)
    returns (k: string)
    requires Valid(s) && Reservable(s, gpuCount, memMiB, opts, ids) && id in ids
    ensures k in s.pools && k != "" && id in DeviceIDs(s.pools[k]) && NamedIn(id, k)
  {
    ReservationIsGood(s, gpuCount, memMiB, opts, ids);
    k :| k in s.pools && Offers(s.pools[k], id, UsedDevices(s), memMiB, opts);
    OffersIsRegistered(s.pools[k], id, UsedDevices(s), memMiB, opts);
    BuiltPoolDistinct(s.pools[k], k);
  }

  /** A device in use after an operation was in use before, or was just taken from a registered pool. */
  lemma UsedAfter(s: Sim, op: Op, s': Sim, id: string)
    requires Valid(s) && Step(s, op, s') && id in UsedDevices(s')
    ensures id in UsedDevices(s)
         || (op.Allocate? && s'.pools == s.pools
             && exists k | k in s.pools :: k != "" && id in DeviceIDs(s.pools[k]) && NamedIn(id, k))
  {
    var w :| w in s'.allocations && id in s'.allocations[w];
    if op.Allocate? && s' != s {
      var ids :| Reservable(s, op.gpuCount, op.memMiB, op.opts, ids) && s' == Reserve(s, op.w, ids);
      if w == op.w {
        var k := ReservedFromPool(s, op.gpuCount, op.memMiB, op.opts, ids, id);
      } else {
        assert w in s.allocations && s.allocations[w] == s'.allocations[w];
      }
    } else {
      assert w in s.allocations && s.allocations[w] == s'.allocations[w];
    }
  }

  lemma PoolsAfter(s: Sim, op: Op, s': Sim, k: string)
    requires Step(s, op, s') && k in s.pools && k !in s'.pools
    ensures op == Delete(k) && k != "" && UsedDevices(s') == UsedDevices(s)
  {
  }

  /** Owners stay registered exactly unless the pool of an allocated device is deleted. */
  lemma OwnersStayRegisteredIff(s: Sim, op: Op, s': Sim)
    requires Valid(s) && OwnersRegistered(s) && Step(s, op, s')
    ensures OwnersRegistered(s') <==> (op.Delete? && op.key != "" ==> UsedOf(s, op.key) == {})
  {
    if op.Delete? && op.key != "" && UsedOf(s, op.key) != {} {
      var id :| id in UsedOf(s, op.key);
      assert UsedDevices(s') == UsedDevices(s);
      assert id in UsedDevices(s') && NamedIn(id, op.key) && op.key !in s'.pools;
    } else {
      forall id, k | id in UsedDevices(s') && k != "" && NamedIn(id, k) ensures k in s'.pools {
        UsedAfter(s, op, s', id);
        if id in UsedDevices(s) {
          assert id in UsedOf(s, k) && k in s.pools;
          if k !in s'.pools {
            PoolsAfter(s, op, s', k);
          }
        } else {
          var a :| a in s.pools && a != "" && id in DeviceIDs(s.pools[a]) && NamedIn(id, a);
          OwnerUnique(id, k, a);
        }
      }
    }
  }

  /** Only registering a pool anew can leave it with stale devices that it did not have: those in use
      that the new specification lacks. */
  lemma StaleAfter(s: Sim, op: Op, s': Sim, k: string)
    requires Valid(s) && Step(s, op, s') && k in s.pools && k in s'.pools
    ensures if op.Register? && SpecOk(op.spec) && CanonicalKey(op.key) == k
            then Stale(s', k) == UsedOf(s, k) - DeviceSet(BuiltNodes(op.spec, k))
            else Stale(s', k) <= Stale(s, k)
  {
    if op.Register? && SpecOk(op.spec) && CanonicalKey(op.key) == k {
      assert UsedDevices(s') == UsedDevices(s);
    } else {
      assert s'.pools[k] == s.pools[k];
      forall id | id in Stale(s', k) ensures id in Stale(s, k) {
        UsedAfter(s, op, s', id);
        if id !in UsedDevices(s) {
          var a :| a in s.pools && a != "" && id in DeviceIDs(s.pools[a]) && NamedIn(id, a);
          OwnerUnique(id, k, a);
        }
      }
    }
  }

  // ---------------------------------------------------------------- over whole traces

  lemma {:induction false} TraceCovered(states: seq<Sim>, ops: seq<Op>, n: nat, keys: set<string>)
    requires IsTrace(states, ops) && n < |states| && "" !in keys
    requires forall i | 0 <= i < |ops| && ops[i].Register? :: CanonicalKey(ops[i].key) in keys
    ensures Covers(keys, states[n])
  {
    if n > 0 {
      TraceCovered(states, ops, n - 1, keys);
      TraceStaysValid(states, ops, n - 1);
      CoveredAfter(states[n - 1], ops[n - 1], states[n], keys);
    }
  }

  lemma CoveredAfter(s: Sim, op: Op, s': Sim, keys: set<string>)
    requires Valid(s) && Covers(keys, s) && Step(s, op, s')
    requires op.Register? ==> CanonicalKey(op.key) in keys
    ensures Covers(keys, s')
  {
    forall id | id in UsedDevices(s') ensures exists k | k in keys :: NamedIn(id, k) {
      UsedAfter(s, op, s', id);
      if id !in UsedDevices(s) {
        var k :| k in s.pools && k != "" && id in DeviceIDs(s.pools[k]) && NamedIn(id, k);
        assert k in keys;
      }
    }
  }

  /** In every state of every sequence of operations on pools whose keys can be trusted: the sums agree
      exactly while owners are registered, and availability is free less stale. */
  lemma TraceCounts(states: seq<Sim>, ops: seq<Op>, n: nat, keys: set<string>)
    requires IsTrace(states, ops) && n < |states| && "" !in keys && Separate(keys)
    requires forall i | 0 <= i < |ops| && ops[i].Register? :: CanonicalKey(ops[i].key) in keys
    ensures SumsAgree(states[n]) <==> OwnersRegistered(states[n])
    ensures forall k | k in states[n].pools ::
              |DeviceIDs(states[n].pools[k])| - AllocatedFrom(states[n], k)
                == |Free(states[n], k)| - |Stale(states[n], k)|
  {
    TraceCovered(states, ops, n, keys);
    TraceStaysValid(states, ops, n);
    SumsAgreeIff(states[n], keys);
    forall k | k in states[n].pools
      ensures |DeviceIDs(states[n].pools[k])| - AllocatedFrom(states[n], k)
        == |Free(states[n], k)| - |Stale(states[n], k)|
    {
      AvailableIs(states[n], keys, k);
    }
  }

  /** And if no operation takes an allocated device away, accounting is exact in every state. */
  lemma TraceAccountingIsExact(states: seq<Sim>, ops: seq<Op>, n: nat)
    requires IsTrace(states, ops) && n < |states|
    requires forall i | 0 <= i < |ops| :: KeepsDevices(states[i], ops[i])
    requires forall i | 0 <= i < |ops| && ops[i].Register? :: WellFormedKey(CanonicalKey(ops[i].key))
    ensures SumsAgree(states[n])
    ensures forall k | k in states[n].pools ::
              |DeviceIDs(states[n].pools[k])| - AllocatedFrom(states[n], k) == |Free(states[n], k)|
  {
    var keys := set i | 0 <= i < |ops| && ops[i].Register? :: CanonicalKey(ops[i].key);
    forall k | k in keys ensures WellFormedKey(k) && k != "" {
      WellFormedNotEmpty(k);
    }
    WellFormedSeparate(keys);
    TraceStaysGrounded(states, ops, n);
    TraceCovered(states, ops, n, keys);
    assert Separate(states[n].pools.Keys);
    AccountingIsExact(states[n]);
  }
}
