/** Device placement of internal/sim/contract.go: pickDevices and the four policies. */
module Placement {
  import opened Sequences

  /** A node with the identifiers of its eligible free devices. */
  datatype NodeDevices = NodeDevices(nodeID: string, deviceIDs: seq<string>)

  datatype Policy = FirstFit | Pack | Spread | LocalityAware | UnknownPolicy(name: string)

  datatype Picked = Devices(ids: seq<string>) | NoSingleNode | PolicyUnknown

  function Size(n: NodeDevices): int { |n.deviceIDs| }

  function Flatten(nodes: seq<NodeDevices>): seq<string> {
    if nodes == [] then [] else nodes[0].deviceIDs + Flatten(nodes[1..])
  }

  function NonEmpty(nodes: seq<NodeDevices>): seq<NodeDevices> {
    if nodes == [] then []
    else if nodes[0].deviceIDs != [] then [nodes[0]] + NonEmpty(nodes[1..])
    else NonEmpty(nodes[1..])
  }

  /** At most `maxNodes` nodes; 0 means no limit. */
  function Limit(nodes: seq<NodeDevices>, maxNodes: int): seq<NodeDevices> {
    if 0 < maxNodes < |nodes| then nodes[..maxNodes] else nodes
  }

  /** The nodes a policy that goes through them in order may use. */
  function Kept(nodes: seq<NodeDevices>, maxNodes: int): seq<NodeDevices> {
    Limit(NonEmpty(nodes), maxNodes)
  }

  function UpTo(ids: seq<string>, need: nat): seq<string> {
    if need <= |ids| then ids[..need] else ids
  }

  /** No device appears twice, on one node or on two. */
  ghost predicate Unshared(nodes: seq<NodeDevices>) {
    Distinct(Flatten(nodes))
  }

  // ---------------------------------------------------------------- flattening

  lemma {:induction false} FlattenConcat(a: seq<NodeDevices>, b: seq<NodeDevices>)
    ensures Flatten(a + b) == Flatten(a) + Flatten(b)
  {
    if a == [] {
      assert a + b == b;
    } else {
      assert (a + b)[1..] == a[1..] + b;
      FlattenConcat(a[1..], b);
    }
  }

  lemma FlattenOne(n: NodeDevices)
    ensures Flatten([n]) == n.deviceIDs
  {
    assert Flatten([n][1..]) == [];
  }

  lemma {:induction false} FlattenSize(nodes: seq<NodeDevices>)
    ensures |Flatten(nodes)| == SumBy(nodes, Size)
  {
    if nodes != [] {
      FlattenSize(nodes[1..]);
    }
  }

  lemma {:induction false} InFlatten(nodes: seq<NodeDevices>, id: string) returns (i: nat)
    requires id in Flatten(nodes)
    ensures i < |nodes| && id in nodes[i].deviceIDs
  {
    if id in nodes[0].deviceIDs {
      i := 0;
    } else {
      var k := InFlatten(nodes[1..], id);
      i := k + 1;
    }
  }

  lemma FlattenSplit(nodes: seq<NodeDevices>, i: nat)
    requires i < |nodes|
    ensures Flatten(nodes) == Flatten(nodes[..i]) + nodes[i].deviceIDs + Flatten(nodes[i + 1..])
  {
    var tail := nodes[i..];
    assert nodes == nodes[..i] + tail;
    FlattenConcat(nodes[..i], tail);
    assert tail[0] == nodes[i] && tail[1..] == nodes[i + 1..];
    assert Flatten(nodes[..i]) + nodes[i].deviceIDs + Flatten(nodes[i + 1..])
        == Flatten(nodes[..i]) + (nodes[i].deviceIDs + Flatten(nodes[i + 1..]));
  }

  lemma FlattenWithout(nodes: seq<NodeDevices>, i: nat)
    requires i < |nodes|
    ensures multiset(Flatten(nodes)) == multiset(Flatten(Without(nodes, i))) + multiset(nodes[i].deviceIDs)
  {
    FlattenSplit(nodes, i);
    FlattenConcat(nodes[..i], nodes[i + 1..]);
  }

  /** The devices of some of the nodes are some of the devices. */
  lemma {:induction false} FlattenWithin(k: seq<NodeDevices>, nodes: seq<NodeDevices>)
    requires Within(k, nodes)
    ensures Within(Flatten(k), Flatten(nodes))
    decreases |k|
  {
    if k != [] {
      assert k[0] in multiset(k);
      var i := IndexOf(nodes, k[0]);
      WithoutFacts(nodes, i, Size);
      FlattenWithout(nodes, i);
      HeadAndTail(k);
      assert multiset(Without(nodes, i)) == multiset(nodes) - multiset{k[0]};
      FlattenWithin(k[1..], Without(nodes, i));
    }
  }

  lemma FlattenPermuted(a: seq<NodeDevices>, b: seq<NodeDevices>)
    requires multiset(a) == multiset(b)
    ensures multiset(Flatten(a)) == multiset(Flatten(b))
  {
    FlattenWithin(a, b);
    FlattenWithin(b, a);
  }

  lemma {:induction false} FlattenNonEmpty(nodes: seq<NodeDevices>)
    ensures Flatten(NonEmpty(nodes)) == Flatten(nodes)
    ensures Within(NonEmpty(nodes), nodes)
  {
    if nodes != [] {
      HeadAndTail(nodes);
      FlattenNonEmpty(nodes[1..]);
    }
  }

  lemma KeptWithin(nodes: seq<NodeDevices>, maxNodes: int)
    ensures Within(Kept(nodes, maxNodes), nodes)
    ensures maxNodes > 0 ==> |Kept(nodes, maxNodes)| <= maxNodes
    ensures maxNodes <= 0 ==> Flatten(Kept(nodes, maxNodes)) == Flatten(nodes)
  {
    FlattenNonEmpty(nodes);
    var all := NonEmpty(nodes);
    if 0 < maxNodes < |all| {
      assert all == all[..maxNodes] + all[maxNodes..];
    }
  }

  lemma UpToWithin(ids: seq<string>, need: nat)
    ensures Within(UpTo(ids, need), ids)
  {
    if need <= |ids| {
      assert ids == ids[..need] + ids[need..];
    }
  }

  // ---------------------------------------------------------------- nodes a placement touches

  ghost predicate Touches(n: NodeDevices, ids: seq<string>) {
    exists id :: id in n.deviceIDs && id in ids
  }

  ghost function TouchedNodes(nodes: seq<NodeDevices>, ids: seq<string>): seq<NodeDevices> {
    if nodes == [] then []
    else if Touches(nodes[0], ids) then [nodes[0]] + TouchedNodes(nodes[1..], ids)
    else TouchedNodes(nodes[1..], ids)
  }

  /** How many nodes a placement uses. */
  ghost function NodesUsed(nodes: seq<NodeDevices>, ids: seq<string>): nat {
    |TouchedNodes(nodes, ids)|
  }

  lemma {:induction false} TouchedCounts(nodes: seq<NodeDevices>, ids: seq<string>, n: NodeDevices)
    ensures multiset(TouchedNodes(nodes, ids))[n] == if Touches(n, ids) then multiset(nodes)[n] else 0
  {
    if nodes != [] {
      HeadAndTail(nodes);
      TouchedCounts(nodes[1..], ids, n);
    }
  }

  lemma OwnedTwice(nodes: seq<NodeDevices>, a: nat, b: nat, id: string)
    requires a < b < |nodes| && id in nodes[a].deviceIDs && id in nodes[b].deviceIDs
    ensures multiset(Flatten(nodes))[id] >= 2
  {
    FlattenSplit(nodes, b);
    FlattenSplit(nodes[..b], a);
    assert id in Flatten(nodes[..b]);
    assert id in multiset(Flatten(nodes[..b])) && id in multiset(nodes[b].deviceIDs);
  }

  /** A device belongs to one node only. */
  lemma OwnerUnique(nodes: seq<NodeDevices>, i: nat, j: nat, id: string)
    requires Unshared(nodes) && i < |nodes| && j < |nodes|
    requires id in nodes[i].deviceIDs && id in nodes[j].deviceIDs
    ensures i == j
  {
    DistinctCounts(Flatten(nodes));
    if i < j {
      OwnedTwice(nodes, i, j, id);
    } else if j < i {
      OwnedTwice(nodes, j, i, id);
    }
  }

  lemma {:induction false} OccursTwice<T>(s: seq<T>, x: T) returns (i: nat, j: nat)
    requires multiset(s)[x] >= 2
    ensures i < j < |s| && s[i] == s[j] == x
  {
    HeadAndTail(s);
    if s[0] == x {
      assert x in multiset(s[1..]);
      var k := IndexOf(s[1..], x);
      i, j := 0, k + 1;
    } else {
      i, j := OccursTwice(s[1..], x);
      i, j := i + 1, j + 1;
    }
  }

  /** A placement drawn from some of the nodes uses no more than those. */
  lemma UsesOnly(nodes: seq<NodeDevices>, k: seq<NodeDevices>, ids: seq<string>)
    requires Unshared(nodes) && Within(k, nodes)
    requires forall id | id in ids :: id in Flatten(k)
    ensures NodesUsed(nodes, ids) <= |k|
  {
    forall n ensures multiset(TouchedNodes(nodes, ids))[n] <= multiset(k)[n] {
      TouchedCounts(nodes, ids, n);
      if Touches(n, ids) && n in multiset(nodes) {
        var id :| id in n.deviceIDs && id in ids;
        TouchedIsKept(nodes, k, n, id);
      }
    }
    WithinSize(TouchedNodes(nodes, ids), k);
  }

  lemma TouchedIsKept(nodes: seq<NodeDevices>, k: seq<NodeDevices>, n: NodeDevices, id: string)
    requires Unshared(nodes) && Within(k, nodes) && n in multiset(nodes)
    requires id in n.deviceIDs && id in Flatten(k)
    ensures multiset(nodes)[n] <= multiset(k)[n]
  {
    var a := InFlatten(k, id);
    WithinMembers(k, nodes, k[a]);
    var i := IndexOf(nodes, n);
    var j := IndexOf(nodes, k[a]);
    OwnerUnique(nodes, i, j, id);
    assert k[a] == n && n in multiset(k);
    if multiset(nodes)[n] >= 2 {
      var p, q := OccursTwice(nodes, n);
      OwnerUnique(nodes, p, q, id);
    }
  }

  /** The nodes a placement uses hold at least as many devices as it has. */
  lemma UsedNodesSuffice(nodes: seq<NodeDevices>, ids: seq<string>)
    requires Distinct(ids) && forall id | id in ids :: id in Flatten(nodes)
    ensures |ids| <= SumBy(TouchedNodes(nodes, ids), Size)
    ensures Within(TouchedNodes(nodes, ids), nodes)
  {
    var used := TouchedNodes(nodes, ids);
    forall n ensures multiset(used)[n] <= multiset(nodes)[n] {
      TouchedCounts(nodes, ids, n);
    }
    forall id | id in ids ensures id in Flatten(used) {
      var i := InFlatten(nodes, id);
      var n := nodes[i];
      assert Touches(n, ids) && n in multiset(nodes);
      TouchedCounts(nodes, ids, n);
      assert n in multiset(used);
      var j := IndexOf(used, n);
      FlattenSplit(used, j);
    }
    SubsetSize(ids, Flatten(used));
    FlattenSize(used);
  }

  lemma SubsetSize(a: seq<string>, b: seq<string>)
    requires Distinct(a) && forall x | x in a :: x in b
    ensures |a| <= |b|
  {
    forall x ensures multiset(a)[x] <= multiset(b)[x] {
      DistinctCounts(a);
      if x in multiset(a) {
        assert x in a;
      }
    }
    WithinSize(a, b);
  }

  // ---------------------------------------------------------------- first fit

  lemma {:induction false} NonEmptySnoc(nodes: seq<NodeDevices>, n: NodeDevices)
    ensures NonEmpty(nodes + [n]) == NonEmpty(nodes) + if n.deviceIDs != [] then [n] else []
  {
    if nodes == [] {
      assert nodes + [n] == [n];
      assert NonEmpty([n][1..]) == [];
    } else {
      assert (nodes + [n])[1..] == nodes[1..] + [n];
      NonEmptySnoc(nodes[1..], n);
    }
  }

  lemma {:induction false} NonEmptyPrefix(nodes: seq<NodeDevices>, i: nat)
    requires i <= |nodes|
    ensures NonEmpty(nodes[..i]) <= NonEmpty(nodes)
    decreases |nodes| - i
  {
    if i < |nodes| {
      NonEmptyPrefix(nodes, i + 1);
      assert nodes[..i + 1] == nodes[..i] + [nodes[i]];
      NonEmptySnoc(nodes[..i], nodes[i]);
    } else {
      assert nodes[..i] == nodes;
    }
  }

  lemma FlattenPrefix(a: seq<NodeDevices>, b: seq<NodeDevices>)
    requires a <= b
    ensures Flatten(a) <= Flatten(b)
  {
    assert b == a + b[|a|..];
    FlattenConcat(a, b[|a|..]);
  }

  method SelectFirstFit(perNode: seq<NodeDevices>, need: nat, maxNodes: int) returns (out: seq<string>)
    requires need > 0
    ensures out == UpTo(Flatten(Kept(perNode, maxNodes)), need)
  {
    out := [];
    var usedNodes := 0;
    ghost var kept := Kept(perNode, maxNodes);
    for i := 0 to |perNode|
      invariant usedNodes == |NonEmpty(perNode[..i])|
      invariant maxNodes > 0 ==> usedNodes <= maxNodes
      invariant out == Flatten(NonEmpty(perNode[..i])) && |out| < need
    {
      var n := perNode[i];
      assert perNode[..i + 1] == perNode[..i] + [n];
      NonEmptySnoc(perNode[..i], n);
      NonEmptyPrefix(perNode, i);
      NonEmptyPrefix(perNode, i + 1);
      if |n.deviceIDs| == 0 {
        assert n.deviceIDs == [];
        assert NonEmpty(perNode[..i]) + [] == NonEmpty(perNode[..i]);
        continue;
      }
      if maxNodes > 0 && usedNodes >= maxNodes {
        assert NonEmpty(perNode[..i]) == kept;
        return;
      }
      usedNodes := usedNodes + 1;
      ghost var before := out;
      ghost var now := NonEmpty(perNode[..i + 1]);
      FlattenConcat(NonEmpty(perNode[..i]), [n]);
      FlattenOne(n);
      assert now <= kept;
      FlattenPrefix(now, kept);
      for j := 0 to |n.deviceIDs|
        invariant out == before + n.deviceIDs[..j] && |out| < need
      {
        assert n.deviceIDs[..j + 1] == n.deviceIDs[..j] + [n.deviceIDs[j]];
        out := out + [n.deviceIDs[j]];
        if |out| == need {
          assert out == Flatten(now)[..need];
          return;
        }
      }
      assert n.deviceIDs[..|n.deviceIDs|] == n.deviceIDs;
    }
    assert perNode[..|perNode|] == perNode;
  }

  // ---------------------------------------------------------------- pack

  predicate MoreDevices(a: NodeDevices, b: NodeDevices) {
    |a.deviceIDs| > |b.deviceIDs|
  }

  lemma MoreDevicesIsOrder()
    ensures StrictWeakOrder(MoreDevices)
  {
  }

  function Packed(perNode: seq<NodeDevices>): seq<NodeDevices> {
    StableSort(perNode, MoreDevices)
  }

  lemma PackedFacts(perNode: seq<NodeDevices>)
    ensures Descending(Packed(perNode), Size)
    ensures multiset(Packed(perNode)) == multiset(perNode)
    ensures |Packed(perNode)| == |perNode|
  {
    MoreDevicesIsOrder();
    SortSorts(perNode, MoreDevices);
    SortPermutes(perNode, MoreDevices);
  }

  method SelectPack(perNode: seq<NodeDevices>, need: nat, maxNodes: int) returns (out: seq<string>)
    requires need > 0
    ensures out == UpTo(Flatten(Kept(Packed(perNode), maxNodes)), need)
  {
    var nodes := StableSort(perNode, MoreDevices);
    out := SelectFirstFit(nodes, need, maxNodes);
  }

  /** Among nodes in descending size the empty ones come last, so dropping them changes nothing. */
  lemma {:induction false} DescendingNonEmpty(nodes: seq<NodeDevices>)
    requires Descending(nodes, Size)
    ensures NonEmpty(nodes) <= nodes
    ensures |NonEmpty(nodes)| < |nodes| ==> nodes[|NonEmpty(nodes)|].deviceIDs == []
  {
    if nodes != [] {
      if nodes[0].deviceIDs == [] {
        forall n | n in nodes ensures n.deviceIDs == [] {
          var j := IndexOf(nodes, n);
          assert j > 0 ==> Size(nodes[0]) >= Size(nodes[j]);
        }
        AllEmpty(nodes);
      } else {
        DescendingNonEmpty(nodes[1..]);
      }
    }
  }

  lemma {:induction false} AllEmpty(nodes: seq<NodeDevices>)
    requires forall n | n in nodes :: n.deviceIDs == []
    ensures Flatten(nodes) == [] && NonEmpty(nodes) == []
  {
    if nodes != [] {
      assert nodes[0].deviceIDs == [];
      AllEmpty(nodes[1..]);
    }
  }

  /** How many nodes a limit lets through. */
  function Allowed(n: nat, maxNodes: int): nat {
    if 0 < maxNodes < n then maxNodes else n
  }

  lemma PackedKept(perNode: seq<NodeDevices>, maxNodes: int)
    ensures Flatten(Kept(Packed(perNode), maxNodes))
         == Flatten(Packed(perNode)[..Allowed(|Packed(perNode)|, maxNodes)])
  {
    var sorted := Packed(perNode);
    PackedFacts(perNode);
    DescendingNonEmpty(sorted);
    var full := NonEmpty(sorted);
    var k := Allowed(|sorted|, maxNodes);
    if |full| < k {
      assert Kept(sorted, maxNodes) == full;
      assert sorted[..k] == full + sorted[|full|..k];
      FlattenConcat(full, sorted[|full|..k]);
      forall n | n in sorted[|full|..k] ensures n.deviceIDs == [] {
        var j := IndexOf(sorted[|full|..k], n);
        assert j > 0 ==> Size(sorted[|full|]) >= Size(sorted[|full| + j]);
      }
      AllEmpty(sorted[|full|..k]);
    } else {
      assert Kept(sorted, maxNodes) == sorted[..k];
    }
  }

  /** Some choice of at most `k` nodes holds `need` devices. */
  ghost predicate Holdable(perNode: seq<NodeDevices>, need: int, k: nat) {
    exists t :: Holds(perNode, t, need, k)
  }

  ghost predicate Holds(perNode: seq<NodeDevices>, t: seq<NodeDevices>, need: int, k: nat) {
    Within(t, perNode) && |t| <= k && SumBy(t, Size) >= need
  }

  lemma PrefixHolds(perNode: seq<NodeDevices>, need: int, k: nat)
    requires k <= |Packed(perNode)| && SumBy(Packed(perNode)[..k], Size) >= need
    ensures Holdable(perNode, need, k)
  {
    var sorted := Packed(perNode);
    PackedFacts(perNode);
    assert sorted == sorted[..k] + sorted[k..];
    assert Holds(perNode, sorted[..k], need, k);
  }

  lemma PrefixHoldsMost(perNode: seq<NodeDevices>, need: int, k: nat, t: seq<NodeDevices>)
    requires k <= |Packed(perNode)| && Holds(perNode, t, need, k)
    ensures SumBy(Packed(perNode)[..k], Size) >= need
  {
    var sorted := Packed(perNode);
    PackedFacts(perNode);
    TopSum(sorted, t, Size);
    assert sorted[..k] == sorted[..|t|] + sorted[|t|..k];
    SumByConcat(sorted[..|t|], sorted[|t|..k], Size);
    SumByNonNegative(sorted[|t|..k], Size);
  }

  lemma TopHolds(perNode: seq<NodeDevices>, need: int, k: nat)
    requires k <= |perNode|
    ensures |Packed(perNode)| == |perNode|
    ensures Holdable(perNode, need, k) <==> SumBy(Packed(perNode)[..k], Size) >= need
  {
    PackedFacts(perNode);
    if SumBy(Packed(perNode)[..k], Size) >= need {
      PrefixHolds(perNode, need, k);
    }
    if Holdable(perNode, need, k) {
      var t :| Holds(perNode, t, need, k);
      PrefixHoldsMost(perNode, need, k, t);
    }
  }

  /** Pack finds a placement whenever the limit permits one at all. */
  lemma PackSucceedsIff(perNode: seq<NodeDevices>, need: nat, maxNodes: int)
    ensures |UpTo(Flatten(Kept(Packed(perNode), maxNodes)), need)| == need
       <==> Holdable(perNode, need, Allowed(|perNode|, maxNodes))
  {
    var k := Allowed(|perNode|, maxNodes);
    PackedFacts(perNode);
    PackedKept(perNode, maxNodes);
    FlattenSize(Packed(perNode)[..k]);
    TopHolds(perNode, need, k);
  }

  lemma PackedPrefix(perNode: seq<NodeDevices>, need: nat, maxNodes: int, m: nat)
    requires m <= Allowed(|perNode|, maxNodes)
    requires |Packed(perNode)| == |perNode| && SumBy(Packed(perNode)[..m], Size) >= need
    ensures UpTo(Flatten(Kept(Packed(perNode), maxNodes)), need) == UpTo(Flatten(Packed(perNode)[..m]), need)
  {
    var k := Allowed(|perNode|, maxNodes);
    PackedKept(perNode, maxNodes);
    FlattenSize(Packed(perNode)[..m]);
    FlattenPrefix(Packed(perNode)[..m], Packed(perNode)[..k]);
  }

  /** And no placement of the same size uses fewer nodes. */
  lemma PackIsOptimal(perNode: seq<NodeDevices>, need: nat, maxNodes: int, out: seq<string>, other: seq<string>)
    requires Unshared(perNode)
    requires out == UpTo(Flatten(Kept(Packed(perNode), maxNodes)), need) && |out| == need
    requires Distinct(other) && |other| == need && forall id | id in other :: id in Flatten(perNode)
    ensures NodesUsed(perNode, out) <= NodesUsed(perNode, other)
  {
    UsedNodesSuffice(perNode, other);
    var t := TouchedNodes(perNode, other);
    WithinSize(t, perNode);
    PackedFacts(perNode);
    assert Holds(perNode, t, need, |t|);
    TopHolds(perNode, need, |t|);
    PackUsesAtMost(perNode, need, maxNodes, out, |t|);
  }

  lemma PackUsesAtMost(perNode: seq<NodeDevices>, need: nat, maxNodes: int, out: seq<string>, m: nat)
    requires Unshared(perNode)
    requires out == UpTo(Flatten(Kept(Packed(perNode), maxNodes)), need)
    requires m <= |perNode| == |Packed(perNode)| && SumBy(Packed(perNode)[..m], Size) >= need
    ensures NodesUsed(perNode, out) <= m
  {
    var sorted := Packed(perNode);
    var k := Allowed(|perNode|, maxNodes);
    PackedFacts(perNode);
    var top := if m <= k then m else k;
    assert sorted == sorted[..top] + sorted[top..];
    if m <= k {
      PackedPrefix(perNode, need, maxNodes, m);
    } else {
      PackedKept(perNode, maxNodes);
    }
    UpToWithin(Flatten(sorted[..top]), need);
    forall id | id in out ensures id in Flatten(sorted[..top]) {
      WithinMembers(out, Flatten(sorted[..top]), id);
    }
    UsesOnly(perNode, sorted[..top], out);
  }

  // ---------------------------------------------------------------- spread

  /** `idx` counts devices taken from each node. */
  ghost predicate Counts(nodes: seq<NodeDevices>, idx: seq<nat>) {
    |idx| == |nodes| && forall i | 0 <= i < |nodes| :: idx[i] <= |nodes[i].deviceIDs|
  }

  /** The first `idx[i]` devices of each node. */
  ghost function Taken(nodes: seq<NodeDevices>, idx: seq<nat>): multiset<string>
    requires Counts(nodes, idx)
  {
    if nodes == [] then multiset{}
    else multiset(nodes[0].deviceIDs[..idx[0]]) + Taken(nodes[1..], idx[1..])
  }

  /** Per-node counts differ by at most one unless the lower node is exhausted. */
  ghost predicate Balanced(nodes: seq<NodeDevices>, idx: seq<nat>)
    requires |idx| == |nodes|
  {
    forall i, j | 0 <= i < |nodes| && 0 <= j < |nodes| && idx[j] < |nodes[j].deviceIDs| :: idx[i] <= idx[j] + 1
  }

  /** `out` takes the first `idx[i]` devices of node `i`, in balance. */
  ghost predicate SpreadOver(nodes: seq<NodeDevices>, idx: seq<nat>, out: seq<string>) {
    && Counts(nodes, idx)
    && multiset(out) == Taken(nodes, idx)
    && Balanced(nodes, idx)
  }

  lemma OneMore(ids: seq<string>, n: nat)
    requires n < |ids|
    ensures multiset(ids[..n + 1]) == multiset(ids[..n]) + multiset{ids[n]}
  {
    assert ids[..n + 1] == ids[..n] + [ids[n]];
  }

  lemma {:induction false} TakenNext(nodes: seq<NodeDevices>, idx: seq<nat>, idx': seq<nat>, i: nat)
    requires Counts(nodes, idx) && i < |nodes| && idx[i] < |nodes[i].deviceIDs| && idx' == idx[i := idx[i] + 1]
    ensures Counts(nodes, idx') && Taken(nodes, idx') == Taken(nodes, idx) + multiset{nodes[i].deviceIDs[idx[i]]}
  {
    if i == 0 {
      OneMore(nodes[0].deviceIDs, idx[0]);
      assert idx'[1..] == idx[1..];
    } else {
      TakenNext(nodes[1..], idx[1..], idx'[1..], i - 1);
    }
  }

  lemma {:induction false} TakenWithin(nodes: seq<NodeDevices>, idx: seq<nat>)
    requires Counts(nodes, idx)
    ensures Taken(nodes, idx) <= multiset(Flatten(nodes))
  {
    if nodes != [] {
      TakenWithin(nodes[1..], idx[1..]);
      assert nodes[0].deviceIDs == nodes[0].deviceIDs[..idx[0]] + nodes[0].deviceIDs[idx[0]..];
    }
  }

  /** All devices of every node are all there are. */
  lemma {:induction false} TakenAll(nodes: seq<NodeDevices>, idx: seq<nat>)
    requires |idx| == |nodes| && forall k | 0 <= k < |nodes| :: idx[k] == |nodes[k].deviceIDs|
    ensures Taken(nodes, idx) == multiset(Flatten(nodes))
  {
    if nodes != [] {
      TakenAll(nodes[1..], idx[1..]);
      assert nodes[0].deviceIDs[..idx[0]] == nodes[0].deviceIDs;
    }
  }

  lemma {:induction false} TakenNone(nodes: seq<NodeDevices>, idx: seq<nat>)
    requires |idx| == |nodes| && forall k | 0 <= k < |nodes| :: idx[k] == 0
    ensures Taken(nodes, idx) == multiset{}
  {
    if nodes != [] {
      TakenNone(nodes[1..], idx[1..]);
    }
  }

  /** In the middle of round `r`, with the first `i` nodes visited. */
  ghost predicate MidRound(nodes: seq<NodeDevices>, idx: seq<nat>, r: nat, i: nat)
    requires |idx| == |nodes|
  {
    forall k | 0 <= k < |nodes| ::
      var rounds := if k < i then r + 1 else r;
      idx[k] == if rounds <= |nodes[k].deviceIDs| then rounds else |nodes[k].deviceIDs|
  }

  lemma MidRoundBalanced(nodes: seq<NodeDevices>, idx: seq<nat>, r: nat, i: nat)
    requires |idx| == |nodes| && MidRound(nodes, idx, r, i)
    ensures Balanced(nodes, idx)
  {
  }

  /** The `r`-th device of each node that has one, in node order. */
  function Row(nodes: seq<NodeDevices>, r: nat): seq<string> {
    if nodes == [] then []
    else
      var n := |nodes| - 1;
      Row(nodes[..n], r) + if r < |nodes[n].deviceIDs| then [nodes[n].deviceIDs[r]] else []
  }

  /** The first `rounds` rows. */
  function Rows(nodes: seq<NodeDevices>, rounds: nat): seq<string> {
    if rounds == 0 then [] else Rows(nodes, rounds - 1) + Row(nodes, rounds - 1)
  }

  lemma RowSnoc(nodes: seq<NodeDevices>, i: nat, r: nat)
    requires i < |nodes|
    ensures Row(nodes[..i + 1], r)
         == Row(nodes[..i], r) + if r < |nodes[i].deviceIDs| then [nodes[i].deviceIDs[r]] else []
  {
    assert nodes[..i + 1][..i] == nodes[..i];
  }

  lemma {:induction false} RowStarts(nodes: seq<NodeDevices>, i: nat, r: nat)
    requires i <= |nodes|
    ensures Row(nodes[..i], r) <= Row(nodes, r)
    decreases |nodes| - i
  {
    if i == |nodes| {
      assert nodes[..i] == nodes;
    } else {
      RowSnoc(nodes, i, r);
      RowStarts(nodes, i + 1, r);
    }
  }

  lemma {:induction false} RowsGrow(nodes: seq<NodeDevices>, r: nat, s: nat)
    requires r <= s
    ensures Rows(nodes, r) <= Rows(nodes, s)
    decreases s
  {
    if r < s {
      RowsGrow(nodes, r, s - 1);
    }
  }

  ghost predicate Spent(nodes: seq<NodeDevices>, r: nat) {
    forall n | n in nodes :: |n.deviceIDs| <= r
  }

  lemma {:induction false} SpentRow(nodes: seq<NodeDevices>, r: nat)
    requires Spent(nodes, r)
    ensures Row(nodes, r) == []
  {
    if nodes != [] {
      SpentRow(nodes[..|nodes| - 1], r);
    }
  }

  lemma SpentStays(nodes: seq<NodeDevices>, r: nat, s: nat)
    requires Spent(nodes, r) && r <= s
    ensures Spent(nodes, s)
  {
  }

  lemma EmptyRow(nodes: seq<NodeDevices>, r: nat)
    requires Spent(nodes, r)
    ensures Rows(nodes, r + 1) == Rows(nodes, r)
  {
    SpentRow(nodes, r);
    assert Rows(nodes, r) + [] == Rows(nodes, r);
  }

  lemma {:induction false} SpentRows(nodes: seq<NodeDevices>, r: nat, more: nat)
    requires Spent(nodes, r)
    ensures Rows(nodes, r + more) == Rows(nodes, r)
    decreases more
  {
    if more > 0 {
      EmptyRow(nodes, r);
      SpentStays(nodes, r, r + 1);
      SpentRows(nodes, r + 1, more - 1);
    }
  }

  /** Device after device, round after round, until `need` or no more. */
  function SpreadOrder(nodes: seq<NodeDevices>, need: nat): seq<string> {
    UpTo(Rows(nodes, need), need)
  }

  lemma FullSpread(nodes: seq<NodeDevices>, need: nat, r: nat, i: nat, out: seq<string>)
    requires InOrder(nodes, r, i, out) && r < need == |out|
    ensures out == SpreadOrder(nodes, need)
  {
    RowStarts(nodes, i, r);
    assert out <= Rows(nodes, r + 1);
    RowsGrow(nodes, r + 1, need);
  }

  lemma ShortSpread(nodes: seq<NodeDevices>, need: nat, r: nat, out: seq<string>)
    requires Spent(nodes, r) && r <= need && out == Rows(nodes, r) && |out| < need
    ensures out == SpreadOrder(nodes, need)
  {
    SpentRows(nodes, r, need - r);
  }

  method SelectSpread(perNode: seq<NodeDevices>, need: nat, maxNodes: int)
    returns (out: seq<string>, ghost idx': seq<nat>)
    requires need > 0
    ensures out == SpreadOrder(Kept(perNode, maxNodes), need)
    ensures SpreadOver(Kept(perNode, maxNodes), idx', out)
    ensures |out| < need ==> multiset(out) == multiset(Flatten(Kept(perNode, maxNodes)))
  {
    var nodes: seq<NodeDevices> := [];
    for i := 0 to |perNode|
      invariant nodes == NonEmpty(perNode[..i])
    {
      assert perNode[..i + 1] == perNode[..i] + [perNode[i]];
      NonEmptySnoc(perNode[..i], perNode[i]);
      if |perNode[i].deviceIDs| > 0 {
        nodes := nodes + [perNode[i]];
      }
    }
    assert perNode[..|perNode|] == perNode;
    if maxNodes > 0 && |nodes| > maxNodes {
      nodes := nodes[..maxNodes];
    }
    out, idx' := SpreadRounds(nodes, need);
  }

  /** What has been taken in round `r`, with the first `i` nodes visited. */
  ghost predicate Tally(nodes: seq<NodeDevices>, idx: seq<nat>, r: nat, i: nat, out: seq<string>) {
    i <= |nodes| && Counts(nodes, idx) && MidRound(nodes, idx, r, i) && multiset(out) == Taken(nodes, idx)
  }

  lemma TallyTakes(nodes: seq<NodeDevices>, idx: seq<nat>, idx': seq<nat>, r: nat, i: nat, out: seq<string>, id: string)
    requires Tally(nodes, idx, r, i, out) && i < |nodes| && idx[i] < |nodes[i].deviceIDs|
    requires idx' == idx[i := idx[i] + 1] && id == nodes[i].deviceIDs[idx[i]]
    ensures Tally(nodes, idx', r, i + 1, out + [id]) && idx[i] == r
  {
    TakenNext(nodes, idx, idx', i);
  }

  /** The order in which it has been taken. */
  ghost predicate InOrder(nodes: seq<NodeDevices>, r: nat, i: nat, out: seq<string>) {
    i <= |nodes| && out == Rows(nodes, r) + Row(nodes[..i], r)
  }

  lemma InOrderNext(nodes: seq<NodeDevices>, r: nat, i: nat, out: seq<string>)
    requires InOrder(nodes, r, i, out) && i < |nodes|
    ensures InOrder(nodes, r, i + 1, out + if r < |nodes[i].deviceIDs| then [nodes[i].deviceIDs[r]] else [])
  {
    RowSnoc(nodes, i, r);
  }

  lemma InOrderTurns(nodes: seq<NodeDevices>, r: nat, out: seq<string>)
    ensures InOrder(nodes, r, |nodes|, out) ==> InOrder(nodes, r + 1, 0, out)
    ensures InOrder(nodes, r, 0, out) <==> out == Rows(nodes, r)
  {
    assert nodes[..|nodes|] == nodes && nodes[..0] == [];
    assert Row(nodes[..0], r) == [] && Row(nodes[..0], r + 1) == [];
  }

  lemma SpreadingSpent(nodes: seq<NodeDevices>, idx: seq<nat>, r: nat, need: nat, out: seq<string>)
    requires Tally(nodes, idx, r, 0, out) && InOrder(nodes, r, 0, out) && r <= |out| < need
    requires forall k | 0 <= k < |nodes| :: |nodes[k].deviceIDs| <= r
    ensures out == SpreadOrder(nodes, need) && multiset(out) == multiset(Flatten(nodes))
  {
    TakenAll(nodes, idx);
    InOrderTurns(nodes, r, out);
    ShortSpread(nodes, need, r, out);
  }

  lemma TallySkips(nodes: seq<NodeDevices>, idx: seq<nat>, r: nat, i: nat, out: seq<string>)
    requires Tally(nodes, idx, r, i, out) && i < |nodes| && idx[i] >= |nodes[i].deviceIDs|
    ensures Tally(nodes, idx, r, i + 1, out) && |nodes[i].deviceIDs| <= r
  {
  }

  /** One pass over the nodes; it stops at node `i` if the request is met there. */
  method SpreadRound(nodes: seq<NodeDevices>, need: nat, idx: seq<nat>, out: seq<string>, ghost r: nat)
    returns (out': seq<string>, idx': seq<nat>, progress: bool, ghost i': nat)
    requires Tally(nodes, idx, r, 0, out) && InOrder(nodes, r, 0, out) && |out| < need
    ensures Tally(nodes, idx', r, i', out') && InOrder(nodes, r, i', out') && |out'| <= need
    ensures |out'| < need ==> i' == |nodes|
    ensures if progress then |out'| > |out| else idx' == idx && out' == out
    ensures !progress ==> forall k | 0 <= k < |nodes| :: |nodes[k].deviceIDs| <= r
  {
    out', idx', progress := out, idx, false;
    for i := 0 to |nodes|
      invariant Tally(nodes, idx', r, i, out') && InOrder(nodes, r, i, out') && |out'| < need
      invariant if progress then |out'| > |out| else idx' == idx && out' == out
      invariant !progress ==> forall k | 0 <= k < i :: |nodes[k].deviceIDs| <= r
    {
      InOrderNext(nodes, r, i, out');
      if idx'[i] >= |nodes[i].deviceIDs| {
        TallySkips(nodes, idx', r, i, out');
        assert out' + [] == out';
        continue;
      }
      var id := nodes[i].deviceIDs[idx'[i]];
      TallyTakes(nodes, idx', idx'[i := idx'[i] + 1], r, i, out', id);
      out', idx', progress := out' + [id], idx'[i := idx'[i] + 1], true;
      if |out'| == need {
        return out', idx', true, i + 1;
      }
    }
    i' := |nodes|;
  }

  method SpreadRounds(nodes: seq<NodeDevices>, need: nat) returns (out: seq<string>, ghost idx': seq<nat>)
    requires need > 0
    ensures out == SpreadOrder(nodes, need) && SpreadOver(nodes, idx', out)
    ensures |out| < need ==> multiset(out) == multiset(Flatten(nodes))
  {
    out := [];
    var idx: seq<nat> := seq(|nodes|, _ => 0);
    TakenNone(nodes, idx);
    ghost var r := 0;
    InOrderTurns(nodes, r, out);
    while |out| < need
      invariant Tally(nodes, idx, r, 0, out) && InOrder(nodes, r, 0, out) && r <= |out| < need
      decreases need - |out|
    {
      ghost var taken := out;
      var progress: bool;
      ghost var i: nat;
      out, idx, progress, i := SpreadRound(nodes, need, idx, out, r);
      MidRoundBalanced(nodes, idx, r, i);
      if |out| == need {
        FullSpread(nodes, need, r, i, out);
        return out, idx;
      }
      if !progress {
        assert out == taken;
        SpreadingSpent(nodes, idx, r, need, out);
        break;
      }
      InOrderTurns(nodes, r, out);
      r := r + 1;
    }
    return out, idx;
  }

  // ---------------------------------------------------------------- choosing a policy

  /** Some node alone can serve the request. */
  ghost predicate OneNodeServes(perNode: seq<NodeDevices>, need: nat) {
    exists i | 0 <= i < |perNode| :: |perNode[i].deviceIDs| >= need
  }

  /** The first of the largest nodes. */
  ghost predicate FirstLargest(perNode: seq<NodeDevices>, i: nat) {
    && i < |perNode|
    && (forall j | 0 <= j < |perNode| :: |perNode[j].deviceIDs| <= |perNode[i].deviceIDs|)
    && (forall j | 0 <= j < i :: |perNode[j].deviceIDs| < |perNode[i].deviceIDs|)
  }

  ghost predicate FirstServing(perNode: seq<NodeDevices>, need: nat, i: nat) {
    && i < |perNode| && |perNode[i].deviceIDs| >= need
    && forall j | 0 <= j < i :: |perNode[j].deviceIDs| < need
  }

  ghost predicate SpreadAnswer(nodes: seq<NodeDevices>, need: nat, ids: seq<string>) {
    && ids == SpreadOrder(nodes, need)
    && (exists idx :: SpreadOver(nodes, idx, ids))
    && (|ids| < need ==> multiset(ids) == multiset(Flatten(nodes)))
  }

  function PackAnswer(perNode: seq<NodeDevices>, need: nat, maxNodes: int): Picked {
    Devices(UpTo(Flatten(Kept(Packed(perNode), maxNodes)), need))
  }

  ghost predicate PickAnswer(
      perNode: seq<NodeDevices>, need: nat, policy: Policy, requireSameNode: bool, maxNodes: int, r: Picked)
  {
    if requireSameNode then
      if OneNodeServes(perNode, need)
      then exists i: nat :: FirstLargest(perNode, i) && |perNode[i].deviceIDs| >= need
                            && r == Devices(perNode[i].deviceIDs[..need])
      else r == NoSingleNode
    else
      match policy
      case FirstFit => r == Devices(UpTo(Flatten(Kept(perNode, maxNodes)), need))
      case Pack => r == PackAnswer(perNode, need, maxNodes)
      case Spread => r.Devices? && SpreadAnswer(Kept(perNode, maxNodes), need, r.ids)
      case LocalityAware =>
        if OneNodeServes(perNode, need)
        then exists i: nat :: FirstServing(perNode, need, i) && r == Devices(perNode[i].deviceIDs[..need])
        else r == PackAnswer(perNode, need, maxNodes)
      case UnknownPolicy(_) => r == PolicyUnknown
  }

  method PickDevices(perNode: seq<NodeDevices>, need: nat, policy: Policy, requireSameNode: bool, maxNodes: int)
    returns (r: Picked)
    requires need > 0
    ensures PickAnswer(perNode, need, policy, requireSameNode, maxNodes, r)
  {
    if requireSameNode {
      r := PickLargestNode(perNode, need);
      return;
    }
    match policy {
      case FirstFit =>
        var ids := SelectFirstFit(perNode, need, maxNodes);
        return Devices(ids);
      case Pack =>
        var ids := SelectPack(perNode, need, maxNodes);
        return Devices(ids);
      case Spread =>
        var ids, idx := SelectSpread(perNode, need, maxNodes);
        return Devices(ids);
      case LocalityAware =>
        for i := 0 to |perNode|
          invariant forall j | 0 <= j < i :: |perNode[j].deviceIDs| < need
        {
          if |perNode[i].deviceIDs| >= need {
            assert FirstServing(perNode, need, i);
            return Devices(perNode[i].deviceIDs[..need]);
          }
        }
        var ids := SelectPack(perNode, need, maxNodes);
        return Devices(ids);
      case UnknownPolicy(_) =>
        return PolicyUnknown;
    }
  }

  method PickLargestNode(perNode: seq<NodeDevices>, need: nat) returns (r: Picked)
    ensures PickAnswer(perNode, need, FirstFit, true, 0, r)
  {
    var best := -1;
    for i := 0 to |perNode|
      invariant -1 <= best < i
      invariant best == -1 ==> forall j | 0 <= j < i :: |perNode[j].deviceIDs| < need
      invariant best >= 0 ==> |perNode[best].deviceIDs| >= need
      invariant best >= 0 ==> forall j | 0 <= j < i :: |perNode[j].deviceIDs| <= |perNode[best].deviceIDs|
      invariant best >= 0 ==> forall j | 0 <= j < best :: |perNode[j].deviceIDs| < |perNode[best].deviceIDs|
    {
      if |perNode[i].deviceIDs| < need {
        continue;
      }
      if best == -1 || |perNode[i].deviceIDs| > |perNode[best].deviceIDs| {
        best := i;
      }
    }
    if best == -1 {
      return NoSingleNode;
    }
    assert FirstLargest(perNode, best);
    return Devices(perNode[best].deviceIDs[..need]);
  }

  /** The devices lie on one node. */
  lemma OneNodeFacts(perNode: seq<NodeDevices>, need: nat, i: nat)
    requires i < |perNode| && |perNode[i].deviceIDs| >= need
    ensures var ids := perNode[i].deviceIDs[..need];
            && Within(ids, Flatten(perNode))
            && (Unshared(perNode) ==> NodesUsed(perNode, ids) <= 1)
  {
    var n := perNode[i];
    var ids := n.deviceIDs[..need];
    assert n.deviceIDs == ids + n.deviceIDs[need..];
    FlattenWithout(perNode, i);
    FlattenOne(n);
    assert n in multiset(perNode);
    if Unshared(perNode) {
      UsesOnly(perNode, [n], ids);
    }
  }

  lemma PackAnswerWithin(perNode: seq<NodeDevices>, need: nat, maxNodes: int)
    ensures Within(PackAnswer(perNode, need, maxNodes).ids, Flatten(Kept(Packed(perNode), maxNodes)))
    ensures Within(Kept(Packed(perNode), maxNodes), perNode)
    ensures maxNodes > 0 ==> |Kept(Packed(perNode), maxNodes)| <= maxNodes
  {
    UpToWithin(Flatten(Kept(Packed(perNode), maxNodes)), need);
    KeptWithin(Packed(perNode), maxNodes);
    PackedFacts(perNode);
  }

  /** The nodes an in-order policy draws from, and that what it draws comes from them. */
  lemma DrawnFrom(
      perNode: seq<NodeDevices>, need: nat, policy: Policy, maxNodes: int, r: Picked)
    returns (k: seq<NodeDevices>)
    requires PickAnswer(perNode, need, policy, false, maxNodes, r) && r.Devices?
    ensures Within(k, perNode) && Within(r.ids, Flatten(k)) && |r.ids| <= need
    ensures maxNodes > 0 ==> |k| <= maxNodes
  {
    match policy
    case FirstFit =>
      k := Kept(perNode, maxNodes);
      KeptWithin(perNode, maxNodes);
      UpToWithin(Flatten(k), need);
    case Pack =>
      k := Kept(Packed(perNode), maxNodes);
      PackAnswerWithin(perNode, need, maxNodes);
    case Spread =>
      k := Kept(perNode, maxNodes);
      KeptWithin(perNode, maxNodes);
      var idx :| SpreadOver(k, idx, r.ids);
      TakenWithin(k, idx);
    case LocalityAware =>
      if OneNodeServes(perNode, need) {
        var i: nat :| FirstServing(perNode, need, i) && r == Devices(perNode[i].deviceIDs[..need]);
        k := [perNode[i]];
        FlattenOne(perNode[i]);
        assert perNode[i].deviceIDs == r.ids + perNode[i].deviceIDs[need..];
        assert perNode[i] in multiset(perNode);
      } else {
        k := Kept(Packed(perNode), maxNodes);
        PackAnswerWithin(perNode, need, maxNodes);
      }
  }

  /** Whatever the policy, only eligible devices are picked, none twice, never too many; and a node
      limit is respected. */
  lemma PickIsSafe(perNode: seq<NodeDevices>, need: nat, policy: Policy, same: bool, maxNodes: int, r: Picked)
    requires PickAnswer(perNode, need, policy, same, maxNodes, r) && r.Devices?
    ensures Within(r.ids, Flatten(perNode)) && |r.ids| <= need
    ensures Unshared(perNode) ==> Distinct(r.ids)
    ensures Unshared(perNode) && same ==> NodesUsed(perNode, r.ids) <= 1
    ensures Unshared(perNode) && maxNodes > 0 ==> NodesUsed(perNode, r.ids) <= maxNodes
  {
    if same {
      var i: nat :| FirstLargest(perNode, i) && |perNode[i].deviceIDs| >= need &&
        r == Devices(perNode[i].deviceIDs[..need]);
      OneNodeFacts(perNode, need, i);
    } else {
      var k := DrawnFrom(perNode, need, policy, maxNodes, r);
      FlattenWithin(k, perNode);
      if Unshared(perNode) {
        forall id | id in r.ids ensures id in Flatten(k) {
          WithinMembers(r.ids, Flatten(k), id);
        }
        UsesOnly(perNode, k, r.ids);
      }
    }
    if Unshared(perNode) {
      DistinctPermuted(Flatten(perNode), r.ids);
    }
  }

  lemma OneNodeIsEnough(perNode: seq<NodeDevices>, need: nat)
    requires OneNodeServes(perNode, need)
    ensures |Flatten(perNode)| >= need
    ensures forall maxNodes :: Holdable(perNode, need, Allowed(|perNode|, maxNodes))
  {
    var i :| 0 <= i < |perNode| && |perNode[i].deviceIDs| >= need;
    FlattenSplit(perNode, i);
    assert perNode[i] in multiset(perNode);
    SumBySnoc([], perNode[i], Size);
    assert [] + [perNode[i]] == [perNode[i]];
    forall maxNodes ensures Holdable(perNode, need, Allowed(|perNode|, maxNodes)) {
      assert Holds(perNode, [perNode[i]], need, Allowed(|perNode|, maxNodes));
    }
  }

  /** Without a node limit the four policies accept the same requests: those with enough eligible
      free devices. */
  lemma PoliciesAcceptAlike(perNode: seq<NodeDevices>, need: nat, policy: Policy, r: Picked)
    requires !policy.UnknownPolicy? && PickAnswer(perNode, need, policy, false, 0, r)
    ensures r.Devices? && (|r.ids| == need <==> |Flatten(perNode)| >= need)
  {
    KeptWithin(perNode, 0);
    KeptWithin(Packed(perNode), 0);
    PackedFacts(perNode);
    FlattenPermuted(Packed(perNode), perNode);
    assert |multiset(Flatten(Packed(perNode)))| == |multiset(Flatten(perNode))|;
    if OneNodeServes(perNode, need) {
      OneNodeIsEnough(perNode, need);
    }
    if policy.Spread? {
      var k := Kept(perNode, 0);
      if |r.ids| < need {
        assert |multiset(r.ids)| == |multiset(Flatten(k))|;
      } else {
        var idx :| SpreadOver(k, idx, r.ids);
        TakenWithin(k, idx);
        WithinSize(r.ids, Flatten(k));
      }
    }
  }

  /** A placement of `need` devices that `out` is compared with. */
  ghost predicate Placement(perNode: seq<NodeDevices>, need: nat, other: seq<string>) {
    Distinct(other) && |other| == need && forall id | id in other :: id in Flatten(perNode)
  }

  lemma PlacementUsesSomeNode(perNode: seq<NodeDevices>, need: nat, other: seq<string>)
    requires need > 0 && Placement(perNode, need, other)
    ensures NodesUsed(perNode, other) >= 1
  {
    UsedNodesSuffice(perNode, other);
    assert SumBy([], Size) == 0;
  }

  lemma OneNodeOptimal(perNode: seq<NodeDevices>, need: nat, i: nat, other: seq<string>)
    requires Unshared(perNode) && need > 0 && i < |perNode| && |perNode[i].deviceIDs| >= need
    ensures Placement(perNode, need, other) ==>
              NodesUsed(perNode, perNode[i].deviceIDs[..need]) <= NodesUsed(perNode, other)
  {
    OneNodeFacts(perNode, need, i);
    if Placement(perNode, need, other) {
      PlacementUsesSomeNode(perNode, need, other);
    }
  }

  /** Pack and locality-aware placement succeed exactly when some set of nodes within the limit holds
      enough devices, and then use as few nodes as any placement could. */
  lemma PackAndLocalityOptimal(
      perNode: seq<NodeDevices>, need: nat, policy: Policy, maxNodes: int, r: Picked, other: seq<string>)
    requires Unshared(perNode) && need > 0 && policy in {Pack, LocalityAware}
    requires PickAnswer(perNode, need, policy, false, maxNodes, r)
    ensures r.Devices?
    ensures |r.ids| == need <==> Holdable(perNode, need, Allowed(|perNode|, maxNodes))
    ensures |r.ids| == need && Placement(perNode, need, other) ==>
              NodesUsed(perNode, r.ids) <= NodesUsed(perNode, other)
  {
    if policy == LocalityAware && OneNodeServes(perNode, need) {
      var i: nat :| FirstServing(perNode, need, i) && r == Devices(perNode[i].deviceIDs[..need]);
      OneNodeIsEnough(perNode, need);
      OneNodeOptimal(perNode, need, i, other);
    } else {
      PackSucceedsIff(perNode, need, maxNodes);
      if |r.ids| == need && Placement(perNode, need, other) {
        PackIsOptimal(perNode, need, maxNodes, r.ids, other);
      }
    }
  }

  /** On one node: succeeds exactly when some node alone has enough. */
  lemma SameNodeSucceedsIff(perNode: seq<NodeDevices>, need: nat, policy: Policy, maxNodes: int, r: Picked)
    requires PickAnswer(perNode, need, policy, true, maxNodes, r)
    ensures r.Devices? <==> OneNodeServes(perNode, need)
    ensures r.Devices? ==> |r.ids| == need
  {
  }
}
