/** Node and device identifiers of internal/sim/state.go, and what they say about the pool. */
module DeviceNames {
  const DEFAULT_POOL_KEY := "_default"

  // ---------------------------------------------------------------- decimal numerals

  function Digit(n: nat): char
    requires n < 10
  {
    "0123456789"[n]
  }

  /** fmt.Sprintf("%d", n) */
  function Decimal(n: nat): string {
    if n < 10 then [Digit(n)] else Decimal(n / 10) + [Digit(n % 10)]
  }

  /** The number a numeral stands for. */
  function ValueOf(digits: string): int {
    if digits == "" then 0
    else 10 * ValueOf(digits[..|digits| - 1]) + (digits[|digits| - 1] as int - '0' as int)
  }

  lemma DigitIs(n: nat)
    requires n < 10
    ensures Digit(n) as int == '0' as int + n
  {
  }

  /** A numeral reads back as its number. */
  lemma {:induction false} DecimalReads(n: nat)
    ensures ValueOf(Decimal(n)) == n
  {
    DecimalEnds(n);
    DigitIs(n % 10);
    if n >= 10 {
      DecimalReads(n / 10);
    } else {
      assert Decimal(n)[..0] == "";
    }
  }

  lemma DecimalEnds(n: nat)
    ensures var d := Decimal(n);
            && |d| >= 1 && d[|d| - 1] == Digit(n % 10)
            && (n >= 10 ==> |d| >= 2 && d[..|d| - 1] == Decimal(n / 10))
            && (n < 10 ==> |d| == 1)
  {
    DecimalLength(n);
  }

  lemma {:induction false} DecimalInjective(m: nat, n: nat)
    requires Decimal(m) == Decimal(n)
    ensures m == n
  {
    DecimalEnds(m);
    DecimalEnds(n);
    DigitInjective(m % 10, n % 10);
    if m >= 10 && n >= 10 {
      DecimalInjective(m / 10, n / 10);
    }
  }

  lemma DigitInjective(m: nat, n: nat)
    requires m < 10 && n < 10 && Digit(m) == Digit(n)
    ensures m == n
  {
  }

  lemma {:induction false} DecimalLength(n: nat)
    ensures |Decimal(n)| >= 1 && (n >= 10 ==> |Decimal(n)| >= 2)
  {
    if n >= 10 {
      DecimalLength(n / 10);
    }
  }

  lemma {:induction false} DecimalHasNoSlash(n: nat)
    ensures '/' !in Decimal(n)
  {
    if n >= 10 {
      DecimalHasNoSlash(n / 10);
    }
  }

  // ---------------------------------------------------------------- identifiers

  function Prefix(poolKey: string): string {
    if poolKey != "" && poolKey != DEFAULT_POOL_KEY then poolKey + "/" else ""
  }

  function NodeName(i: nat): string { "node-" + Decimal(i) }

  function GpuName(j: nat): string { "gpu-" + Decimal(j) }

  function NodeID(poolKey: string, i: nat): string { Prefix(poolKey) + NodeName(i) }

  function DeviceID(poolKey: string, i: nat, j: nat): string { NodeID(poolKey, i) + "/" + GpuName(j) }

  lemma NamesHaveNoSlash(i: nat)
    ensures '/' !in NodeName(i) && '/' !in GpuName(i)
  {
    DecimalHasNoSlash(i);
  }

  /** A string splits in one way at its last slash. */
  lemma {:induction false} LastSlash(a: string, b: string, c: string, d: string)
    requires a + "/" + b == c + "/" + d && '/' !in b && '/' !in d
    ensures a == c && b == d
  {
    var s := a + "/" + b;
    assert s[|a|] == '/' && s[|c|] == '/';
    assert |a| == |c|;
    assert a == s[..|a|] && c == s[..|c|];
    assert b == s[|a| + 1..] && d == s[|c| + 1..];
  }

  /** And in one way at its first. */
  lemma {:induction false} FirstSlash(a: string, b: string, c: string, d: string)
    requires a + "/" + b == c + "/" + d && '/' !in a && '/' !in c
    ensures a == c && b == d
  {
    var s := a + "/" + b;
    assert s[|a|] == '/' && s[|c|] == '/';
    assert |a| == |c|;
    assert a == s[..|a|] && c == s[..|c|];
    assert b == s[|a| + 1..] && d == s[|c| + 1..];
  }

  lemma NumberedInjective(prefix: string, m: nat, n: nat)
    requires prefix + Decimal(m) == prefix + Decimal(n)
    ensures m == n
  {
    assert (prefix + Decimal(m))[|prefix|..] == Decimal(m);
    assert (prefix + Decimal(n))[|prefix|..] == Decimal(n);
    DecimalInjective(m, n);
  }

  lemma NodeIDSlash(k: string, i: nat)
    ensures '/' in NodeID(k, i) <==> k != "" && k != DEFAULT_POOL_KEY
  {
    NamesHaveNoSlash(i);
    if k != "" && k != DEFAULT_POOL_KEY {
      assert NodeID(k, i)[|k|] == '/';
    } else {
      assert NodeID(k, i) == NodeName(i);
    }
  }

  lemma NodeIDInjective(k: string, i: nat, k': string, i': nat)
    requires k != "" && k' != "" && NodeID(k, i) == NodeID(k', i')
    ensures k == k' && i == i'
  {
    NodeIDSlash(k, i);
    NodeIDSlash(k', i');
    if k == DEFAULT_POOL_KEY {
      assert NodeID(k, i) == NodeName(i) && NodeID(k', i') == NodeName(i');
      NumberedInjective("node-", i, i');
    } else {
      NamesHaveNoSlash(i);
      NamesHaveNoSlash(i');
      LastSlash(k, NodeName(i), k', NodeName(i'));
      NumberedInjective("node-", i, i');
    }
  }

  /** Naming is injective over all pools, nodes and devices, whatever the pool keys look like. */
  lemma DeviceIDInjective(k: string, i: nat, j: nat, k': string, i': nat, j': nat)
    requires k != "" && k' != "" && DeviceID(k, i, j) == DeviceID(k', i', j')
    ensures k == k' && i == i' && j == j'
  {
    NamesHaveNoSlash(j);
    NamesHaveNoSlash(j');
    LastSlash(NodeID(k, i), GpuName(j), NodeID(k', i'), GpuName(j'));
    NumberedInjective("gpu-", j, j');
    NodeIDInjective(k, i, k', i');
  }

  // ---------------------------------------------------------------- which pool a device counts for

  /** strings.Count(s, "/") */
  function Slashes(s: string): nat {
    if s == "" then 0 else (if s[0] == '/' then 1 else 0) + Slashes(s[1..])
  }

  /** FleetUsageForPool counts a device for a pool by the shape of its identifier. */
  predicate CountsFor(poolKey: string, id: string) {
    if poolKey == DEFAULT_POOL_KEY then Slashes(id) == 1 else (poolKey + "/") <= id
  }

  /** The default key, or namespace/name with neither part containing a slash. */
  ghost predicate WellFormedKey(k: string) {
    k == DEFAULT_POOL_KEY || exists ns, name :: IsPath(k, ns, name)
  }

  predicate IsPath(k: string, ns: string, name: string) {
    k == ns + "/" + name && '/' !in ns && '/' !in name
  }

  lemma {:induction false} SlashesConcat(a: string, b: string)
    ensures Slashes(a + b) == Slashes(a) + Slashes(b)
  {
    if a == "" {
      assert a + b == b;
    } else {
      assert (a + b)[1..] == a[1..] + b;
      SlashesConcat(a[1..], b);
    }
  }

  lemma {:induction false} NoSlashes(s: string)
    requires '/' !in s
    ensures Slashes(s) == 0
  {
    if s != "" {
      NoSlashes(s[1..]);
    }
  }

  lemma OneSlash()
    ensures Slashes("/") == 1
  {
    assert Slashes("/"[1..]) == 0;
  }

  lemma DeviceSlashes(k: string, i: nat, j: nat)
    ensures Slashes(DeviceID(k, i, j)) == Slashes(Prefix(k)) + 1
  {
    NamesHaveNoSlash(i);
    NamesHaveNoSlash(j);
    NoSlashes(NodeName(i));
    NoSlashes(GpuName(j));
    OneSlash();
    SlashesConcat(Prefix(k), NodeName(i));
    SlashesConcat(NodeID(k, i), "/");
    SlashesConcat(NodeID(k, i) + "/", GpuName(j));
  }

  lemma PathSlashes(k: string, ns: string, name: string)
    requires IsPath(k, ns, name)
    ensures Slashes(k + "/") == 2
    ensures k != DEFAULT_POOL_KEY && k != ""
  {
    NoSlashes(ns);
    NoSlashes(name);
    OneSlash();
    SlashesConcat(ns, "/");
    SlashesConcat(ns + "/", name);
    SlashesConcat(k, "/");
    assert k[|ns|] == '/';
    assert '/' !in DEFAULT_POOL_KEY;
  }

  lemma PrefixSlashes(k: string)
    requires WellFormedKey(k)
    ensures Slashes(Prefix(k)) == if k == DEFAULT_POOL_KEY then 0 else 2
  {
    if k != DEFAULT_POOL_KEY {
      var ns, name :| IsPath(k, ns, name);
      PathSlashes(k, ns, name);
    }
  }

  /** Two paths that both start the same identifier are the same. */
  lemma SamePath(k: string, k': string, id: string)
    requires WellFormedKey(k) && WellFormedKey(k') && k != DEFAULT_POOL_KEY && k' != DEFAULT_POOL_KEY
    requires (k + "/") <= id && (k' + "/") <= id
    ensures k == k'
  {
    var ns, name :| IsPath(k, ns, name);
    var ns', name' :| IsPath(k', ns', name');
    var rest, rest' := id[|k| + 1..], id[|k'| + 1..];
    assert id == ns + "/" + (name + "/" + rest);
    assert id == ns' + "/" + (name' + "/" + rest');
    FirstSlash(ns, name + "/" + rest, ns', name' + "/" + rest');
    FirstSlash(name, rest, name', rest');
  }

  lemma PrefixHasSlash(k: string)
    requires k != ""
    ensures Slashes(Prefix(k)) == 0 <==> k == DEFAULT_POOL_KEY
  {
    if k != DEFAULT_POOL_KEY {
      SlashesConcat(k, "/");
      OneSlash();
    }
  }

  /** Where the slashes of a device identifier are decides which keys it starts with. */
  lemma KeyStartsDevice(k: string, k': string, i: nat, j: nat)
    ensures (k + "/") <= DeviceID(k', i, j) <==> (k + "/") <= Prefix(k') || k == NodeID(k', i)
  {
    NamesHaveNoSlash(i);
    NamesHaveNoSlash(j);
    var p, n, id := Prefix(k'), NodeID(k', i), DeviceID(k', i, j);
    assert p <= n <= id && id[..|n| + 1] == n + "/";
    if (k + "/") <= id {
      assert id[|k|] == '/' && k == id[..|k|];
      assert forall x | |p| <= x < |n| :: id[x] == NodeName(i)[x - |p|];
      assert forall x | |n| < x < |id| :: id[x] == GpuName(j)[x - |n| - 1];
      assert |k| < |p| || |k| == |n|;
      if |k| < |p| {
        assert p[..|k| + 1] == id[..|k| + 1];
      }
    }
  }

  /** Pool `k` also claims the devices that pool `k'` has on its node `i`. */
  predicate Confusable(k: string, k': string, i: nat) {
    k != DEFAULT_POOL_KEY && k != k' && ((k + "/") <= Prefix(k') || k == NodeID(k', i))
  }

  /** Exactly which pools a device counts for, whatever the keys: its own, and those that are a path
      prefix of its key or are spelled like its node. */
  lemma CountsForIff(k: string, k': string, i: nat, j: nat)
    requires k != "" && k' != ""
    ensures CountsFor(k, DeviceID(k', i, j)) <==> k == k' || Confusable(k, k', i)
  {
    if k == DEFAULT_POOL_KEY {
      DeviceSlashes(k', i, j);
      PrefixHasSlash(k');
    } else {
      KeyStartsDevice(k, k', i, j);
    }
  }

  /** No key among `keys` claims a device of another. */
  ghost predicate Separate(keys: set<string>) {
    forall k, k', i: nat | k in keys && k' in keys :: !Confusable(k, k', i)
  }

  lemma NodeIDSlashes(k: string, i: nat)
    ensures Slashes(NodeID(k, i)) == Slashes(Prefix(k))
  {
    NamesHaveNoSlash(i);
    NoSlashes(NodeName(i));
    SlashesConcat(Prefix(k), NodeName(i));
  }

  lemma WellFormedNotConfusable(k: string, k': string, i: nat)
    requires WellFormedKey(k) && WellFormedKey(k')
    ensures !Confusable(k, k', i)
  {
    if k != DEFAULT_POOL_KEY && k != k' {
      var ns, name :| IsPath(k, ns, name);
      PathSlashes(k, ns, name);
      PrefixSlashes(k');
      NodeIDSlashes(k', i);
      SlashesConcat(k, "/");
      OneSlash();
      if (k + "/") <= Prefix(k') {
        if k' != DEFAULT_POOL_KEY {
          SamePath(k, k', Prefix(k'));
        }
      }
    }
  }

  lemma WellFormedSeparate(keys: set<string>)
    requires forall k | k in keys :: WellFormedKey(k)
    ensures Separate(keys)
  {
    forall k, k', i: nat | k in keys && k' in keys ensures !Confusable(k, k', i) {
      WellFormedNotConfusable(k, k', i);
    }
  }

  lemma WellFormedNotEmpty(k: string)
    requires WellFormedKey(k)
    ensures k != ""
  {
    if k != DEFAULT_POOL_KEY {
      var ns, name :| IsPath(k, ns, name);
      PathSlashes(k, ns, name);
    }
  }

  /** Between keys of the form namespace/name, and the default key, counting is exact. */
  lemma CountsForOwnPoolOnly(k: string, k': string, i: nat, j: nat)
    requires WellFormedKey(k) && WellFormedKey(k')
    ensures CountsFor(k, DeviceID(k', i, j)) <==> k == k'
  {
    WellFormedNotEmpty(k);
    WellFormedNotEmpty(k');
    WellFormedNotConfusable(k, k', i);
    CountsForIff(k, k', i, j);
  }

  /** Both ways in which other keys are confused: a path prefix, and the name of a node. */
  lemma KeysConfused()
    ensures Confusable("a", "a/b", 0)
    ensures Confusable("node-0", DEFAULT_POOL_KEY, 0) && Confusable("x/node-0", "x", 0)
  {
    assert Prefix("a/b") == "a/b/" && "a/b/"[..2] == "a/";
    assert Decimal(0) == "0";
    assert NodeID(DEFAULT_POOL_KEY, 0) == "node-0";
    assert NodeID("x", 0) == "x/node-0";
  }
}
