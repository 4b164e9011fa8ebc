/** The scheduler-facing records of internal/scheduler/inputs.go.

    Times are integers, with 0 for Go's zero time. Counts are unbounded integers. */
module Workloads {

  datatype Kind =
    | Training | Inference | Eval | FineTune | Rlhf | Embedding | DataPreprocess | Distillation
    | OtherKind(name: string)

  datatype QueuedWorkload = QueuedWorkload(
    workloadID: string, tenant: string, priority: int, queuedAt: int,
    gpuCount: int, gpuMemoryMiB: int, profile: string, tokens: int, kind: Kind)

  datatype RunningWorkload = RunningWorkload(
    workloadID: string, tenant: string, priority: int, startedAt: int,
    gpuCount: int, gpuMemoryMiB: int, profile: string, tokens: int, kind: Kind)

  datatype ProfileFreeCapacity = ProfileFreeCapacity(
    freeDevices: int, freeMemoryMiB: int, memoryMiBPerDevice: int)

  datatype FleetFreeCapacity = FleetFreeCapacity(
    totalFreeDevices: int, totalFreeMemoryMiB: int, byProfile: map<string, ProfileFreeCapacity>)

  datatype TenantQuota = TenantQuota(maxGPUs: int, maxMemoryMiB: int, weight: int)

  datatype SchedulingInputs = SchedulingInputs(
    queued: seq<QueuedWorkload>,
    scheduled: seq<RunningWorkload>,
    running: seq<RunningWorkload>,
    fleet: FleetFreeCapacity,
    quotas: map<string, TenantQuota>)

  datatype Error =
    | UnsupportedKind
    | ProfileRequired
    | ProfileNotInFleet
    | ProfileUnknown
    | CountNotPositive
    | MemoryNotPositive
    | NoCapacityEntry
    | MissingDeviceMemory
    | DeviceMemoryTooSmall
    | InsufficientPreemptable(need: int, running: int)
    | CapacityWouldBeNegative

  datatype Result<+T> = Ok(value: T) | Err(error: Error)

  function Gpus(r: RunningWorkload): int { r.gpuCount }

  // ---------------------------------------------------------------- text

  /** unicode.IsSpace */
  predicate IsSpace(c: char) {
    || '\t' <= c <= '\r' || c == ' ' || c == '\U{85}' || c == '\U{A0}' || c == '\U{1680}'
    || '\U{2000}' <= c <= '\U{200A}' || c == '\U{2028}' || c == '\U{2029}' || c == '\U{202F}'
    || c == '\U{205F}' || c == '\U{3000}'
  }

  /** strings.TrimSpace(s) == "" */
  predicate Blank(s: string) {
    forall c | c in s :: IsSpace(c)
  }

  function Trim(s: string): string {
    if s == [] then []
    else if IsSpace(s[0]) then Trim(s[1..])
    else if IsSpace(s[|s| - 1]) then Trim(s[..|s| - 1])
    else s
  }

  function LowerChar(c: char): char {
    if 'A' <= c <= 'Z' then c + ' ' else c
  }

  function Lower(s: string): (r: string) {
    seq(|s|, i requires 0 <= i < |s| => LowerChar(s[i]))
  }

  /** strings.ToLower(strings.TrimSpace(p)), the key under which profiles are filed. */
  function NormalizeProfile(p: string): string {
    Lower(Trim(p))
  }

  /** Trimming takes off space at either end and nothing else, and leaves none there. */
  lemma {:induction false} TrimIs(s: string) returns (before: string, after: string)
    ensures s == before + Trim(s) + after
    ensures (forall c | c in before :: IsSpace(c)) && (forall c | c in after :: IsSpace(c))
    ensures Trim(s) != "" ==> !IsSpace(Trim(s)[0]) && !IsSpace(Trim(s)[|Trim(s)| - 1])
    decreases |s|
  {
    if s == [] {
      before, after := [], [];
    } else if IsSpace(s[0]) {
      var b, a := TrimIs(s[1..]);
      before, after := [s[0]] + b, a;
      assert s == [s[0]] + s[1..];
    } else if IsSpace(s[|s| - 1]) {
      var b, a := TrimIs(s[..|s| - 1]);
      before, after := b, a + [s[|s| - 1]];
      assert s == s[..|s| - 1] + [s[|s| - 1]];
    } else {
      before, after := [], [];
    }
  }

  /** A blank text is one of which trimming leaves nothing. */
  lemma BlankIff(s: string)
    ensures Blank(s) <==> Trim(s) == ""
  {
    var before, after := TrimIs(s);
    if Trim(s) != "" {
      assert Trim(s)[0] in s;
    } else {
      forall c | c in s ensures IsSpace(c) {
        assert c in before || c in after;
      }
    }
  }

  /** Lower case: no capital is left, and only capitals change. */
  lemma LowerIs(s: string)
    ensures |Lower(s)| == |s|
    ensures forall i | 0 <= i < |s| :: !('A' <= Lower(s)[i] <= 'Z')
    ensures forall i | 0 <= i < |s| && !('A' <= s[i] <= 'Z') :: Lower(s)[i] == s[i]
    ensures forall i | 0 <= i < |s| && 'A' <= s[i] <= 'Z' ::
              Lower(s)[i] as int - 'a' as int == s[i] as int - 'A' as int
  {
  }

  /** The key of a profile has no capital and no space at its ends, and is its own key. */
  lemma NormalizedIs(p: string)
    ensures forall i | 0 <= i < |NormalizeProfile(p)| :: !('A' <= NormalizeProfile(p)[i] <= 'Z')
    ensures NormalizeProfile(NormalizeProfile(p)) == NormalizeProfile(p)
    ensures NormalizeProfile(p) == "" <==> Blank(p)
  {
    var before, after := TrimIs(p);
    BlankIff(p);
    LowerIs(Trim(p));
    var r := NormalizeProfile(p);
    assert r != "" ==> !IsSpace(r[0]) && !IsSpace(r[|r| - 1]);
    assert Trim(r) == r;
    LowerIs(r);
    assert Lower(r) == r;
  }
}
