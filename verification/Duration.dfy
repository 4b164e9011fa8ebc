/** Run duration of internal/sim/contract.go in exact real arithmetic. The logarithm and square root
    are parameters of which only sign and monotonicity are assumed; so is the random draw of the jitter. */
module Duration {
  import opened Sequences
  import opened Workloads

  datatype Curves = Curves(log2: real -> real, sqrt: real -> real)

  ghost predicate Good(c: Curves) {
    && (forall x: real | x >= 1.0 :: c.log2(x) >= 0.0)
    && (forall x: real | x > 0.0 :: c.sqrt(x) > 0.0)
    && (forall x: real, y: real | 0.0 < x <= y :: c.sqrt(x) <= c.sqrt(y))
  }

  datatype HardwareProfile = HardwareProfile(
    memBandwidth: real, peakCompute: Option<real>, interconnect: Option<real>)

  /** Known profiles and the medians their metrics are compared with. */
  datatype Hardware = Hardware(
    profiles: map<string, HardwareProfile>, refBandwidth: real, refCompute: real, refInterconnect: real)

  ghost predicate HardwareOk(h: Hardware) {
    && h.refBandwidth > 0.0 && h.refCompute > 0.0 && h.refInterconnect > 0.0
    && forall p | p in h.profiles :: h.profiles[p].memBandwidth > 0.0
  }

  const TOKENS_PER_SECOND: map<string, real> :=
    map["h100_sxm" := 12000.0, "a100_80gb" := 7000.0, "tpu_v5e_chip" := 6500.0, "trn1_instance" := 5000.0]

  datatype BatchShape = BatchShape(globalBatch: int, microBatch: int, gradAccum: int)

  datatype Runtime = Runtime(
    training: Option<(BatchShape, int)>,             // and sequence length
    inferenceBatch: Option<int>,
    eval: Option<(int, real, real)>,                 // batch, metric and validation overhead
    fineTune: Option<(BatchShape, real, real)>,      // and warm-start and checkpoint overhead
    rlhf: Option<(int, int, int, int)>,              // rollout, reward and update batch, policy steps
    embedding: Option<(int, int, int)>,              // batch, vector dimension, token length
    dataPreprocess: Option<(int, real, real)>,       // input bytes, tokenization, augmentation overhead
    distillation: Option<(int, string, real)>)       // batch, teacher profile, teacher overhead

  /** An enabled jitter: its fraction and the number drawn from [0, 1). */
  datatype Jitter = Jitter(pct: real, draw: real)

  /** All of a runtime input but its token count. */
  datatype Spec = Spec(profile: string, kind: Kind, runtime: Runtime, jitter: Option<Jitter>)

  // ---------------------------------------------------------------- clamps

  function OrElse(v: int, fallback: int): int { if v > 0 then v else fallback }

  function AtMostReal(x: real, hi: real): real { if x > hi then hi else x }

  function Clamp(x: real, lo: real, hi: real): (r: real)
    requires lo <= hi
    ensures lo <= r <= hi
  {
    if x < lo then lo else if x > hi then hi else x
  }

  lemma ClampMonotone(x: real, y: real, lo: real, hi: real)
    requires lo <= hi && x <= y
    ensures Clamp(x, lo, hi) <= Clamp(y, lo, hi)
  {
  }

  // ---------------------------------------------------------------- throughput

  /** One metric relative to its median, floored at a tenth. */
  function Ratio(metric: real, reference: real): (r: real)
    requires reference > 0.0
    ensures r >= 0.1
  {
    if metric / reference < 0.1 then 0.1 else metric / reference
  }

  /** Interconnect matters only with more than one device; the result is held in [0.75, 1.25]. */
  function HardwareFactor(h: Hardware, c: Curves, p: HardwareProfile, devices: int): (f: real)
    requires h.refBandwidth > 0.0 && h.refCompute > 0.0 && h.refInterconnect > 0.0
    ensures 0.75 <= f <= 1.25
  {
    var compute := p.peakCompute.Some? && p.peakCompute.value > 0.0;
    var links := devices > 1 && p.interconnect.Some? && p.interconnect.value > 0.0;
    var weighted :=
      0.60 * c.sqrt(Ratio(p.memBandwidth, h.refBandwidth))
      + (if compute then 0.25 * c.sqrt(Ratio(p.peakCompute.value, h.refCompute)) else 0.0)
      + (if links then 0.15 * c.sqrt(Ratio(p.interconnect.value, h.refInterconnect)) else 0.0);
    var weights := 0.60 + (if compute then 0.25 else 0.0) + (if links then 0.15 else 0.0);
    Clamp(weighted / weights, 0.75, 1.25)
  }

  /** Logarithmic gain from batching, capped. */
  function BatchGain(c: Curves, batch: int, slope: real, cap: real): (g: real)
    requires Good(c) && slope >= 0.0 && cap >= 1.0
    ensures g >= 1.0
  {
    if batch <= 1 then 1.0
    else
      assert c.log2(batch as real) >= 0.0;
      AtMostReal(1.0 + slope * c.log2(batch as real), cap)
  }

  function InferenceGain(c: Curves, kind: Kind, settings: Runtime): (g: real)
    requires Good(c)
    ensures g >= 1.0
  {
    if kind != Inference then 1.0
    else BatchGain(c, if settings.inferenceBatch.Some? then settings.inferenceBatch.value else 1, 0.35, 2.5)
  }

  function EvalGain(c: Curves, kind: Kind, settings: Runtime): (g: real)
    requires Good(c)
    ensures g >= 1.0
  {
    if kind != Eval then 1.0
    else BatchGain(c, if settings.eval.Some? then settings.eval.value.0 else 1, 0.25, 2.0)
  }

  function EmbeddingGain(c: Curves, kind: Kind, settings: Runtime): (g: real)
    requires Good(c)
    ensures g >= 1.0
  {
    if kind != Embedding then 1.0
    else BatchGain(c, if settings.embedding.Some? then settings.embedding.value.0 else 1, 0.22, 2.1)
  }

  // ---------------------------------------------------------------- runtime multipliers

  function ThroughputGain(
      c: Curves, b: BatchShape, parallelSlope: real, parallelMax: real, microSlope: real, microMax: real,
      combined: real)
    : (g: real)
    requires Good(c) && combined >= 1.0
    ensures g >= 1.0
  {
    var globalBatch, microBatch, gradAccum := OrElse(b.globalBatch, 1), OrElse(b.microBatch, 1), OrElse(b.gradAccum, 1);
    assert microBatch * gradAccum >= 1;
    var ratio := (globalBatch as real) / ((microBatch * gradAccum) as real);
    var parallel := AtMostReal(1.0 + parallelSlope * c.log2(if ratio < 1.0 then 1.0 else ratio), parallelMax);
    var micro := AtMostReal(1.0 + microSlope * c.log2(microBatch as real), microMax);
    Clamp(parallel * micro, 1.0, combined)
  }

  function TrainingMultiplier(c: Curves, kind: Kind, settings: Runtime): (m: real)
    requires Good(c)
    ensures 0.35 <= m <= 3.0
  {
    if kind != Training || settings.training.None? then 1.0
    else
      var (b, seqLen) := settings.training.value;
      var gain := ThroughputGain(c, b, 0.20, 1.8, 0.12, 1.5, 2.5);
      var seqPenalty := Clamp(c.sqrt((OrElse(seqLen, 2048) as real) / 2048.0), 0.75, 2.5);
      var gradPenalty := AtMostReal(1.0 + 0.03 * ((OrElse(b.gradAccum, 1) - 1) as real), 1.5);
      Clamp((seqPenalty * gradPenalty) / gain, 0.35, 3.0)
  }

  function NonNegative(x: real): real { if x < 0.0 then 0.0 else x }

  function EvalMultiplier(kind: Kind, settings: Runtime): (m: real)
    ensures 1.0 <= m <= 3.0
  {
    if kind != Eval || settings.eval.None? then 1.0
    else
      var (_, metric, validation) := settings.eval.value;
      Clamp(1.0 + NonNegative(metric) + NonNegative(validation), 1.0, 3.0)
  }

  function FineTuneMultiplier(c: Curves, kind: Kind, settings: Runtime): (m: real)
    requires Good(c)
    ensures 0.4 <= m <= 3.0
  {
    if kind != FineTune || settings.fineTune.None? then 1.0
    else
      var (b, warm, checkpoint) := settings.fineTune.value;
      var gain := ThroughputGain(c, b, 0.18, 1.7, 0.10, 1.4, 2.2);
      var gradPenalty := AtMostReal(1.0 + 0.025 * ((OrElse(b.gradAccum, 1) - 1) as real), 1.4);
      var warmPenalty := AtMostReal(1.0 + NonNegative(warm) + NonNegative(checkpoint), 2.5);
      Clamp((gradPenalty * warmPenalty) / gain, 0.4, 3.0)
  }

  function RlhfMultiplier(c: Curves, kind: Kind, settings: Runtime): (m: real)
    requires Good(c)
    ensures 0.8 <= m <= 4.0
  {
    if kind != Rlhf || settings.rlhf.None? then 1.0
    else
      var (a, b, u, steps) := settings.rlhf.value;
      var rollout, reward, update := OrElse(a, 1) as real, OrElse(b, 1) as real, OrElse(u, 1) as real;
      assert c.sqrt(rollout) > 0.0 && c.sqrt(reward) > 0.0 && c.sqrt(update) > 0.0;
      var rolloutPenalty := 1.0 + 0.20 / c.sqrt(rollout) + 0.015 * c.sqrt(rollout);
      var rewardPenalty := 1.0 + 0.22 / c.sqrt(reward);
      var updatePenalty := (1.0 + 0.18 / c.sqrt(update)) * (1.0 + 0.06 * ((OrElse(steps, 1) - 1) as real));
      Clamp(0.40 * rolloutPenalty + 0.25 * rewardPenalty + 0.35 * updatePenalty, 0.8, 4.0)
  }

  function EmbeddingMultiplier(c: Curves, kind: Kind, settings: Runtime): (m: real)
    ensures 0.6 <= m <= 3.5
  {
    if kind != Embedding || settings.embedding.None? then 1.0
    else
      var (_, dimension, length) := settings.embedding.value;
      var vectorPenalty := Clamp(c.sqrt((OrElse(dimension, 1024) as real) / 1024.0), 0.7, 2.5);
      var tokenPenalty := Clamp(c.sqrt((OrElse(length, 512) as real) / 512.0), 0.7, 2.5);
      Clamp(vectorPenalty * tokenPenalty, 0.6, 3.5)
  }

  /** Bytes to preprocess; callers that give none are charged four per token. */
  function InputBytes(given: int, tokens: int): int {
    var bytes := if given <= 0 then tokens * 4 else given;
    if bytes <= 0 then 4000000 else bytes
  }

  function PreprocessFactor(volume: real, overhead: real): (m: real)
    ensures 0.6 <= m <= 6.0
  {
    Clamp(Clamp(volume, 0.6, 4.0) * overhead, 0.6, 6.0)
  }

  function DataPreprocessMultiplier(c: Curves, kind: Kind, settings: Runtime, tokens: int): (m: real)
    ensures 0.6 <= m <= 6.0
  {
    if kind != DataPreprocess || settings.dataPreprocess.None? then 1.0
    else
      var (given, tokenization, augmentation) := settings.dataPreprocess.value;
      PreprocessFactor(
        c.sqrt((InputBytes(given, tokens) as real) / 4000000.0),
        1.0 + NonNegative(tokenization) + NonNegative(augmentation))
  }

  /** The root of the ratio of two profiles' rates, where both are known. */
  function ProfilePenalty(c: Curves, student: string, teacher: string): (p: real)
    ensures 0.75 <= p <= 1.5
  {
    if student in TOKENS_PER_SECOND && teacher in TOKENS_PER_SECOND && TOKENS_PER_SECOND[teacher] > 0.0
    then Clamp(c.sqrt(TOKENS_PER_SECOND[student] / TOKENS_PER_SECOND[teacher]), 0.75, 1.5) else 1.0
  }

  function DistillationFactor(overhead: real, penalty: real, gain: real): (m: real)
    requires gain >= 1.0
    ensures 0.6 <= m <= 3.5
  {
    Clamp((1.0 + overhead) * penalty / gain, 0.6, 3.5)
  }

  function DistillationMultiplier(c: Curves, kind: Kind, settings: Runtime, profile: string): (m: real)
    requires Good(c)
    ensures 0.6 <= m <= 3.5
  {
    if kind != Distillation || settings.distillation.None? then 1.0
    else
      var (batch, teacher, overhead) := settings.distillation.value;
      assert c.log2(OrElse(batch, 1) as real) >= 0.0;
      var batchGain := AtMostReal(1.0 + 0.20 * c.log2(OrElse(batch, 1) as real), 2.0);
      DistillationFactor(overhead, ProfilePenalty(c, Lower(Trim(profile)), Lower(Trim(teacher))), batchGain)
  }

  // ---------------------------------------------------------------- the estimate

  predicate Known(h: Hardware, x: Spec) {
    Lower(x.profile) in TOKENS_PER_SECOND && Lower(x.profile) in h.profiles
  }

  /** A quantity scaled by one factor after another. */
  function Product(a: real, ms: seq<real>): real
    decreases |ms|
  {
    if ms == [] then a else Product(a * ms[0], ms[1..])
  }

  function Gains(c: Curves, x: Spec): (gs: seq<real>)
    requires Good(c)
    ensures forall i | 0 <= i < |gs| :: gs[i] >= 1.0
  {
    [InferenceGain(c, x.kind, x.runtime), EvalGain(c, x.kind, x.runtime), EmbeddingGain(c, x.kind, x.runtime)]
  }

  function DeviceRate(base: real, factor: real, devices: real): real { base * factor * devices }

  /** Tokens per second on that many devices. */
  function Rate(h: Hardware, c: Curves, x: Spec, devices: int): real
    requires Good(c) && HardwareOk(h) && Known(h, x)
  {
    var base, p := TOKENS_PER_SECOND[Lower(x.profile)], h.profiles[Lower(x.profile)];
    Product(DeviceRate(base, HardwareFactor(h, c, p, devices), devices as real), Gains(c, x))
  }

  function Multipliers(c: Curves, x: Spec, tokens: int): (ms: seq<real>)
    requires Good(c)
    ensures |ms| == 7 && forall i | 0 <= i < |ms| :: 0.35 <= ms[i] <= 6.0
  {
    [TrainingMultiplier(c, x.kind, x.runtime), EvalMultiplier(x.kind, x.runtime),
     FineTuneMultiplier(c, x.kind, x.runtime), RlhfMultiplier(c, x.kind, x.runtime),
     EmbeddingMultiplier(c, x.kind, x.runtime), DataPreprocessMultiplier(c, x.kind, x.runtime, tokens),
     DistillationMultiplier(c, x.kind, x.runtime, x.profile)]
  }

  function AtLeastOne(x: real): real { if x < 1.0 then 1.0 else x }

  /** A uniform fraction in [1 - pct, 1 + pct). */
  function Swing(j: Jitter): real { 1.0 + (j.draw * 2.0 - 1.0) * j.pct }

  function Swung(seconds: real, swing: real): real { AtLeastOne(seconds * swing) }

  function Jittered(seconds: real, jitter: Option<Jitter>): real {
    if jitter.None? then seconds else Swung(seconds, Swing(jitter.value))
  }

  function Ceil(x: real): int { -((-x).Floor) }

  predicate JitterOk(jitter: Option<Jitter>) { jitter.Some? ==> 0.0 < jitter.value.pct <= 1.0 }

  predicate Accepted(h: Hardware, x: Spec, tokens: int, devices: int) {
    tokens > 0 && devices > 0 && Known(h, x) && JitterOk(x.jitter)
  }

  /** Seconds for so many tokens at so many a second. */
  function Per(tokens: int, rate: real): real
    requires rate > 0.0
  {
    (tokens as real) / rate
  }

  /** Seconds at the plain rate. */
  function BaseSeconds(h: Hardware, c: Curves, x: Spec, tokens: int, devices: int): real
    requires Good(c) && HardwareOk(h) && Known(h, x) && tokens > 0 && devices > 0
  {
    RatePositive(h, c, x, devices);
    Per(tokens, Rate(h, c, x, devices))
  }

  /** Seconds before jitter, at least one. */
  function Seconds(h: Hardware, c: Curves, x: Spec, tokens: int, devices: int): real
    requires Good(c) && HardwareOk(h) && Known(h, x) && tokens > 0 && devices > 0
  {
    AtLeastOne(Product(BaseSeconds(h, c, x, tokens, devices), Multipliers(c, x, tokens)))
  }

  /** Whole seconds, or nothing if the input is refused. */
  function EstimateDuration(h: Hardware, c: Curves, x: Spec, tokens: int, devices: int): (r: Option<int>)
    requires Good(c) && HardwareOk(h)
    ensures r.Some? <==> Accepted(h, x, tokens, devices)
    ensures r.Some? ==>
              var seconds := Jittered(Seconds(h, c, x, tokens, devices), x.jitter);
              (r.value - 1) as real < seconds <= r.value as real
  {
    if tokens <= 0 then None
    else if devices <= 0 then None
    else if !Known(h, x) then None
    else
      var seconds := Seconds(h, c, x, tokens, devices);
      if JitterOk(x.jitter) then Some(Ceil(Jittered(seconds, x.jitter))) else None
  }

  // ---------------------------------------------------------------- real arithmetic

  lemma ProductMonotone(a: real, b: real, m: real, n: real)
    requires 0.0 <= a <= b && 0.0 <= m <= n
    ensures 0.0 <= a * m <= b * n
  {
    assert a * m <= b * m;
    assert b * m <= b * n;
  }

  lemma QuotientMonotone(a: real, b: real, r: real, s: real)
    requires 0.0 <= a <= b && 0.0 < s <= r
    ensures 0.0 <= a / r <= b / s
  {
    QuotientsOrdered(a / r, b / s, r, s);
  }

  lemma QuotientsOrdered(x: real, y: real, r: real, s: real)
    requires 0.0 <= x * r <= y * s && 0.0 < s <= r
    ensures 0.0 <= x <= y
  {
    assert x >= 0.0;
    assert x * s <= x * r;
  }

  lemma CeilMonotone(x: real, y: real)
    requires x <= y
    ensures Ceil(x) <= Ceil(y)
  {
    assert -y <= -x;
  }

  ghost predicate Pointwise(ms: seq<real>, ns: seq<real>) {
    |ms| == |ns| && forall i | 0 <= i < |ms| :: 0.0 < ms[i] <= ns[i]
  }

  lemma {:induction false} ProductGrows(a: real, b: real, ms: seq<real>, ns: seq<real>)
    requires 0.0 < a <= b && Pointwise(ms, ns)
    ensures 0.0 < Product(a, ms) <= Product(b, ns)
    decreases |ms|
  {
    if ms != [] {
      ProductPositive(a, ms[0]);
      ProductMonotone(a, b, ms[0], ns[0]);
      ProductGrows(a * ms[0], b * ns[0], ms[1..], ns[1..]);
    }
  }

  lemma ProductPositive(a: real, b: real)
    requires a > 0.0 && b > 0.0
    ensures a * b > 0.0
  {
  }

  lemma DeviceRateGrows(base: real, f: real, m: real, g: real, n: real)
    requires base > 0.0 && 0.0 < f * m <= g * n
    ensures 0.0 < DeviceRate(base, f, m) <= DeviceRate(base, g, n)
  {
    assert DeviceRate(base, f, m) == base * (f * m);
    assert DeviceRate(base, g, n) == base * (g * n);
    ProductPositive(base, f * m);
    ProductMonotone(base, base, f * m, g * n);
  }

  // ---------------------------------------------------------------- devices

  /** Adding devices never lowers the effective device count: two devices at the lowest factor still
      beat one at the highest. */
  lemma EffectiveDevicesGrow(h: Hardware, c: Curves, p: HardwareProfile, m: int, n: int)
    requires HardwareOk(h) && 0 < m <= n
    ensures 0.0 < HardwareFactor(h, c, p, m) * (m as real) <= HardwareFactor(h, c, p, n) * (n as real)
  {
    var f, g := HardwareFactor(h, c, p, m), HardwareFactor(h, c, p, n);
    EffectiveGrows(f, g, m, n) by {
      assert (m > 1) == (n > 1) ==> f == g;
    }
  }

  lemma EffectiveGrows(f: real, g: real, m: int, n: int)
    requires 0.75 <= f <= 1.25 && 0.75 <= g <= 1.25 && 0 < m <= n
    requires (m > 1) == (n > 1) ==> f == g
    ensures 0.0 < f * (m as real) <= g * (n as real)
  {
    ProductMonotone(0.75, f, 1.0, m as real);
    if f == g {
      ProductMonotone(f, g, m as real, n as real);
    } else {
      ProductMonotone(0.75, g, 2.0, n as real);
    }
  }

  lemma RateGrows(h: Hardware, c: Curves, x: Spec, m: int, n: int)
    requires Good(c) && HardwareOk(h) && Known(h, x) && 0 < m <= n
    ensures 0.0 < Rate(h, c, x, m) <= Rate(h, c, x, n)
  {
    var p := h.profiles[Lower(x.profile)];
    EffectiveDevicesGrow(h, c, p, m, n);
    var base := TOKENS_PER_SECOND[Lower(x.profile)];
    var f, g := HardwareFactor(h, c, p, m), HardwareFactor(h, c, p, n);
    DeviceRateGrows(base, f, m as real, g, n as real);
    ProductGrows(DeviceRate(base, f, m as real), DeviceRate(base, g, n as real), Gains(c, x), Gains(c, x));
  }

  lemma RatePositive(h: Hardware, c: Curves, x: Spec, devices: int)
    requires Good(c) && HardwareOk(h) && Known(h, x) && devices > 0
    ensures Rate(h, c, x, devices) > 0.0
  {
    RateGrows(h, c, x, devices, devices);
  }

  // ---------------------------------------------------------------- tokens

  lemma PreprocessFactorGrows(v: real, w: real, overhead: real)
    requires v <= w && overhead >= 1.0
    ensures PreprocessFactor(v, overhead) <= PreprocessFactor(w, overhead)
  {
    ClampMonotone(v, w, 0.6, 4.0);
    ClampedProductGrows(Clamp(v, 0.6, 4.0), Clamp(w, 0.6, 4.0), overhead);
  }

  lemma ClampedProductGrows(a: real, b: real, m: real)
    requires 0.0 <= a <= b && m >= 0.0
    ensures Clamp(a * m, 0.6, 6.0) <= Clamp(b * m, 0.6, 6.0)
  {
    ProductMonotone(a, b, m, m);
    ClampMonotone(a * m, b * m, 0.6, 6.0);
  }

  lemma PreprocessGrows(c: Curves, x: Spec, t: int, u: int)
    requires Good(c) && 0 < t <= u
    ensures DataPreprocessMultiplier(c, x.kind, x.runtime, t) <= DataPreprocessMultiplier(c, x.kind, x.runtime, u)
  {
    if x.kind == DataPreprocess && x.runtime.dataPreprocess.Some? {
      var (given, tokenization, augmentation) := x.runtime.dataPreprocess.value;
      var a, b := (InputBytes(given, t) as real) / 4000000.0, (InputBytes(given, u) as real) / 4000000.0;
      assert 0.0 < a <= b;
      assert c.sqrt(a) <= c.sqrt(b);
      PreprocessFactorGrows(c.sqrt(a), c.sqrt(b), 1.0 + NonNegative(tokenization) + NonNegative(augmentation));
    }
  }

  lemma MultipliersGrow(c: Curves, x: Spec, t: int, u: int)
    requires Good(c) && 0 < t <= u
    ensures Pointwise(Multipliers(c, x, t), Multipliers(c, x, u))
  {
    PreprocessGrows(c, x, t, u);
  }

  lemma SwungGrows(s: real, t: real, swing: real)
    requires 0.0 <= s <= t && swing >= 0.0
    ensures 1.0 <= Swung(s, swing) <= Swung(t, swing)
  {
    ProductMonotone(s, t, swing, swing);
    AtLeastOneGrows(s * swing, t * swing);
  }

  lemma AtLeastOneGrows(x: real, y: real)
    requires x <= y
    ensures 1.0 <= AtLeastOne(x) <= AtLeastOne(y)
  {
  }

  lemma JitteredGrows(s: real, t: real, jitter: Option<Jitter>)
    requires 1.0 <= s <= t && JitterOk(jitter) && (jitter.Some? ==> 0.0 <= jitter.value.draw < 1.0)
    ensures 1.0 <= Jittered(s, jitter) <= Jittered(t, jitter)
  {
    if jitter.Some? {
      SwingNonNegative(jitter.value);
      SwungGrows(s, t, Swing(jitter.value));
    }
  }

  lemma SwingNonNegative(j: Jitter)
    requires 0.0 < j.pct <= 1.0 && 0.0 <= j.draw < 1.0
    ensures Swing(j) >= 0.0
  {
    ProductMonotone(0.0, j.draw, 0.0, j.pct);
  }

  // ---------------------------------------------------------------- what the estimate promises

  lemma {:induction false} ProductOfOnes(a: real, ms: seq<real>)
    requires forall i | 0 <= i < |ms| :: ms[i] == 1.0
    ensures Product(a, ms) == a
    decreases |ms|
  {
    if ms != [] {
      ProductOfOnes(a, ms[1..]);
      assert a * ms[0] == a;
    }
  }

  ghost predicate OnesBut(ms: seq<real>, k: nat) {
    k < |ms| && forall i | 0 <= i < |ms| && i != k :: ms[i] == 1.0
  }

  lemma {:induction false} OneFactor(a: real, ms: seq<real>, k: nat)
    requires OnesBut(ms, k)
    ensures Product(a, ms) == Product(a, [ms[k]])
    decreases |ms|
  {
    if k == 0 {
      ProductOfOnes(a * ms[0], ms[1..]);
    } else {
      OneFactor(a, ms[1..], k - 1);
      assert a * ms[0] == a;
    }
  }

  /** Place in the chain of the one multiplier a kind answers to. */
  function OwnIndex(kind: Kind): nat {
    match kind
    case Eval => 1
    case FineTune => 2
    case Rlhf => 3
    case Embedding => 4
    case DataPreprocess => 5
    case Distillation => 6
    case _ => 0
  }

  /** The chain of seven multipliers comes down to the workload's own. */
  lemma OwnKindDecides(seconds: real, c: Curves, x: Spec, tokens: int)
    requires Good(c)
    ensures Product(seconds, Multipliers(c, x, tokens))
         == Product(seconds, [Multipliers(c, x, tokens)[OwnIndex(x.kind)]])
  {
    OthersAreOne(c, x, tokens);
    OneFactor(seconds, Multipliers(c, x, tokens), OwnIndex(x.kind));
  }

  lemma OthersAreOne(c: Curves, x: Spec, tokens: int)
    requires Good(c)
    ensures OnesBut(Multipliers(c, x, tokens), OwnIndex(x.kind))
  {
  }

  lemma QuotientGrows(t: int, u: int, r: real, s: real)
    requires 0 < t <= u && 0.0 < s <= r
    ensures 0.0 < (t as real) / r <= (u as real) / s
  {
    QuotientMonotone(t as real, u as real, r, s);
  }

  lemma BaseGrows(h: Hardware, c: Curves, x: Spec, t: int, u: int, m: int, n: int)
    requires Good(c) && HardwareOk(h) && Known(h, x) && 0 < t <= u && 0 < m <= n
    ensures 0.0 < BaseSeconds(h, c, x, t, n) <= BaseSeconds(h, c, x, u, m)
  {
    RateGrows(h, c, x, m, n);
    QuotientGrows(t, u, Rate(h, c, x, n), Rate(h, c, x, m));
  }

  lemma ScaledGrows(a: real, b: real, ms: seq<real>, ns: seq<real>)
    requires 0.0 < a <= b && Pointwise(ms, ns)
    ensures 1.0 <= AtLeastOne(Product(a, ms)) <= AtLeastOne(Product(b, ns))
  {
    ProductGrows(a, b, ms, ns);
    AtLeastOneGrows(Product(a, ms), Product(b, ns));
  }

  lemma SecondsGrow(h: Hardware, c: Curves, x: Spec, t: int, u: int, m: int, n: int)
    requires Good(c) && HardwareOk(h) && Known(h, x) && 0 < t <= u && 0 < m <= n
    ensures 1.0 <= Seconds(h, c, x, t, n) <= Seconds(h, c, x, u, m)
  {
    BaseGrows(h, c, x, t, u, m, n);
    MultipliersGrow(c, x, t, u);
    ScaledGrows(BaseSeconds(h, c, x, t, n), BaseSeconds(h, c, x, u, m), Multipliers(c, x, t), Multipliers(c, x, u));
  }

  /** With the same draw, more tokens never shorten a run and more devices never lengthen it; an
      accepted run lasts at least one second. */
  lemma DurationMonotone(h: Hardware, c: Curves, x: Spec, t: int, u: int, m: int, n: int)
    requires Good(c) && HardwareOk(h) && Accepted(h, x, t, m) && t <= u && m <= n
    requires x.jitter.Some? ==> 0.0 <= x.jitter.value.draw < 1.0
    ensures 1 <= EstimateDuration(h, c, x, t, n).value <= EstimateDuration(h, c, x, u, m).value
  {
    SecondsGrow(h, c, x, t, u, m, n);
    var s, v := Seconds(h, c, x, t, n), Seconds(h, c, x, u, m);
    JitteredGrows(s, v, x.jitter);
    CeilMonotone(1.0, Jittered(s, x.jitter));
    CeilMonotone(Jittered(s, x.jitter), Jittered(v, x.jitter));
  }
}
