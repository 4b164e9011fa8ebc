/** How long runs take, in numbers: the rates of the four profiles and the effect of each runtime setting
    (estimateDuration and its multipliers in internal/sim/contract.go), on hardware at the reference figures. */
module Calibration {
  import opened Sequences
  import opened Workloads
  import opened Duration

  // ---------------------------------------------------------------- at the reference

  /** Every metric the profile has is the reference figure. */
  ghost predicate AtReference(h: Hardware, p: HardwareProfile) {
    && p.memBandwidth == h.refBandwidth
    && (p.peakCompute.Some? ==> p.peakCompute.value == h.refCompute)
    && (p.interconnect.Some? ==> p.interconnect.value == h.refInterconnect)
  }

  /** A known profile at the reference, and no jitter. */
  ghost predicate Calibrated(h: Hardware, c: Curves, x: Spec) {
    && Good(c) && c.sqrt(1.0) == 1.0 && c.log2(1.0) == 0.0 && HardwareOk(h) && x.jitter.None?
    && Known(h, x) && AtReference(h, h.profiles[Lower(x.profile)])
  }

  /** The estimate is so many seconds, rounded up to whole ones, and at least one. */
  predicate RoundedUp(r: Option<int>, seconds: real) {
    r.Some? && r.value >= 1 && seconds <= r.value as real && (r.value > 1 ==> (r.value - 1) as real < seconds)
  }

  /** `n` is the least positive number of seconds in which `tokens` are done at so many a second. */
  predicate LeastSeconds(n: int, tokens: int, perSecond: int) {
    n >= 1 && tokens <= n * perSecond && (n > 1 ==> (n - 1) * perSecond < tokens)
  }

  lemma FactorIsOne(h: Hardware, c: Curves, p: HardwareProfile, devices: int)
    requires HardwareOk(h) && c.sqrt(1.0) == 1.0 && AtReference(h, p)
    ensures HardwareFactor(h, c, p, devices) == 1.0
  {
    RatioToItself(h.refBandwidth);
    RatioToItself(h.refCompute);
    RatioToItself(h.refInterconnect);
  }

  lemma RatioToItself(a: real)
    requires a > 0.0
    ensures Ratio(a, a) == 1.0
  {
    var q := a / a;
    assert q * a == a;
    assert (q - 1.0) * a == 0.0;
  }

  /** Place in the chain of the one gain a kind answers to. */
  function OwnGain(kind: Kind): nat {
    match kind
    case Eval => 1
    case Embedding => 2
    case _ => 0
  }

  lemma ProductOfOne(a: real, m: real)
    ensures Product(a, [m]) == a * m
  {
    assert [m][1..] == [];
  }

  /** Tokens a second: a rate, a gain, and the number of devices. */
  function RateAt(base: real, gain: real, devices: int): real { base * gain * (devices as real) }

  lemma RateAtPositive(base: real, gain: real, devices: int)
    requires base > 0.0 && gain > 0.0 && devices > 0
    ensures RateAt(base, gain, devices) > 0.0
  {
    ProductPositive(base, gain);
    ProductPositive(base * gain, devices as real);
  }

  /** `factor` times the seconds for so many tokens at that rate. */
  function TimeAt(tokens: int, devices: int, base: real, gain: real, factor: real): real
    requires devices > 0 && base > 0.0 && gain > 0.0
  {
    RateAtPositive(base, gain, devices);
    (tokens as real) / RateAt(base, gain, devices) * factor
  }

  lemma RoundedFrom(r: Option<int>, seconds: real)
    requires r.Some? && ((r.value - 1) as real) < AtLeastOne(seconds) <= (r.value as real)
    ensures RoundedUp(r, seconds)
  {
  }

  lemma EstimateRoundsUp(h: Hardware, c: Curves, x: Spec, tokens: int, devices: int)
    requires Good(c) && HardwareOk(h) && Accepted(h, x, tokens, devices) && x.jitter.None?
    ensures RoundedUp(EstimateDuration(h, c, x, tokens, devices),
                      Product(BaseSeconds(h, c, x, tokens, devices), Multipliers(c, x, tokens)))
  {
    RoundedFrom(EstimateDuration(h, c, x, tokens, devices),
                Product(BaseSeconds(h, c, x, tokens, devices), Multipliers(c, x, tokens)));
  }

  lemma RateFrom(base: real, devices: int, gs: seq<real>, i: nat)
    requires OnesBut(gs, i)
    ensures Product(DeviceRate(base, 1.0, devices as real), gs) == RateAt(base, gs[i], devices)
  {
    var d := DeviceRate(base, 1.0, devices as real);
    OneFactor(d, gs, i);
    ProductOfOne(d, gs[i]);
    assert base * (devices as real) * gs[i] == base * gs[i] * (devices as real);
  }

  lemma RateIs(h: Hardware, c: Curves, x: Spec, devices: int, base: real)
    requires Calibrated(h, c, x) && base == TOKENS_PER_SECOND[Lower(x.profile)]
    ensures Rate(h, c, x, devices) == RateAt(base, Gains(c, x)[OwnGain(x.kind)], devices)
  {
    FactorIsOne(h, c, h.profiles[Lower(x.profile)], devices);
    RateFrom(base, devices, Gains(c, x), OwnGain(x.kind));
  }

  lemma Compose(r: Option<int>, tokens: int, devices: int, base: real, gain: real, factor: real)
    requires devices > 0 && base > 0.0 && gain > 0.0 && RateAt(base, gain, devices) > 0.0
    requires RoundedUp(r, Product(Per(tokens, RateAt(base, gain, devices)), [factor]))
    ensures RoundedUp(r, TimeAt(tokens, devices, base, gain, factor))
  {
    ProductOfOne(Per(tokens, RateAt(base, gain, devices)), factor);
  }

  // The parts of an estimate, as functions of the run.

  ghost function Estimates(h: Hardware, c: Curves): (Spec, int, int) -> Option<int> {
    (x: Spec, t: int, d: int) => if Good(c) && HardwareOk(h) then EstimateDuration(h, c, x, t, d) else None
  }

  ghost function OwnFactors(c: Curves): (Spec, int) -> real {
    (x: Spec, t: int) => if Good(c) then Multipliers(c, x, t)[OwnIndex(x.kind)] else 1.0
  }

  ghost function OwnGains(c: Curves): Spec -> real {
    (x: Spec) => if Good(c) then Gains(c, x)[OwnGain(x.kind)] else 1.0
  }

  lemma TimeIs(h: Hardware, c: Curves, x: Spec, tokens: int, devices: int, base: real)
    requires Calibrated(h, c, x) && tokens > 0 && devices > 0
    requires base == TOKENS_PER_SECOND[Lower(x.profile)] && base > 0.0
    ensures OwnGains(c)(x) >= 1.0
    ensures RoundedUp(Estimates(h, c)(x, tokens, devices),
                      TimeAt(tokens, devices, base, OwnGains(c)(x), OwnFactors(c)(x, tokens)))
  {
    var seconds := BaseSeconds(h, c, x, tokens, devices);
    EstimateRoundsUp(h, c, x, tokens, devices);
    OwnKindDecides(seconds, c, x, tokens);
    RateIs(h, c, x, devices, base);
    RateAtPositive(base, Gains(c, x)[OwnGain(x.kind)], devices);
    Compose(EstimateDuration(h, c, x, tokens, devices), tokens, devices, base,
            Gains(c, x)[OwnGain(x.kind)], Multipliers(c, x, tokens)[OwnIndex(x.kind)]);
  }

  // ---------------------------------------------------------------- the four profiles

  lemma Rates()
    ensures "h100_sxm" in TOKENS_PER_SECOND && TOKENS_PER_SECOND["h100_sxm"] == 12000.0
    ensures "a100_80gb" in TOKENS_PER_SECOND && TOKENS_PER_SECOND["a100_80gb"] == 7000.0
    ensures "tpu_v5e_chip" in TOKENS_PER_SECOND && TOKENS_PER_SECOND["tpu_v5e_chip"] == 6500.0
    ensures "trn1_instance" in TOKENS_PER_SECOND && TOKENS_PER_SECOND["trn1_instance"] == 5000.0
  {
    assert "h100_sxm"[0] == 'h' && "a100_80gb"[0] == 'a';
    assert "tpu_v5e_chip"[1] == 'p' && "trn1_instance"[1] == 'r';
    assert "tpu_v5e_chip"[0] == 't' && "trn1_instance"[0] == 't';
  }

  lemma ScaledBelow(a: real, b: real, p: real)
    requires p > 0.0
    ensures a <= b ==> a * p <= b * p
    ensures a < b ==> a * p < b * p
  {
  }

  lemma ProductAsReal(a: int, b: int)
    ensures (a as real) * (b as real) == (a * b) as real
  {
  }

  lemma LeastFrom(n: int, tokens: int, per: int, s: real)
    requires per > 0 && s * (per as real) == tokens as real
    requires n >= 1 && s <= n as real && (n > 1 ==> (n - 1) as real < s)
    ensures LeastSeconds(n, tokens, per)
  {
    ScaledBelow(s, n as real, per as real);
    ProductAsReal(n, per);
    if n > 1 {
      ScaledBelow((n - 1) as real, s, per as real);
      ProductAsReal(n - 1, per);
    }
  }

  lemma LeastIsRoundedUp(r: Option<int>, tokens: int, devices: int, rate: int)
    requires devices > 0 && rate > 0
    requires RoundedUp(r, TimeAt(tokens, devices, rate as real, 1.0, 1.0))
    ensures LeastSeconds(r.value, tokens, rate * devices)
  {
    var s := TimeAt(tokens, devices, rate as real, 1.0, 1.0);
    ProductAsReal(rate, devices);
    assert RateAt(rate as real, 1.0, devices) == (rate * devices) as real;
    LeastFrom(r.value, tokens, rate * devices, s);
  }

  lemma PlainTimeAt(h: Hardware, c: Curves, x: Spec, tokens: int, devices: int, rate: int)
    requires Calibrated(h, c, x) && tokens > 0 && devices > 0 && x.kind == Training && x.runtime.training.None?
    requires TOKENS_PER_SECOND[Lower(x.profile)] == rate as real && rate > 0
    ensures EstimateDuration(h, c, x, tokens, devices).Some?
    ensures LeastSeconds(EstimateDuration(h, c, x, tokens, devices).value, tokens, rate * devices)
  {
    var base := rate as real;
    assert OwnGains(c)(x) == 1.0 && OwnFactors(c)(x, tokens) == 1.0;
    TimeIs(h, c, x, tokens, devices, base);
    LeastIsRoundedUp(Estimates(h, c)(x, tokens, devices), tokens, devices, rate);
  }

  /** Without settings of its kind a run does this many tokens a second and device. */
  lemma PlainTime(h: Hardware, c: Curves, x: Spec, tokens: int, devices: int)
    requires Calibrated(h, c, x) && tokens > 0 && devices > 0 && x.kind == Training && x.runtime.training.None?
    ensures EstimateDuration(h, c, x, tokens, devices).Some?
    ensures var n := EstimateDuration(h, c, x, tokens, devices).value;
            && (Lower(x.profile) == "h100_sxm" ==> LeastSeconds(n, tokens, 12000 * devices))
            && (Lower(x.profile) == "a100_80gb" ==> LeastSeconds(n, tokens, 7000 * devices))
            && (Lower(x.profile) == "tpu_v5e_chip" ==> LeastSeconds(n, tokens, 6500 * devices))
            && (Lower(x.profile) == "trn1_instance" ==> LeastSeconds(n, tokens, 5000 * devices))
  {
    Rates();
    if Lower(x.profile) == "h100_sxm" {
      PlainTimeAt(h, c, x, tokens, devices, 12000);
    } else if Lower(x.profile) == "a100_80gb" {
      PlainTimeAt(h, c, x, tokens, devices, 7000);
    } else if Lower(x.profile) == "tpu_v5e_chip" {
      PlainTimeAt(h, c, x, tokens, devices, 6500);
    } else if Lower(x.profile) == "trn1_instance" {
      PlainTimeAt(h, c, x, tokens, devices, 5000);
    }
  }

  lemma FasterDeviceRate(a: real, b: real, f: real, devices: real)
    requires 0.0 < a <= b && f > 0.0 && devices > 0.0
    ensures 0.0 < DeviceRate(a, f, devices) <= DeviceRate(b, f, devices)
  {
    ProductPositive(a, f);
    ProductPositive(a * f, devices);
    ProductMonotone(a, b, f, f);
    ProductMonotone(a * f, b * f, devices, devices);
  }

  lemma FasterRate(h: Hardware, c: Curves, x: Spec, y: Spec, devices: int)
    requires Good(c) && HardwareOk(h) && Known(h, x) && Known(h, y) && devices > 0 && y == x.(profile := y.profile)
    requires h.profiles[Lower(x.profile)] == h.profiles[Lower(y.profile)]
    requires TOKENS_PER_SECOND[Lower(x.profile)] >= TOKENS_PER_SECOND[Lower(y.profile)] > 0.0
    ensures 0.0 < Rate(h, c, y, devices) <= Rate(h, c, x, devices)
  {
    var f := HardwareFactor(h, c, h.profiles[Lower(x.profile)], devices);
    var a, b := TOKENS_PER_SECOND[Lower(y.profile)], TOKENS_PER_SECOND[Lower(x.profile)];
    FasterDeviceRate(a, b, f, devices as real);
    assert Gains(c, x) == Gains(c, y);
    ProductGrows(DeviceRate(a, f, devices as real), DeviceRate(b, f, devices as real), Gains(c, x), Gains(c, x));
  }

  lemma SameMultipliers(c: Curves, x: Spec, y: Spec, tokens: int)
    requires Good(c) && y == x.(profile := y.profile) && x.kind != Distillation
    ensures Multipliers(c, x, tokens) == Multipliers(c, y, tokens)
  {
  }

  lemma FasterSeconds(h: Hardware, c: Curves, x: Spec, y: Spec, tokens: int, devices: int)
    requires Good(c) && HardwareOk(h) && Known(h, x) && Known(h, y) && y == x.(profile := y.profile)
    requires tokens > 0 && devices > 0 && x.kind != Distillation
    requires 0.0 < Rate(h, c, y, devices) <= Rate(h, c, x, devices)
    ensures 1.0 <= Seconds(h, c, x, tokens, devices) <= Seconds(h, c, y, tokens, devices)
  {
    QuotientGrows(tokens, tokens, Rate(h, c, x, devices), Rate(h, c, y, devices));
    SameMultipliers(c, x, y, tokens);
    ScaledGrows(BaseSeconds(h, c, x, tokens, devices), BaseSeconds(h, c, y, tokens, devices),
                Multipliers(c, x, tokens), Multipliers(c, y, tokens));
  }

  lemma RoundedAlike(a: int, b: int, s: real, t: real)
    requires s <= t && ((a - 1) as real) < s && t <= (b as real)
    ensures a <= b
  {
  }

  lemma FasterTakesLess(h: Hardware, c: Curves, x: Spec, y: Spec, tokens: int, devices: int)
    requires Good(c) && HardwareOk(h) && y == x.(profile := y.profile)
    requires Accepted(h, x, tokens, devices) && Accepted(h, y, tokens, devices)
    requires h.profiles[Lower(x.profile)] == h.profiles[Lower(y.profile)] && x.kind != Distillation
    requires TOKENS_PER_SECOND[Lower(x.profile)] >= TOKENS_PER_SECOND[Lower(y.profile)] > 0.0
    requires x.jitter.Some? ==> 0.0 <= x.jitter.value.draw < 1.0
    ensures EstimateDuration(h, c, x, tokens, devices).value <= EstimateDuration(h, c, y, tokens, devices).value
  {
    FasterRate(h, c, x, y, devices);
    FasterSeconds(h, c, x, y, tokens, devices);
    var s, t := Seconds(h, c, x, tokens, devices), Seconds(h, c, y, tokens, devices);
    JitteredGrows(s, t, x.jitter);
    RoundedAlike(EstimateDuration(h, c, x, tokens, devices).value, EstimateDuration(h, c, y, tokens, devices).value,
                 Jittered(s, x.jitter), Jittered(t, x.jitter));
  }

  /** On equal metrics, and whatever else is set, h100 is no slower than a100, that than the TPU, and that
      than Trainium. (A distillation also compares its profile with its teacher's.) */
  lemma FasterFirst(h: Hardware, c: Curves, x: Spec, y: Spec, tokens: int, devices: int)
    requires Good(c) && HardwareOk(h) && y == x.(profile := y.profile)
    requires Accepted(h, x, tokens, devices) && Accepted(h, y, tokens, devices)
    requires h.profiles[Lower(x.profile)] == h.profiles[Lower(y.profile)] && x.kind != Distillation
    requires x.jitter.Some? ==> 0.0 <= x.jitter.value.draw < 1.0
    requires || (Lower(x.profile) == "h100_sxm" && Lower(y.profile) == "a100_80gb")
             || (Lower(x.profile) == "a100_80gb" && Lower(y.profile) == "tpu_v5e_chip")
             || (Lower(x.profile) == "tpu_v5e_chip" && Lower(y.profile) == "trn1_instance")
    ensures EstimateDuration(h, c, x, tokens, devices).value <= EstimateDuration(h, c, y, tokens, devices).value
  {
    Rates();
    FasterTakesLess(h, c, x, y, tokens, devices);
  }

  // ---------------------------------------------------------------- settings, one kind at a time

  /** A run on h100 at the reference. */
  ghost predicate OnH100(h: Hardware, c: Curves, x: Spec, tokens: int, devices: int) {
    Calibrated(h, c, x) && Lower(x.profile) == "h100_sxm" && tokens > 0 && devices > 0
  }

  /** The estimate of the run is `factor` times its tokens at `gain` times 12000 a second and device. */
  ghost predicate Takes(h: Hardware, c: Curves, x: Spec, tokens: int, devices: int, gain: real, factor: real)
    requires devices > 0 && gain > 0.0
  {
    RoundedUp(Estimates(h, c)(x, tokens, devices), TimeAt(tokens, devices, 12000.0, gain, factor))
  }

  lemma TakesOwn(h: Hardware, c: Curves, x: Spec, tokens: int, devices: int)
    requires OnH100(h, c, x, tokens, devices)
    ensures OwnGains(c)(x) >= 1.0 && Takes(h, c, x, tokens, devices, OwnGains(c)(x), OwnFactors(c)(x, tokens))
  {
    Rates();
    TimeIs(h, c, x, tokens, devices, 12000.0);
  }

  lemma InferenceNumbers(c: Curves, settings: Runtime, batch: int)
    requires Good(c) && c.sqrt(1.0) == 1.0 && c.log2(1.0) == 0.0
    requires settings.inferenceBatch == Some(batch)
    ensures batch <= 1 ==>
              InferenceGain(c, Inference, settings) == 1.0
    ensures batch == 2 && c.log2(2.0) == 1.0 ==>
              InferenceGain(c, Inference, settings) == 1.35
    ensures batch == 4 && c.log2(4.0) == 2.0 ==>
              InferenceGain(c, Inference, settings) == 1.7
    ensures batch >= 2 && c.log2(batch as real) >= 5.0 ==>
              InferenceGain(c, Inference, settings) == 2.5
  {
  }

  /** Inference: a batch speeds up by 0.35 per doubling, up to 2.5. */
  lemma InferenceTakes(
      h: Hardware, c: Curves, x: Spec, tokens: int, devices: int, batch: int)
    requires OnH100(h, c, x, tokens, devices) && x.kind == Inference
    requires x.runtime.inferenceBatch == Some(batch)
    ensures batch <= 1 ==> Takes(h, c, x, tokens, devices, 1.0, 1.0)
    ensures batch == 2 && c.log2(2.0) == 1.0 ==> Takes(h, c, x, tokens, devices, 1.35, 1.0)
    ensures batch == 4 && c.log2(4.0) == 2.0 ==> Takes(h, c, x, tokens, devices, 1.7, 1.0)
    ensures batch >= 2 && c.log2(batch as real) >= 5.0 ==> Takes(h, c, x, tokens, devices, 2.5, 1.0)
  {
    InferenceNumbers(c, x.runtime, batch);
    TakesOwn(h, c, x, tokens, devices);
  }

  lemma EvalNumbers(c: Curves, settings: Runtime, batch: int, metric: real, validation: real)
    requires Good(c) && c.sqrt(1.0) == 1.0 && c.log2(1.0) == 0.0
    requires settings.eval == Some((batch, metric, validation))
    requires metric >= 0.0 && validation >= 0.0
    ensures batch <= 1 && metric + validation <= 2.0 ==>
              EvalGain(c, Eval, settings) == 1.0 && EvalMultiplier(Eval, settings) == 1.0 + metric + validation
    ensures batch <= 1 && metric + validation >= 2.0 ==>
              EvalGain(c, Eval, settings) == 1.0 && EvalMultiplier(Eval, settings) == 3.0
    ensures batch == 2 && c.log2(2.0) == 1.0 && metric + validation <= 2.0 ==>
              EvalGain(c, Eval, settings) == 1.25 && EvalMultiplier(Eval, settings) == 1.0 + metric + validation
    ensures batch >= 2 && c.log2(batch as real) >= 4.0 && metric + validation <= 2.0 ==>
              EvalGain(c, Eval, settings) == 2.0 && EvalMultiplier(Eval, settings) == 1.0 + metric + validation
  {
  }

  /** Evaluation: a batch speeds up by 0.25 per doubling, up to 2; overheads add up, to three times at most. */
  lemma EvalTakes(
      h: Hardware, c: Curves, x: Spec, tokens: int, devices: int, batch: int, metric: real, validation: real)
    requires OnH100(h, c, x, tokens, devices) && x.kind == Eval
    requires x.runtime.eval == Some((batch, metric, validation))
    requires metric >= 0.0 && validation >= 0.0
    ensures batch <= 1 && metric + validation <= 2.0 ==> Takes(h, c, x, tokens, devices, 1.0, 1.0 + metric + validation)
    ensures batch <= 1 && metric + validation >= 2.0 ==> Takes(h, c, x, tokens, devices, 1.0, 3.0)
    ensures batch == 2 && c.log2(2.0) == 1.0 && metric + validation <= 2.0 ==>
              Takes(h, c, x, tokens, devices, 1.25, 1.0 + metric + validation)
    ensures batch >= 2 && c.log2(batch as real) >= 4.0 && metric + validation <= 2.0 ==>
              Takes(h, c, x, tokens, devices, 2.0, 1.0 + metric + validation)
  {
    EvalNumbers(c, x.runtime, batch, metric, validation);
    TakesOwn(h, c, x, tokens, devices);
  }

  lemma EmbeddingNumbers(c: Curves, settings: Runtime, batch: int, dimension: int, length: int)
    requires Good(c) && c.sqrt(1.0) == 1.0 && c.log2(1.0) == 0.0
    requires settings.embedding == Some((batch, dimension, length))
    requires c.sqrt(4.0) == 2.0
    ensures batch <= 1 && dimension == 1024 && length == 512 ==>
              EmbeddingGain(c, Embedding, settings) == 1.0 && EmbeddingMultiplier(c, Embedding, settings) == 1.0
    ensures batch <= 1 && dimension <= 0 && length <= 0 ==>
              EmbeddingGain(c, Embedding, settings) == 1.0 && EmbeddingMultiplier(c, Embedding, settings) == 1.0
    ensures batch <= 1 && dimension == 4096 && length == 512 ==>
              EmbeddingGain(c, Embedding, settings) == 1.0 && EmbeddingMultiplier(c, Embedding, settings) == 2.0
    ensures batch <= 1 && dimension == 1024 && length == 2048 ==>
              EmbeddingGain(c, Embedding, settings) == 1.0 && EmbeddingMultiplier(c, Embedding, settings) == 2.0
    ensures batch <= 1 && dimension == 4096 && length == 2048 ==>
              EmbeddingGain(c, Embedding, settings) == 1.0 && EmbeddingMultiplier(c, Embedding, settings) == 3.5
    ensures batch == 2 && c.log2(2.0) == 1.0 && dimension == 1024 && length == 512 ==>
              EmbeddingGain(c, Embedding, settings) == 1.22 && EmbeddingMultiplier(c, Embedding, settings) == 1.0
    ensures batch >= 2 && c.log2(batch as real) >= 5.0 && dimension == 1024 && length == 512 ==>
              EmbeddingGain(c, Embedding, settings) == 2.1 && EmbeddingMultiplier(c, Embedding, settings) == 1.0
  {
  }

  /** Embedding: a batch speeds up by 0.22 per doubling, up to 2.1; vector dimension and token length count by
      the root of their ratio to 1024 and 512, together up to 3.5. */
  lemma EmbeddingTakes(
      h: Hardware, c: Curves, x: Spec, tokens: int, devices: int, batch: int, dimension: int, length: int)
    requires OnH100(h, c, x, tokens, devices) && x.kind == Embedding
    requires x.runtime.embedding == Some((batch, dimension, length))
    requires c.sqrt(4.0) == 2.0
    ensures batch <= 1 && dimension == 1024 && length == 512 ==> Takes(h, c, x, tokens, devices, 1.0, 1.0)
    ensures batch <= 1 && dimension <= 0 && length <= 0 ==> Takes(h, c, x, tokens, devices, 1.0, 1.0)
    ensures batch <= 1 && dimension == 4096 && length == 512 ==> Takes(h, c, x, tokens, devices, 1.0, 2.0)
    ensures batch <= 1 && dimension == 1024 && length == 2048 ==> Takes(h, c, x, tokens, devices, 1.0, 2.0)
    ensures batch <= 1 && dimension == 4096 && length == 2048 ==> Takes(h, c, x, tokens, devices, 1.0, 3.5)
    ensures batch == 2 && c.log2(2.0) == 1.0 && dimension == 1024 && length == 512 ==>
              Takes(h, c, x, tokens, devices, 1.22, 1.0)
    ensures batch >= 2 && c.log2(batch as real) >= 5.0 && dimension == 1024 && length == 512 ==>
              Takes(h, c, x, tokens, devices, 2.1, 1.0)
  {
    EmbeddingNumbers(c, x.runtime, batch, dimension, length);
    TakesOwn(h, c, x, tokens, devices);
  }

  lemma PlainShape(c: Curves, steps: int, ps: real, pm: real, ms: real, mm: real, combined: real)
    requires Good(c) && c.log2(1.0) == 0.0 && steps >= 1 && pm >= 1.0 && mm >= 1.0 && combined >= 1.0
    ensures ThroughputGain(c, BatchShape(1, 1, steps), ps, pm, ms, mm, combined) == 1.0
  {
    assert (1 as real) / (steps as real) <= 1.0;
  }

  lemma WideShape(c: Curves, ps: real, pm: real, ms: real, mm: real, combined: real)
    requires Good(c) && c.log2(1.0) == 0.0 && c.log2(2.0) == 1.0 && mm >= 1.0
    requires ps >= 0.0 && 1.0 + ps <= pm && 1.0 + ps <= combined
    ensures ThroughputGain(c, BatchShape(2, 1, 1), ps, pm, ms, mm, combined) == 1.0 + ps
  {
  }

  lemma MicroShape(c: Curves, ps: real, pm: real, ms: real, mm: real, combined: real)
    requires Good(c) && c.log2(1.0) == 0.0 && c.log2(2.0) == 1.0 && pm >= 1.0
    requires ms >= 0.0 && 1.0 + ms <= mm && 1.0 + ms <= combined
    ensures ThroughputGain(c, BatchShape(2, 2, 1), ps, pm, ms, mm, combined) == 1.0 + ms
  {
  }

  lemma TrainingNumbers(c: Curves, settings: Runtime, b: BatchShape, length: int)
    requires Good(c) && c.sqrt(1.0) == 1.0 && c.log2(1.0) == 0.0
    requires settings.training == Some((b, length))
    requires c.sqrt(4.0) == 2.0 && c.log2(2.0) == 1.0
    ensures b == BatchShape(1, 1, 1) && length <= 0 ==>
              TrainingMultiplier(c, Training, settings) == 1.0
    ensures b == BatchShape(1, 1, 11) && length == 2048 ==>
              TrainingMultiplier(c, Training, settings) == 1.3
    ensures b == BatchShape(1, 1, 101) && length == 2048 ==>
              TrainingMultiplier(c, Training, settings) == 1.5
    ensures b == BatchShape(1, 1, 1) && length == 8192 ==>
              TrainingMultiplier(c, Training, settings) == 2.0
    ensures b == BatchShape(2, 1, 1) && length == 2048 ==>
              TrainingMultiplier(c, Training, settings) == 1.0 / 1.2
    ensures b == BatchShape(2, 2, 1) && length == 2048 ==>
              TrainingMultiplier(c, Training, settings) == 1.0 / 1.12
  {
    PlainShape(c, OrElse(b.gradAccum, 1), 0.20, 1.8, 0.12, 1.5, 2.5);
    WideShape(c, 0.20, 1.8, 0.12, 1.5, 2.5);
    MicroShape(c, 0.20, 1.8, 0.12, 1.5, 2.5);
  }

  /** Training: gradient accumulation costs 3% a step, half as much again at most; sequence length counts by the
      root of its ratio to 2048; global batches gain 20%, micro batches 12% on doubling. */
  lemma TrainingTakes(
      h: Hardware, c: Curves, x: Spec, tokens: int, devices: int, b: BatchShape, length: int)
    requires OnH100(h, c, x, tokens, devices) && x.kind == Training
    requires x.runtime.training == Some((b, length))
    requires c.sqrt(4.0) == 2.0 && c.log2(2.0) == 1.0
    ensures b == BatchShape(1, 1, 1) && length <= 0 ==> Takes(h, c, x, tokens, devices, 1.0, 1.0)
    ensures b == BatchShape(1, 1, 11) && length == 2048 ==> Takes(h, c, x, tokens, devices, 1.0, 1.3)
    ensures b == BatchShape(1, 1, 101) && length == 2048 ==> Takes(h, c, x, tokens, devices, 1.0, 1.5)
    ensures b == BatchShape(1, 1, 1) && length == 8192 ==> Takes(h, c, x, tokens, devices, 1.0, 2.0)
    ensures b == BatchShape(2, 1, 1) && length == 2048 ==> Takes(h, c, x, tokens, devices, 1.0, 1.0 / 1.2)
    ensures b == BatchShape(2, 2, 1) && length == 2048 ==> Takes(h, c, x, tokens, devices, 1.0, 1.0 / 1.12)
  {
    TrainingNumbers(c, x.runtime, b, length);
    TakesOwn(h, c, x, tokens, devices);
  }

  lemma FineTuneNumbers(c: Curves, settings: Runtime, b: BatchShape, warm: real, checkpoint: real)
    requires Good(c) && c.sqrt(1.0) == 1.0 && c.log2(1.0) == 0.0
    requires settings.fineTune == Some((b, warm, checkpoint))
    requires c.log2(2.0) == 1.0 && warm >= 0.0 && checkpoint >= 0.0
    ensures b == BatchShape(1, 1, 1) && warm + checkpoint <= 1.5 ==>
              FineTuneMultiplier(c, FineTune, settings) == 1.0 + warm + checkpoint
    ensures b == BatchShape(1, 1, 1) && warm + checkpoint >= 1.5 ==>
              FineTuneMultiplier(c, FineTune, settings) == 2.5
    ensures b == BatchShape(1, 1, 11) && warm == checkpoint == 0.0 ==>
              FineTuneMultiplier(c, FineTune, settings) == 1.25
    ensures b == BatchShape(1, 1, 101) && warm == checkpoint == 0.0 ==>
              FineTuneMultiplier(c, FineTune, settings) == 1.4
    ensures b == BatchShape(2, 1, 1) && warm == checkpoint == 0.0 ==>
              FineTuneMultiplier(c, FineTune, settings) == 1.0 / 1.18
    ensures b == BatchShape(2, 2, 1) && warm == checkpoint == 0.0 ==>
              FineTuneMultiplier(c, FineTune, settings) == 1.0 / 1.1
  {
    PlainShape(c, OrElse(b.gradAccum, 1), 0.18, 1.7, 0.10, 1.4, 2.2);
    WideShape(c, 0.18, 1.7, 0.10, 1.4, 2.2);
    MicroShape(c, 0.18, 1.7, 0.10, 1.4, 2.2);
  }

  /** Fine-tuning: warm start and checkpoints add up, to two and a half times at most; accumulation costs 2.5% a
      step; global batches gain 18%, micro batches 10% on doubling. */
  lemma FineTuneTakes(
      h: Hardware, c: Curves, x: Spec, tokens: int, devices: int, b: BatchShape, warm: real, checkpoint: real)
    requires OnH100(h, c, x, tokens, devices) && x.kind == FineTune
    requires x.runtime.fineTune == Some((b, warm, checkpoint))
    requires c.log2(2.0) == 1.0 && warm >= 0.0 && checkpoint >= 0.0
    ensures b == BatchShape(1, 1, 1) && warm + checkpoint <= 1.5 ==>
              Takes(h, c, x, tokens, devices, 1.0, 1.0 + warm + checkpoint)
    ensures b == BatchShape(1, 1, 1) && warm + checkpoint >= 1.5 ==> Takes(h, c, x, tokens, devices, 1.0, 2.5)
    ensures b == BatchShape(1, 1, 11) && warm == checkpoint == 0.0 ==> Takes(h, c, x, tokens, devices, 1.0, 1.25)
    ensures b == BatchShape(1, 1, 101) && warm == checkpoint == 0.0 ==> Takes(h, c, x, tokens, devices, 1.0, 1.4)
    ensures b == BatchShape(2, 1, 1) && warm == checkpoint == 0.0 ==> Takes(h, c, x, tokens, devices, 1.0, 1.0 / 1.18)
    ensures b == BatchShape(2, 2, 1) && warm == checkpoint == 0.0 ==> Takes(h, c, x, tokens, devices, 1.0, 1.0 / 1.1)
  {
    FineTuneNumbers(c, x.runtime, b, warm, checkpoint);
    TakesOwn(h, c, x, tokens, devices);
  }

  lemma RlhfNumbers(c: Curves, settings: Runtime, rollout: int, reward: int, update: int, steps: int)
    requires Good(c) && c.sqrt(1.0) == 1.0 && c.log2(1.0) == 0.0
    requires settings.rlhf == Some((rollout, reward, update, steps))
    requires c.sqrt(4.0) == 2.0
    ensures rollout == 1 && reward == 1 && update == 1 && steps == 1 ==>
              RlhfMultiplier(c, Rlhf, settings) == 0.40 * 1.215 + 0.25 * 1.22 + 0.35 * 1.18
    ensures rollout <= 0 && reward <= 0 && update <= 0 && steps <= 0 ==>
              RlhfMultiplier(c, Rlhf, settings) == 0.40 * 1.215 + 0.25 * 1.22 + 0.35 * 1.18
    ensures rollout == 4 && reward == 1 && update == 1 && steps == 1 ==>
              RlhfMultiplier(c, Rlhf, settings) == 0.40 * 1.13 + 0.25 * 1.22 + 0.35 * 1.18
    ensures rollout == 1 && reward == 4 && update == 1 && steps == 1 ==>
              RlhfMultiplier(c, Rlhf, settings) == 0.40 * 1.215 + 0.25 * 1.11 + 0.35 * 1.18
    ensures rollout == 1 && reward == 1 && update == 4 && steps == 1 ==>
              RlhfMultiplier(c, Rlhf, settings) == 0.40 * 1.215 + 0.25 * 1.22 + 0.35 * 1.09
    ensures rollout == 1 && reward == 1 && update == 1 && steps == 6 ==>
              RlhfMultiplier(c, Rlhf, settings) == 0.40 * 1.215 + 0.25 * 1.22 + 0.35 * 1.18 * 1.3
  {
  }

  /** RLHF: rollout, reward and update count by 40, 25 and 35%, and every further policy step by 6% of the update. */
  lemma RlhfTakes(
      h: Hardware, c: Curves, x: Spec, tokens: int, devices: int, rollout: int, reward: int, update: int, steps: int)
    requires OnH100(h, c, x, tokens, devices) && x.kind == Rlhf
    requires x.runtime.rlhf == Some((rollout, reward, update, steps))
    requires c.sqrt(4.0) == 2.0
    ensures rollout == 1 && reward == 1 && update == 1 && steps == 1 ==>
              Takes(h, c, x, tokens, devices, 1.0, 0.40 * 1.215 + 0.25 * 1.22 + 0.35 * 1.18)
    ensures rollout <= 0 && reward <= 0 && update <= 0 && steps <= 0 ==>
              Takes(h, c, x, tokens, devices, 1.0, 0.40 * 1.215 + 0.25 * 1.22 + 0.35 * 1.18)
    ensures rollout == 4 && reward == 1 && update == 1 && steps == 1 ==>
              Takes(h, c, x, tokens, devices, 1.0, 0.40 * 1.13 + 0.25 * 1.22 + 0.35 * 1.18)
    ensures rollout == 1 && reward == 4 && update == 1 && steps == 1 ==>
              Takes(h, c, x, tokens, devices, 1.0, 0.40 * 1.215 + 0.25 * 1.11 + 0.35 * 1.18)
    ensures rollout == 1 && reward == 1 && update == 4 && steps == 1 ==>
              Takes(h, c, x, tokens, devices, 1.0, 0.40 * 1.215 + 0.25 * 1.22 + 0.35 * 1.09)
    ensures rollout == 1 && reward == 1 && update == 1 && steps == 6 ==>
              Takes(h, c, x, tokens, devices, 1.0, 0.40 * 1.215 + 0.25 * 1.22 + 0.35 * 1.18 * 1.3)
  {
    RlhfNumbers(c, x.runtime, rollout, reward, update, steps);
    TakesOwn(h, c, x, tokens, devices);
  }

  lemma DataPreprocessNumbers(
      c: Curves, settings: Runtime, tokens: int, bytes: int, tokenization: real, augmentation: real)
    requires Good(c) && c.sqrt(1.0) == 1.0 && c.log2(1.0) == 0.0
    requires settings.dataPreprocess == Some((bytes, tokenization, augmentation))
    requires c.sqrt(4.0) == 2.0 && tokenization >= 0.0 && augmentation >= 0.0 && tokenization + augmentation <= 2.0
    ensures bytes == 4000000 || (bytes <= 0 && tokens == 1000000) ==>
              DataPreprocessMultiplier(c, DataPreprocess, settings, tokens) == 1.0 + tokenization + augmentation
    ensures bytes == 16000000 || (bytes <= 0 && tokens == 4000000) ==>
              DataPreprocessMultiplier(c, DataPreprocess, settings, tokens) == 2.0 * (1.0 + tokenization + augmentation)
  {
  }

  /** Preprocessing: the volume counts by the root of its ratio to four million bytes, overheads add up; a run that
      names no volume has four bytes a token. */
  lemma DataPreprocessTakes(
      h: Hardware, c: Curves, x: Spec, tokens: int, devices: int, bytes: int, tokenization: real, augmentation: real)
    requires OnH100(h, c, x, tokens, devices) && x.kind == DataPreprocess
    requires x.runtime.dataPreprocess == Some((bytes, tokenization, augmentation))
    requires c.sqrt(4.0) == 2.0 && tokenization >= 0.0 && augmentation >= 0.0 && tokenization + augmentation <= 2.0
    ensures bytes == 4000000 || (bytes <= 0 && tokens == 1000000) ==>
              Takes(h, c, x, tokens, devices, 1.0, 1.0 + tokenization + augmentation)
    ensures bytes == 16000000 || (bytes <= 0 && tokens == 4000000) ==>
              Takes(h, c, x, tokens, devices, 1.0, 2.0 * (1.0 + tokenization + augmentation))
  {
    DataPreprocessNumbers(c, x.runtime, tokens, bytes, tokenization, augmentation);
    TakesOwn(h, c, x, tokens, devices);
  }

  lemma DistillationFactors(overhead: real, root: real)
    requires 0.0 <= overhead <= 1.0
    ensures DistillationFactor(overhead, 1.0, 1.0) == 1.0 + overhead
    ensures DistillationFactor(overhead, 1.5, 1.0) == (1.0 + overhead) * 1.5
    ensures DistillationFactor(overhead, 1.0, 1.2) == (1.0 + overhead) / 1.2
    ensures 0.75 <= root <= 1.5 ==> DistillationFactor(0.0, root, 1.0) == root
  {
  }

  lemma PenaltyNumbers(c: Curves)
    requires c.sqrt(1.0) == 1.0
    ensures ProfilePenalty(c, "h100_sxm", "h100_sxm") == 1.0
    ensures 0.75 <= c.sqrt(12000.0 / 7000.0) <= 1.5 ==>
              ProfilePenalty(c, "h100_sxm", "a100_80gb") == c.sqrt(12000.0 / 7000.0)
    ensures c.sqrt(12000.0 / 5000.0) >= 1.5 ==> ProfilePenalty(c, "h100_sxm", "trn1_instance") == 1.5
  {
    Rates();
  }

  lemma DistillationNumbers(c: Curves, settings: Runtime, profile: string, batch: int, teacher: string, overhead: real)
    requires Good(c) && c.sqrt(1.0) == 1.0 && c.log2(1.0) == 0.0
    requires settings.distillation == Some((batch, teacher, overhead))
    requires Lower(Trim(profile)) == "h100_sxm" && 0.0 <= overhead <= 1.0
    ensures batch <= 1 && Lower(Trim(teacher)) == "h100_sxm" ==>
              DistillationMultiplier(c, Distillation, settings, profile) == 1.0 + overhead
    ensures batch <= 1 && overhead == 0.0 && Lower(Trim(teacher)) == "a100_80gb" 
            && 0.75 <= c.sqrt(12000.0 / 7000.0) <= 1.5 ==>
              DistillationMultiplier(c, Distillation, settings, profile) == c.sqrt(12000.0 / 7000.0)
    ensures batch <= 1 && Lower(Trim(teacher)) == "trn1_instance" && c.sqrt(12000.0 / 5000.0) >= 1.5 ==>
              DistillationMultiplier(c, Distillation, settings, profile) == (1.0 + overhead) * 1.5
    ensures batch == 2 && c.log2(2.0) == 1.0 && Lower(Trim(teacher)) == "h100_sxm" ==>
              DistillationMultiplier(c, Distillation, settings, profile) == (1.0 + overhead) / 1.2
  {
    PenaltyNumbers(c);
    DistillationFactors(overhead, c.sqrt(12000.0 / 7000.0));
  }

  /** Distillation: the teacher's overhead counts in full, the ratio of the two profiles' rates by its root, up to
      one and a half, and a batch speeds up by 0.2 per doubling. */
  lemma DistillationTakes(
      h: Hardware, c: Curves, x: Spec, tokens: int, devices: int, batch: int, teacher: string, overhead: real)
    requires OnH100(h, c, x, tokens, devices) && x.kind == Distillation
    requires x.runtime.distillation == Some((batch, teacher, overhead))
    requires Lower(Trim(x.profile)) == "h100_sxm" && 0.0 <= overhead <= 1.0
    ensures batch <= 1 && Lower(Trim(teacher)) == "h100_sxm" ==> Takes(h, c, x, tokens, devices, 1.0, 1.0 + overhead)
    ensures batch <= 1 && overhead == 0.0 && Lower(Trim(teacher)) == "a100_80gb" 
            && 0.75 <= c.sqrt(12000.0 / 7000.0) <= 1.5 ==>
              Takes(h, c, x, tokens, devices, 1.0, c.sqrt(12000.0 / 7000.0))
    ensures batch <= 1 && Lower(Trim(teacher)) == "trn1_instance" && c.sqrt(12000.0 / 5000.0) >= 1.5 ==>
              Takes(h, c, x, tokens, devices, 1.0, (1.0 + overhead) * 1.5)
    ensures batch == 2 && c.log2(2.0) == 1.0 && Lower(Trim(teacher)) == "h100_sxm" ==>
              Takes(h, c, x, tokens, devices, 1.0, (1.0 + overhead) / 1.2)
  {
    DistillationNumbers(c, x.runtime, x.profile, batch, teacher, overhead);
    TakesOwn(h, c, x, tokens, devices);
  }

  // ---------------------------------------------------------------- hardware and jitter

  /** Memory bandwidth counts 60, peak compute 25 and, between devices, the interconnect 15 parts, each by
      the root of its ratio to the reference; the result stays within a quarter of 1. */
  lemma FactorIs(h: Hardware, c: Curves, p: HardwareProfile, bandwidth: real, compute: real, links: real)
    requires HardwareOk(h) && p.peakCompute.Some? && p.peakCompute.value > 0.0
    requires p.interconnect.Some? && p.interconnect.value > 0.0
    requires p.memBandwidth / h.refBandwidth >= 0.1 && c.sqrt(p.memBandwidth / h.refBandwidth) == bandwidth
    requires p.peakCompute.value / h.refCompute >= 0.1 && c.sqrt(p.peakCompute.value / h.refCompute) == compute
    requires p.interconnect.value / h.refInterconnect >= 0.1
    requires c.sqrt(p.interconnect.value / h.refInterconnect) == links
    ensures var two := 0.60 * bandwidth + 0.25 * compute + 0.15 * links;
            HardwareFactor(h, c, p, 2) == if two < 0.75 then 0.75 else if two > 1.25 then 1.25 else two
    ensures var one := (0.60 * bandwidth + 0.25 * compute) / 0.85;
            HardwareFactor(h, c, p, 1) == if one < 0.75 then 0.75 else if one > 1.25 then 1.25 else one
    ensures HardwareFactor(h, c, p.(peakCompute := None), 1)
         == if bandwidth < 0.75 then 0.75 else if bandwidth > 1.25 then 1.25 else bandwidth
  {
    assert bandwidth == (0.60 * bandwidth) / 0.60;
  }

  lemma SwingIs(pct: real)
    ensures Swing(Jitter(pct, 0.5)) == 1.0
    ensures Swing(Jitter(pct, 0.75)) == 1.0 + pct / 2.0
    ensures Swing(Jitter(pct, 0.0)) == 1.0 - pct
  {
    assert (0.0 * 2.0 - 1.0) * pct == -pct;
    assert (0.75 * 2.0 - 1.0) * pct == pct / 2.0;
    assert (0.5 * 2.0 - 1.0) * pct == 0.0;
  }

  /** Jitter moves the time by up to its fraction, down with draws below one half and up with those above. */
  lemma JitterTakes(seconds: real, pct: real)
    requires seconds >= 1.0 && 0.0 < pct <= 1.0
    ensures Jittered(seconds, Some(Jitter(pct, 0.5))) == seconds
    ensures Jittered(seconds, Some(Jitter(pct, 0.75))) == seconds * (1.0 + pct / 2.0)
    ensures seconds * (1.0 - pct) >= 1.0 ==> Jittered(seconds, Some(Jitter(pct, 0.0))) == seconds * (1.0 - pct)
    ensures seconds * (1.0 - pct) <= 1.0 ==> Jittered(seconds, Some(Jitter(pct, 0.0))) == 1.0
  {
    SwingIs(pct);
    assert seconds * (1.0 + pct / 2.0) >= seconds * 1.0;
  }
}
