/** What StartWithRuntimeInput of internal/sim/contract.go does with a runtime input before it takes the
    lock, and the start as a whole: checks, defaults, estimate, run. */
module RuntimeInputs {
  import opened Sequences
  import opened Workloads
  import opened AcceleratorSim
  import opened Duration

  function KindOf(x: Spec): Kind {
    if x.kind == OtherKind("") then Training else x.kind
  }

  /** Missing settings of the workload's kind are filled in. */
  function Defaulted(r: Runtime, kind: Kind, tokens: int, profile: string): Runtime {
    match kind
    case Inference =>
      r.(inferenceBatch := Some(OrElse(if r.inferenceBatch.Some? then r.inferenceBatch.value else 0, 1)))
    case Eval =>
      var (batch, metric, validation) := if r.eval.Some? then r.eval.value else (0, 0.0, 0.0);
      r.(eval := Some((OrElse(batch, 1), metric, validation)))
    case Embedding =>
      var (batch, dimension, length) := if r.embedding.Some? then r.embedding.value else (0, 0, 0);
      r.(embedding := Some((OrElse(batch, 1), OrElse(dimension, 1024), OrElse(length, 512))))
    case DataPreprocess =>
      var (bytes, tokenization, augmentation) :=
        if r.dataPreprocess.Some? then r.dataPreprocess.value else (0, 0.0, 0.0);
      r.(dataPreprocess := Some((OrElse(bytes, tokens * 4), tokenization, augmentation)))
    case Rlhf =>
      var (rollout, reward, update, steps) := if r.rlhf.Some? then r.rlhf.value else (0, 0, 0, 0);
      r.(rlhf := Some((OrElse(rollout, 1), OrElse(reward, OrElse(rollout, 1)), OrElse(update, 1), OrElse(steps, 1))))
    case Distillation =>
      var (batch, teacher, overhead) := if r.distillation.Some? then r.distillation.value else (0, "", 0.0);
      r.(distillation := Some((OrElse(batch, 1), if Trim(teacher) == "" then profile else teacher, overhead)))
    case _ => r
  }

  predicate Fraction(x: real) { 0.0 <= x <= 1.0 }

  /** Overheads of the workload's kind are fractions, and a teacher profile is known. */
  predicate OverheadsOk(r: Runtime, kind: Kind, profiles: set<string>) {
    && (kind == Eval && r.eval.Some? ==> Fraction(r.eval.value.1) && Fraction(r.eval.value.2))
    && (kind == FineTune && r.fineTune.Some? ==> Fraction(r.fineTune.value.1) && Fraction(r.fineTune.value.2))
    && (kind == DataPreprocess && r.dataPreprocess.Some? ==>
          Fraction(r.dataPreprocess.value.1) && Fraction(r.dataPreprocess.value.2))
    && (kind == Distillation && r.distillation.Some? ==>
          Fraction(r.distillation.value.2) && Lower(Trim(r.distillation.value.1)) in profiles)
  }

  /** The input as it is stored and estimated, or nothing if it is refused. */
  function Prepared(h: Hardware, tokens: int, x: Spec): Option<Spec> {
    if tokens <= 0 || x.profile == "" || KindOf(x).OtherKind? then None
    else
      var y := x.(kind := KindOf(x), runtime := Defaulted(x.runtime, KindOf(x), tokens, x.profile));
      if JitterOk(y.jitter) && OverheadsOk(y.runtime, y.kind, h.profiles.Keys) then Some(y) else None
  }

  function PreparedEstimate(h: Hardware, c: Curves, tokens: int, x: Spec, devices: int): Option<int>
    requires Good(c) && HardwareOk(h)
  {
    match Prepared(h, tokens, x)
    case None => None
    case Some(y) => EstimateDuration(h, c, y, tokens, devices)
  }

  /** Once an input is prepared only an unknown profile can still be refused. */
  lemma PreparedIsEstimated(h: Hardware, c: Curves, tokens: int, x: Spec, devices: int)
    requires Good(c) && HardwareOk(h) && devices > 0 && Prepared(h, tokens, x).Some?
    ensures PreparedEstimate(h, c, tokens, x, devices).Some? <==> Known(h, x)
  {
  }

  /** Overheads are refused unless they are fractions; so is a teacher the hardware does not know. */
  lemma OverheadsAre(h: Hardware, tokens: int, x: Spec, n: int, b: BatchShape, u: real, v: real, teacher: string)
    requires tokens > 0 && x.profile != "" && x.jitter.None?
    ensures x.kind == Eval && x.runtime.eval == Some((n, u, v)) ==>
              (Prepared(h, tokens, x).Some? <==> 0.0 <= u <= 1.0 && 0.0 <= v <= 1.0)
    ensures x.kind == FineTune && x.runtime.fineTune == Some((b, u, v)) ==>
              (Prepared(h, tokens, x).Some? <==> 0.0 <= u <= 1.0 && 0.0 <= v <= 1.0)
    ensures x.kind == DataPreprocess && x.runtime.dataPreprocess == Some((n, u, v)) ==>
              (Prepared(h, tokens, x).Some? <==> 0.0 <= u <= 1.0 && 0.0 <= v <= 1.0)
    ensures x.kind == Distillation && x.runtime.distillation == Some((n, teacher, u)) && Trim(teacher) != "" ==>
              (Prepared(h, tokens, x).Some? <==> 0.0 <= u <= 1.0 && Lower(Trim(teacher)) in h.profiles)
  {
  }

  const NOTHING_SET := Runtime(None, None, None, None, None, None, None, None)

  /** What is filled in where nothing is set: batches of one, vectors of 1024 and texts of 512, one policy
      step, four bytes a token, and the own profile as teacher; without a kind, training. */
  lemma DefaultsAre(h: Hardware, tokens: int, x: Spec)
    requires tokens > 0 && x.profile != "" && x.runtime == NOTHING_SET && x.jitter.None?
    requires !x.kind.OtherKind? || x.kind == OtherKind("")
    ensures Prepared(h, tokens, x).Some? <==> (x.kind == Distillation ==> Lower(Trim(x.profile)) in h.profiles)
    ensures Prepared(h, tokens, x).Some? ==>
              var y := Prepared(h, tokens, x).value;
              && y.profile == x.profile && y.kind == (if x.kind == OtherKind("") then Training else x.kind)
              && (y.kind in {Training, FineTune} ==> y.runtime == NOTHING_SET)
              && (y.kind == Inference ==> y.runtime.inferenceBatch == Some(1))
              && (y.kind == Eval ==> y.runtime.eval == Some((1, 0.0, 0.0)))
              && (y.kind == Embedding ==> y.runtime.embedding == Some((1, 1024, 512)))
              && (y.kind == DataPreprocess ==> y.runtime.dataPreprocess == Some((4 * tokens, 0.0, 0.0)))
              && (y.kind == Rlhf ==> y.runtime.rlhf == Some((1, 1, 1, 1)))
              && (y.kind == Distillation ==> y.runtime.distillation == Some((1, x.profile, 0.0)))
  {
    assert Trim("") == "";
  }

  // ---------------------------------------------------------------- defaults keep durations monotone

  /** The same with the preprocessing volume left open, so that it does not depend on the tokens. */
  function Open(x: Spec): Spec {
    if x.kind == DataPreprocess && x.runtime.dataPreprocess.Some? then
      var (_, tokenization, augmentation) := x.runtime.dataPreprocess.value;
      x.(runtime := x.runtime.(dataPreprocess := Some((0, tokenization, augmentation))))
    else x
  }

  lemma OpenMultipliers(c: Curves, x: Spec, tokens: int)
    requires Good(c) && tokens > 0 && x.kind == DataPreprocess
    requires x.runtime.dataPreprocess.Some? && x.runtime.dataPreprocess.value.0 == tokens * 4
    ensures Multipliers(c, Open(x), tokens) == Multipliers(c, x, tokens)
  {
  }

  lemma OpenRate(h: Hardware, c: Curves, x: Spec, devices: int)
    requires Good(c) && HardwareOk(h) && Known(h, x) && x.kind == DataPreprocess
    ensures Rate(h, c, Open(x), devices) == Rate(h, c, x, devices)
  {
    assert Gains(c, Open(x)) == Gains(c, x);
  }

  lemma OpenSeconds(h: Hardware, c: Curves, x: Spec, tokens: int, devices: int)
    requires Good(c) && HardwareOk(h) && Known(h, x) && tokens > 0 && devices > 0
    requires x.kind == DataPreprocess ==>
      x.runtime.dataPreprocess.Some? && x.runtime.dataPreprocess.value.0 == tokens * 4
    ensures Seconds(h, c, Open(x), tokens, devices) == Seconds(h, c, x, tokens, devices)
  {
    if x.kind == DataPreprocess {
      OpenMultipliers(c, x, tokens);
      OpenRate(h, c, x, devices);
    }
  }

  /** Whether the volume was given by the caller. */
  predicate VolumeGiven(x: Spec) {
    KindOf(x) == DataPreprocess && x.runtime.dataPreprocess.Some? && x.runtime.dataPreprocess.value.0 > 0
  }

  lemma PreparedAlike(h: Hardware, t: int, u: int, x: Spec)
    requires 0 < t && 0 < u
    ensures Prepared(h, t, x).Some? <==> Prepared(h, u, x).Some?
    ensures Prepared(h, t, x).Some? ==>
              var y, z := Prepared(h, t, x).value, Prepared(h, u, x).value;
              if VolumeGiven(x) || KindOf(x) != DataPreprocess then y == z else Open(y) == Open(z)
  {
  }

  /** End to end, from the caller's input: more tokens never shorten a run and more devices never lengthen
      it, although the defaults filled in depend on the tokens. */
  lemma PreparedMonotone(h: Hardware, c: Curves, x: Spec, t: int, u: int, m: int, n: int)
    requires Good(c) && HardwareOk(h) && Known(h, x) && 0 < t <= u && 0 < m <= n && Prepared(h, t, x).Some?
    requires x.jitter.Some? ==> 0.0 <= x.jitter.value.draw < 1.0
    ensures PreparedEstimate(h, c, t, x, n).Some? && PreparedEstimate(h, c, u, x, m).Some?
    ensures 1 <= PreparedEstimate(h, c, t, x, n).value <= PreparedEstimate(h, c, u, x, m).value
  {
    PreparedAlike(h, t, u, x);
    var y, z := Prepared(h, t, x).value, Prepared(h, u, x).value;
    if VolumeGiven(x) || KindOf(x) != DataPreprocess {
      DurationMonotone(h, c, y, t, u, m, n);
    } else {
      OpenSeconds(h, c, y, t, n);
      OpenSeconds(h, c, z, u, m);
      DurationMonotone(h, c, Open(y), t, u, m, n);
    }
  }

  // ---------------------------------------------------------------- the start as a whole

  method StartRuntime(sim: Simulator, h: Hardware, c: Curves, w: string, tokens: int, x: Spec, now: int)
    returns (r: StartResult)
    requires Good(c) && HardwareOk(h)
    modifies sim
    ensures (r, sim.Value()) == StartAnswer(
              old(sim.Value()), w, Prepared(h, tokens, x).Some?, (n: nat) => PreparedEstimate(h, c, tokens, x, n), now)
    ensures w != "" && Prepared(h, tokens, x).Some? && r.NoEstimate? ==> !Known(h, x)
  {
    var estimate := (n: nat) => PreparedEstimate(h, c, tokens, x, n);
    r := sim.StartWithRuntimeInput(w, Prepared(h, tokens, x).Some?, estimate, now);
    if w != "" && Prepared(h, tokens, x).Some? && r.NoEstimate? {
      PreparedIsEstimated(h, c, tokens, x, |old(sim.allocations)[w]|);
    }
  }
}
