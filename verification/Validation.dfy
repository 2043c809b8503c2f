/** The server's checks on a compute benchmark submission, apart from the signature. */
module Validation {
  import opened Prelude
  import opened GoTime
  import opened Text
  import opened Uuid
  import opened Protocol

  const MAX_SKEW := 5 * MINUTE
  const MAX_SAMPLES := 50
  const MAX_CONTEXT_SIZE := 1048576

  datatype ValidationError = InvalidSubmission | TimestampOutsideWindow

  /** The skew check: a difference, its absolute value in 64-bit arithmetic, a comparison. */
  predicate SkewAccepted(t: int, u: int) {
    var skew := Sub(t, u);
    (if skew < 0 then Neg(skew) else skew) <= MAX_SKEW
  }

  /** Two instants at most five minutes apart. */
  predicate Close(t: int, u: int) {
    -MAX_SKEW <= t - u <= MAX_SKEW
  }

  predicate TextAccepted(value: string, maxLength: nat) {
    !Blank(value) && ByteLen(Trim(value)) <= maxLength
  }

  predicate TemperatureAccepted(s: Sample) {
    s.temperature.Some? ==> -100.0 <= s.temperature.value <= 250.0
  }

  /** Everything the loop asks of one sample, except that its run number is new. */
  predicate SampleAccepted(s: Sample) {
    && s.run > 0 && s.promptTokens >= 0 && s.generatedTokens >= 0
    && s.promptTps >= 0.0 && s.generationTps >= 0.0 && s.ttftMs >= 0.0
    && TemperatureAccepted(s)
    && (if s.success then
          && s.promptTokens > 0 && s.generatedTokens > 0 && s.promptTps > 0.0 && s.generationTps > 0.0
          && s.peakSystemRam != 0 && Blank(s.error)
        else !Blank(s.error) && ByteLen(s.error) <= 1024)
  }

  ghost predicate RunsDistinct(samples: seq<Sample>) {
    forall i, j :: 0 <= i < j < |samples| ==> samples[i].run != samples[j].run
  }

  predicate EnvelopeAccepted(s: Submission) {
    s.version == SUBMISSION_VERSION && ValidUuidV4(s.nodeId) && ValidUuidV4(s.reportId)
  }

  predicate TimestampsAccepted(s: Submission, now: int) {
    && !IsZero(s.signedAt) && SkewAccepted(now, s.signedAt)
    && !IsZero(s.benchmark.collectedAt) && SkewAccepted(s.signedAt, s.benchmark.collectedAt)
  }

  predicate HeaderAccepted(b: Benchmark) {
    && b.schemaVersion == SCHEMA_VERSION
    && TextAccepted(b.workloadId, 128) && TextAccepted(b.condition, 64)
    && TextAccepted(b.runtime, 128) && TextAccepted(b.model, 512)
    && ByteLen(b.runtimeVersion) <= 128 && ByteLen(b.quantization) <= 128
    && 0 < b.contextSize <= MAX_CONTEXT_SIZE
    && 0 < |b.samples| <= MAX_SAMPLES
  }

  ghost predicate SamplesAccepted(samples: seq<Sample>) {
    && (forall i :: 0 <= i < |samples| ==> SampleAccepted(samples[i]))
    && RunsDistinct(samples)
  }

  ghost predicate Accepted(s: Submission, now: int) {
    EnvelopeAccepted(s) && TimestampsAccepted(s, now) && HeaderAccepted(s.benchmark)
    && SamplesAccepted(s.benchmark.samples)
  }

  method ValidateSample(sample: Sample) returns (ok: bool)
    ensures ok <==> SampleAccepted(sample)
  {
    if sample.run <= 0 || sample.promptTokens < 0 || sample.generatedTokens < 0 { return false; }
    if sample.promptTps < 0.0 || sample.generationTps < 0.0 || sample.ttftMs < 0.0 { return false; }
    if sample.temperature.Some? && (sample.temperature.value < -100.0 || sample.temperature.value > 250.0) {
      return false;
    }
    var errorText := Trim(sample.error);
    if sample.success {
      return !(sample.promptTokens <= 0 || sample.generatedTokens <= 0 || sample.promptTps <= 0.0
               || sample.generationTps <= 0.0 || sample.peakSystemRam == 0 || errorText != "");
    }
    return !(errorText == "" || ByteLen(sample.error) > 1024);
  }

  method ValidateSamples(samples: seq<Sample>) returns (ok: bool)
    ensures ok <==> SamplesAccepted(samples)
  {
    hide SampleAccepted;
    var seenRuns: set<int> := {};
    var i := 0;
    while i < |samples|
      invariant 0 <= i <= |samples|
      invariant forall k :: 0 <= k < i ==> SampleAccepted(samples[k]) && samples[k].run in seenRuns
      invariant forall r :: r in seenRuns ==> exists k :: 0 <= k < i && samples[k].run == r
      invariant forall k, l :: 0 <= k < l < i ==> samples[k].run != samples[l].run
    {
      if samples[i].run in seenRuns { return false; }
      seenRuns := seenRuns + {samples[i].run};
      var accepted := ValidateSample(samples[i]);
      if !accepted { return false; }
      i := i + 1;
    }
    return true;
  }

  method ValidateComputeBenchmarkSubmission(s: Submission, now: int) returns (r: Option<ValidationError>)
    ensures r.None? <==> Accepted(s, now)
    ensures EnvelopeAccepted(s) && !TimestampsAccepted(s, now) ==> r == Some(TimestampOutsideWindow)
    ensures !EnvelopeAccepted(s) || (TimestampsAccepted(s, now) && !Accepted(s, now)) ==> r == Some(InvalidSubmission)
  {
    if s.version != SUBMISSION_VERSION || !ValidUuidV4(s.nodeId) || !ValidUuidV4(s.reportId) {
      return Some(InvalidSubmission);
    }
    if IsZero(s.signedAt) { return Some(TimestampOutsideWindow); }
    var signedSkew := Sub(now, s.signedAt);
    if signedSkew < 0 { signedSkew := Neg(signedSkew); }
    if signedSkew > MAX_SKEW { return Some(TimestampOutsideWindow); }
    var b := s.benchmark;
    if IsZero(b.collectedAt) { return Some(TimestampOutsideWindow); }
    var collectionSkew := Sub(s.signedAt, b.collectedAt);
    if collectionSkew < 0 { collectionSkew := Neg(collectionSkew); }
    if collectionSkew > MAX_SKEW { return Some(TimestampOutsideWindow); }
    if !HeaderAccepted(b) { return Some(InvalidSubmission); }
    var ok := ValidateSamples(b.samples);
    return if ok then None else Some(InvalidSubmission);
  }

  // ---------------------------------------------------------------------
  // What the skew checks promise
  // ---------------------------------------------------------------------

  /** The skew check accepts close instants, and also every pair whose difference saturates below. */
  lemma SkewAcceptedIff(t: int, u: int)
    ensures SkewAccepted(t, u) <==> Close(t, u) || t - u <= MIN_DURATION
  {
  }

  /** Neither difference falls below the 64-bit range. */
  predicate NoSaturation(s: Submission, now: int) {
    now - s.signedAt > MIN_DURATION && s.signedAt - s.benchmark.collectedAt > MIN_DURATION
  }

  /**
   An accepted submission is fresh, received within ten minutes of its collection, exactly
   when neither skew saturates: the most negative duration is its own absolute value, so a
   timestamp some 292 years ahead passes the check.
   */
  lemma FreshIffNoSaturation(s: Submission, now: int)
    requires TimestampsAccepted(s, now)
    ensures -2 * MAX_SKEW <= now - s.benchmark.collectedAt <= 2 * MAX_SKEW <==> NoSaturation(s, now)
  {
    SkewAcceptedIff(now, s.signedAt);
    SkewAcceptedIff(s.signedAt, s.benchmark.collectedAt);
  }

  /** A concrete pair of timestamps that passes although it lies centuries in the future. */
  lemma StaleTimestampsAccepted(s: Submission, now: int)
    requires now > 0 && s.signedAt == now + 0x8000_0000_0000_0000 && s.benchmark.collectedAt == s.signedAt
    ensures TimestampsAccepted(s, now) && now - s.benchmark.collectedAt < -2 * MAX_SKEW
  {
    SkewAcceptedIff(now, s.signedAt);
  }

  // ---------------------------------------------------------------------
  // The limits, field by field
  // ---------------------------------------------------------------------

  /** How far each field of an accepted sample can move on its own. */
  lemma SampleLimits(x: Sample)
    requires SampleAccepted(x)
    ensures forall n :: SampleAccepted(x.(run := n)) <==> n >= 1
    ensures forall n :: SampleAccepted(x.(promptTokens := n)) <==> n >= if x.success then 1 else 0
    ensures forall n :: SampleAccepted(x.(generatedTokens := n)) <==> n >= if x.success then 1 else 0
    ensures forall r :: SampleAccepted(x.(promptTps := r)) <==> r > 0.0 || (r == 0.0 && !x.success)
    ensures forall r :: SampleAccepted(x.(generationTps := r)) <==> r > 0.0 || (r == 0.0 && !x.success)
    ensures forall r :: SampleAccepted(x.(ttftMs := r)) <==> r >= 0.0
    ensures forall n :: SampleAccepted(x.(peakSystemRam := n)) <==> n > 0 || !x.success
    ensures forall t :: SampleAccepted(x.(temperature := Some(t))) <==> -100.0 <= t <= 250.0
    ensures SampleAccepted(x.(temperature := None))
    ensures forall v, t :: SampleAccepted(x.(peakVram := v, throttled := t))
    ensures forall e :: SampleAccepted(x.(error := e)) <==>
              if x.success then Trim(e) == "" else Trim(e) != "" && ByteLen(e) <= 1024
  {
    hide Trim, ByteLen;
  }

  /** The same for the header; texts count trimmed, the two optional ones as they are. */
  lemma HeaderLimits(b: Benchmark)
    requires HeaderAccepted(b)
    ensures forall t :: HeaderAccepted(b.(schemaVersion := t)) <==> t == "m9-v1"
    ensures forall t :: HeaderAccepted(b.(workloadId := t)) <==> Trim(t) != "" && ByteLen(Trim(t)) <= 128
    ensures forall t :: HeaderAccepted(b.(condition := t)) <==> Trim(t) != "" && ByteLen(Trim(t)) <= 64
    ensures forall t :: HeaderAccepted(b.(runtime := t)) <==> Trim(t) != "" && ByteLen(Trim(t)) <= 128
    ensures forall t :: HeaderAccepted(b.(model := t)) <==> Trim(t) != "" && ByteLen(Trim(t)) <= 512
    ensures forall t :: HeaderAccepted(b.(runtimeVersion := t)) <==> ByteLen(t) <= 128
    ensures forall t :: HeaderAccepted(b.(quantization := t)) <==> ByteLen(t) <= 128
    ensures forall n :: HeaderAccepted(b.(contextSize := n)) <==> 1 <= n <= 1048576
    ensures forall v :: HeaderAccepted(b.(samples := v)) <==> 1 <= |v| <= 50
    ensures forall t :: HeaderAccepted(b.(collectedAt := t))
  {
    hide Trim, ByteLen;
  }

  /** Both timestamps are set, and both skews are at most five minutes or saturate below. */
  lemma TimestampLimits(s: Submission, now: int)
    ensures TimestampsAccepted(s, now) <==>
              && s.signedAt != 0 && s.benchmark.collectedAt != 0
              && (|| -300_000_000_000 <= now - s.signedAt <= 300_000_000_000
                  || now - s.signedAt <= -0x8000_0000_0000_0000)
              && (|| -300_000_000_000 <= s.signedAt - s.benchmark.collectedAt <= 300_000_000_000
                  || s.signedAt - s.benchmark.collectedAt <= -0x8000_0000_0000_0000)
  {
    SkewAcceptedIff(now, s.signedAt);
    SkewAcceptedIff(s.signedAt, s.benchmark.collectedAt);
  }

  /** The envelope: the version and two version-4 UUIDs. */
  lemma EnvelopeLimits(s: Submission)
    requires EnvelopeAccepted(s)
    ensures forall t :: EnvelopeAccepted(s.(version := t)) <==> t == "m9-v1"
    ensures forall t :: EnvelopeAccepted(s.(nodeId := t)) <==> ValidUuidV4(t)
    ensures forall t :: EnvelopeAccepted(s.(reportId := t)) <==> ValidUuidV4(t)
  {
    hide ValidUuidV4;
  }

  /** Samples that are acceptable one by one are accepted exactly when no two have the same run number. */
  lemma RunNumbersDecide(samples: seq<Sample>)
    ensures SamplesAccepted(samples) <==>
              && (forall i :: 0 <= i < |samples| ==> SampleAccepted(samples[i]))
              && |set n | n in RunNumbers(samples)| == |samples|
  {
    hide SampleAccepted;
    DistinctIff(RunNumbers(samples));
    assert forall i :: 0 <= i < |samples| ==> RunNumbers(samples)[i] == samples[i].run;
  }

  function RunNumbers(samples: seq<Sample>): seq<int> {
    seq(|samples|, i requires 0 <= i < |samples| => samples[i].run)
  }

  lemma {:induction false} DistinctIff(v: seq<int>)
    ensures (forall i, j :: 0 <= i < j < |v| ==> v[i] != v[j]) <==> |set n | n in v| == |v|
    ensures |set n | n in v| <= |v|
  {
    if v != [] {
      var init, last := v[..|v| - 1], v[|v| - 1];
      DistinctIff(init);
      assert v == init + [last];
      assert (set n | n in v) == (set n | n in init) + {last};
      if last in init {
        assert (set n | n in v) == (set n | n in init);
        var i :| 0 <= i < |init| && init[i] == last;
        assert v[i] == v[|v| - 1];
      }
    }
  }
}
