/** The authoritative compute and network scores, calculated from raw measurements only. */
module Scores {
  import opened Prelude
  import opened RealFacts
  import opened OrderStatistics
  import opened Variation
  import opened Protocol

  function Clamp(value: real, minimum: real, maximum: real): real {
    if value < minimum then minimum else if value > maximum then maximum else value
  }

  function Clamp01(value: real): real {
    Clamp(value, 0.0, 1.0)
  }

  function DecreasingLinear(value: real, best: real, worst: real, points: real): real {
    if value <= best then points
    else if value >= worst then 0.0
    else Times(points, Over(worst - value, worst - best))
  }

  /** math.Round: halves away from zero. */
  function Round(x: real): int {
    if x >= 0.0 then (x + 0.5).Floor else -((0.5 - x).Floor)
  }

  // ---------------------------------------------------------------------
  // The compute score
  // ---------------------------------------------------------------------

  const PROMPT_POINTS := 20.0
  const GENERATION_POINTS := 40.0
  const TTFT_POINTS := 15.0
  const STABILITY_POINTS := 15.0
  const SUCCESS_POINTS := 10.0
  const PROMPT_FULL_TPS := 1000.0
  const GENERATION_FULL_TPS := 100.0
  const TTFT_BEST_MS := 100.0
  const TTFT_WORST_MS := 5000.0
  const STABLE_CV := 0.05
  const POOR_CV := 0.30
  const THROTTLE_MULTIPLIER := 0.90

  datatype Breakdown = Breakdown(
    score: int,
    successfulRuns: nat,
    totalRuns: nat,
    medianPrompt: real,
    medianGeneration: real,
    medianTtft: real,
    promptPoints: real,
    generationPoints: real,
    ttftPoints: real,
    stabilityPoints: real,
    successPoints: real,
    variation: real,
    throttlingObserved: bool)

  const PROMPT: Sample -> real := (s: Sample) => s.promptTps
  const GENERATION: Sample -> real := (s: Sample) => s.generationTps
  const TTFT: Sample -> real := (s: Sample) => s.ttftMs

  /** One measurement of every successful sample, in order. */
  function Rates(f: Sample -> real, samples: seq<Sample>): seq<real> {
    if samples == [] then []
    else
      var s := samples[|samples| - 1];
      Rates(f, samples[..|samples| - 1]) + (if s.success then [f(s)] else [])
  }

  predicate Throttling(samples: seq<Sample>) {
    exists i :: 0 <= i < |samples| && samples[i].throttled == Some(true)
  }

  function MeanVariation(sqrt: real -> real, samples: seq<Sample>): real {
    (Coefficient(sqrt, Rates(PROMPT, samples)) + Coefficient(sqrt, Rates(GENERATION, samples))
     + Coefficient(sqrt, Rates(TTFT, samples))) / 3.0
  }

  function PromptPoints(samples: seq<Sample>): real {
    PROMPT_POINTS * Clamp01(Median(Rates(PROMPT, samples)) / PROMPT_FULL_TPS)
  }

  function GenerationPoints(samples: seq<Sample>): real {
    GENERATION_POINTS * Clamp01(Median(Rates(GENERATION, samples)) / GENERATION_FULL_TPS)
  }

  function TtftPoints(samples: seq<Sample>): real {
    DecreasingLinear(Median(Rates(TTFT, samples)), TTFT_BEST_MS, TTFT_WORST_MS, TTFT_POINTS)
  }

  /** One or two successful runs do not establish stability. */
  function StabilityPoints(sqrt: real -> real, samples: seq<Sample>): real {
    if |Rates(PROMPT, samples)| >= 3
    then DecreasingLinear(MeanVariation(sqrt, samples), STABLE_CV, POOR_CV, STABILITY_POINTS) else 0.0
  }

  /** The points that depend on the successful measurements only. */
  function PerformancePoints(sqrt: real -> real, samples: seq<Sample>): real {
    PromptPoints(samples) + GenerationPoints(samples) + TtftPoints(samples) + StabilityPoints(sqrt, samples)
  }

  function SuccessPoints(samples: seq<Sample>): real
    requires samples != []
  {
    SUCCESS_POINTS * Over(|Rates(PROMPT, samples)| as real, |samples| as real)
  }

  /** The points before the final clamp. */
  function TotalPoints(sqrt: real -> real, samples: seq<Sample>): real
    requires samples != []
  {
    (PerformancePoints(sqrt, samples) + SuccessPoints(samples))
    * (if Throttling(samples) then THROTTLE_MULTIPLIER else 1.0)
  }

  function ComputeScore(sqrt: real -> real, samples: seq<Sample>): int {
    if |Rates(PROMPT, samples)| == 0 || samples == [] then 0 else Round(Clamp(TotalPoints(sqrt, samples), 0.0, 100.0))
  }

  lemma RatesPrefix(f: Sample -> real, samples: seq<Sample>, i: nat)
    requires i < |samples|
    ensures Rates(f, samples[..i + 1]) ==
            Rates(f, samples[..i]) + (if samples[i].success then [f(samples[i])] else [])
  {
    assert samples[..i + 1][..i] == samples[..i];
  }

  lemma {:induction false} RatesLength(f: Sample -> real, g: Sample -> real, samples: seq<Sample>)
    ensures |Rates(f, samples)| == |Rates(g, samples)| <= |samples|
  {
    if samples != [] { RatesLength(f, g, samples[..|samples| - 1]); }
  }

  /** The loop over the samples: only successful ones contribute measurements. */
  method CollectRates(samples: seq<Sample>)
    returns (promptRates: seq<real>, generationRates: seq<real>, ttfts: seq<real>, throttled: bool)
    ensures promptRates == Rates(PROMPT, samples) && generationRates == Rates(GENERATION, samples)
    ensures ttfts == Rates(TTFT, samples) && throttled == Throttling(samples)
  {
    promptRates, generationRates, ttfts, throttled := [], [], [], false;
    var i := 0;
    while i < |samples|
      invariant 0 <= i <= |samples|
      invariant promptRates == Rates(PROMPT, samples[..i]) && generationRates == Rates(GENERATION, samples[..i])
      invariant ttfts == Rates(TTFT, samples[..i]) && throttled == Throttling(samples[..i])
    {
      var sample := samples[i];
      RatesPrefix(PROMPT, samples, i);
      RatesPrefix(GENERATION, samples, i);
      RatesPrefix(TTFT, samples, i);
      ThrottlingPrefix(samples, i);
      i := i + 1;
      if sample.throttled.Some? && sample.throttled.value { throttled := true; }
      if !sample.success { continue; }
      promptRates := promptRates + [sample.promptTps];
      generationRates := generationRates + [sample.generationTps];
      ttfts := ttfts + [sample.ttftMs];
    }
    assert samples[..|samples|] == samples;
  }

  method CalculateComputeScore(sqrt: real -> real, benchmark: Benchmark) returns (result: Breakdown)
    ensures result.score == ComputeScore(sqrt, benchmark.samples)
    ensures result.totalRuns == |benchmark.samples|
    ensures result.successfulRuns == |Rates(PROMPT, benchmark.samples)|
    ensures result.throttlingObserved == Throttling(benchmark.samples)
    ensures result.successfulRuns > 0 ==>
      && result.medianPrompt == Median(Rates(PROMPT, benchmark.samples))
      && result.medianGeneration == Median(Rates(GENERATION, benchmark.samples))
      && result.medianTtft == Median(Rates(TTFT, benchmark.samples))
      && result.variation == MeanVariation(sqrt, benchmark.samples)
      && result.promptPoints == PromptPoints(benchmark.samples)
      && result.generationPoints == GenerationPoints(benchmark.samples)
      && result.ttftPoints == TtftPoints(benchmark.samples)
      && result.stabilityPoints == StabilityPoints(sqrt, benchmark.samples)
      && result.successPoints == SuccessPoints(benchmark.samples)
    ensures result.successfulRuns > 0 ==>
      && var points := result.promptPoints + result.generationPoints + result.ttftPoints + result.stabilityPoints
                       + result.successPoints;
      result.score == Round(if result.throttlingObserved then points * THROTTLE_MULTIPLIER else points)
    ensures result.successfulRuns == 0 ==>
      result == Breakdown(0, 0, |benchmark.samples|, 0.0, 0.0, 0.0, 0.0, 0.0, 0.0, 0.0, 0.0, 0.0,
                          Throttling(benchmark.samples))
  {
    hide Times, Over, Coefficient, Median, Rates, Throttling, DecreasingLinear, Clamp, Clamp01, Round;
    var samples := benchmark.samples;
    result := Breakdown(0, 0, |samples|, 0.0, 0.0, 0.0, 0.0, 0.0, 0.0, 0.0, 0.0, 0.0, false);
    var promptRates, generationRates, ttfts, throttled := CollectRates(samples);
    result := result.(successfulRuns := |promptRates|, throttlingObserved := throttled);
    RatesLength(PROMPT, PROMPT, samples);
    if |samples| == 0 || |promptRates| == 0 { return; }
    var m1 := MedianFloat64(promptRates);
    var m2 := MedianFloat64(generationRates);
    var m3 := MedianFloat64(ttfts);
    var promptPoints := PROMPT_POINTS * Clamp01(m1 / PROMPT_FULL_TPS);
    var generationPoints := GENERATION_POINTS * Clamp01(m2 / GENERATION_FULL_TPS);
    var ttftPoints := DecreasingLinear(m3, TTFT_BEST_MS, TTFT_WORST_MS, TTFT_POINTS);
    var successPoints := SUCCESS_POINTS * Over(result.successfulRuns as real, result.totalRuns as real);
    var c1 := CoefficientOfVariation(sqrt, promptRates);
    var c2 := CoefficientOfVariation(sqrt, generationRates);
    var c3 := CoefficientOfVariation(sqrt, ttfts);
    var variation := (c1 + c2 + c3) / 3.0;
    var stabilityPoints := 0.0;
    if result.successfulRuns >= 3 {
      stabilityPoints := DecreasingLinear(variation, STABLE_CV, POOR_CV, STABILITY_POINTS);
    }
    var total := promptPoints + generationPoints + ttftPoints + stabilityPoints + successPoints;
    if result.throttlingObserved { total := total * THROTTLE_MULTIPLIER; }
    assert total == TotalPoints(sqrt, samples);
    ComputeScoreBounds(sqrt, samples);
    result := result.(medianPrompt := m1, medianGeneration := m2, medianTtft := m3, variation := variation,
                      promptPoints := promptPoints, generationPoints := generationPoints, ttftPoints := ttftPoints,
                      stabilityPoints := stabilityPoints, successPoints := successPoints,
                      score := Round(Clamp(total, 0.0, 100.0)));
  }

  lemma ThrottlingPrefix(samples: seq<Sample>, i: nat)
    requires i < |samples|
    ensures Throttling(samples[..i + 1]) <==> Throttling(samples[..i]) || samples[i].throttled == Some(true)
  {
    if Throttling(samples[..i]) {
      var k :| 0 <= k < i && samples[..i][k].throttled == Some(true);
      assert samples[..i + 1][k].throttled == Some(true);
    }
    if samples[i].throttled == Some(true) { assert samples[..i + 1][i].throttled == Some(true); }
    if Throttling(samples[..i + 1]) {
      var k :| 0 <= k < i + 1 && samples[..i + 1][k].throttled == Some(true);
      if k < i { assert samples[..i][k].throttled == Some(true); }
    }
  }

  // ---------------------------------------------------------------------
  // Bounds
  // ---------------------------------------------------------------------

  lemma FractionBounds(a: real, n: real)
    requires 0.0 <= a <= n && n > 0.0
    ensures 0.0 <= Over(a, n) <= 1.0
  {
    hide Times, Over;
    Units(n);
    OverUnique(n, n, 1.0);
    OverUnique(0.0, n, 0.0);
    OverMonotone(a, n, n);
    OverMonotone(0.0, a, n);
  }

  lemma DecreasingBounds(value: real, best: real, worst: real, points: real)
    requires best < worst && points >= 0.0
    ensures 0.0 <= DecreasingLinear(value, best, worst, points) <= points
  {
    hide Times, Over;
    if best < value < worst {
      FractionBounds(worst - value, worst - best);
      Units(points);
      ScaleMonotone(points, 0.0, Over(worst - value, worst - best));
      ScaleMonotone(points, Over(worst - value, worst - best), 1.0);
    }
  }

  lemma DecreasingAntitone(value: real, larger: real, best: real, worst: real, points: real)
    requires best < worst && points >= 0.0 && value <= larger
    ensures DecreasingLinear(larger, best, worst, points) <= DecreasingLinear(value, best, worst, points)
  {
    hide Times, Over;
    DecreasingBounds(value, best, worst, points);
    DecreasingBounds(larger, best, worst, points);
    if best < value && larger < worst {
      OverMonotone(worst - larger, worst - value, worst - best);
      ScaleMonotone(points, Over(worst - larger, worst - best), Over(worst - value, worst - best));
    }
  }

  lemma RoundMonotone(x: real, y: real)
    requires 0.0 <= x <= y
    ensures Round(x) <= Round(y)
  {
  }

  lemma PerformanceBounds(sqrt: real -> real, samples: seq<Sample>)
    ensures 0.0 <= PerformancePoints(sqrt, samples) <= 90.0
  {
    hide Times, Over, Coefficient, Median, DecreasingLinear;
    DecreasingBounds(Median(Rates(TTFT, samples)), TTFT_BEST_MS, TTFT_WORST_MS, TTFT_POINTS);
    DecreasingBounds(MeanVariation(sqrt, samples), STABLE_CV, POOR_CV, STABILITY_POINTS);
  }

  lemma SuccessBounds(samples: seq<Sample>)
    requires samples != []
    ensures 0.0 <= SuccessPoints(samples) <= 10.0
  {
    hide Over;
    RatesLength(PROMPT, PROMPT, samples);
    FractionBounds(|Rates(PROMPT, samples)| as real, |samples| as real);
  }

  /** Every compute score is in 0..100, and the final clamp never changes the total. */
  lemma ComputeScoreBounds(sqrt: real -> real, samples: seq<Sample>)
    ensures 0 <= ComputeScore(sqrt, samples) <= 100
    ensures samples != [] ==> Clamp(TotalPoints(sqrt, samples), 0.0, 100.0) == TotalPoints(sqrt, samples)
  {
    hide Over, PerformancePoints, SuccessPoints;
    if samples != [] {
      PerformanceBounds(sqrt, samples);
      SuccessBounds(samples);
      RoundMonotone(0.0, TotalPoints(sqrt, samples));
      RoundMonotone(TotalPoints(sqrt, samples), 100.0);
    }
  }

  // ---------------------------------------------------------------------
  // Failed and throttled samples never help
  // ---------------------------------------------------------------------

  lemma MoreRunsLowerFraction(k: real, n: real, m: real)
    requires 0.0 <= k && 0.0 < n <= m
    ensures Over(k, m) <= Over(k, n)
  {
    hide Times, Over;
    var q := Over(k, n);
    OverTimes(k, n);
    OverSign(k, n);
    Commute(n, q);
    Commute(m, q);
    ScaleMonotone(q, n, m);
    OverMonotone(k, Times(m, q), m);
    OverUnique(Times(m, q), m, q);
  }

  lemma SamePerformance(sqrt: real -> real, a: seq<Sample>, b: seq<Sample>)
    requires Rates(PROMPT, a) == Rates(PROMPT, b) && Rates(GENERATION, a) == Rates(GENERATION, b)
    requires Rates(TTFT, a) == Rates(TTFT, b)
    ensures PerformancePoints(sqrt, a) == PerformancePoints(sqrt, b)
  {
    hide Rates, Coefficient, Median, DecreasingLinear, Clamp01;
  }

  /** Same measurements, no better success ratio, no less throttling: no better score. */
  lemma NoBetterScore(sqrt: real -> real, samples: seq<Sample>, worse: seq<Sample>)
    requires samples != [] && |samples| <= |worse|
    requires Rates(PROMPT, worse) == Rates(PROMPT, samples) && Rates(GENERATION, worse) == Rates(GENERATION, samples)
    requires Rates(TTFT, worse) == Rates(TTFT, samples)
    requires Throttling(samples) ==> Throttling(worse)
    ensures ComputeScore(sqrt, worse) <= ComputeScore(sqrt, samples)
  {
    hide Over, PerformancePoints, Throttling;
    MoreRunsLowerFraction(|Rates(PROMPT, samples)| as real, |samples| as real, |worse| as real);
    PerformanceBounds(sqrt, samples);
    SuccessBounds(worse);
    SamePerformance(sqrt, samples, worse);
    assert SuccessPoints(worse) <= SuccessPoints(samples);
    TotalsOrdered(sqrt, samples, worse);
  }

  lemma TotalsOrdered(sqrt: real -> real, samples: seq<Sample>, worse: seq<Sample>)
    requires samples != [] && worse != []
    requires 0.0 <= PerformancePoints(sqrt, worse) <= PerformancePoints(sqrt, samples)
    requires 0.0 <= SuccessPoints(worse) <= SuccessPoints(samples)
    requires |Rates(PROMPT, worse)| == |Rates(PROMPT, samples)|
    requires Throttling(samples) ==> Throttling(worse)
    ensures ComputeScore(sqrt, worse) <= ComputeScore(sqrt, samples)
  {
    hide PerformancePoints, SuccessPoints, Throttling;
    assert 0.0 <= TotalPoints(sqrt, worse) <= TotalPoints(sqrt, samples);
    RoundMonotone(Clamp(TotalPoints(sqrt, worse), 0.0, 100.0), Clamp(TotalPoints(sqrt, samples), 0.0, 100.0));
  }

  /** Appending a failed sample never raises the score. */
  lemma FailedSampleNeverHelps(sqrt: real -> real, samples: seq<Sample>, failed: Sample)
    requires !failed.success
    ensures ComputeScore(sqrt, samples + [failed]) <= ComputeScore(sqrt, samples)
  {
    var worse := samples + [failed];
    assert worse[..|samples|] == samples;
    forall f: Sample -> real ensures Rates(f, worse) == Rates(f, samples) {}
    if samples != [] {
      if Throttling(samples) {
        var i :| 0 <= i < |samples| && samples[i].throttled == Some(true);
        assert worse[i].throttled == Some(true);
      }
      NoBetterScore(sqrt, samples, worse);
    }
  }

  /** A measurement that does not read the throttling flag. */
  ghost predicate IgnoresThrottling(f: Sample -> real) {
    forall s: Sample, t :: f(s.(throttled := t)) == f(s)
  }

  lemma {:induction false} RatesIgnoreThrottling(f: Sample -> real, samples: seq<Sample>, i: nat, t: Option<bool>)
    requires i < |samples| && IgnoresThrottling(f)
    ensures Rates(f, samples[i := samples[i].(throttled := t)]) == Rates(f, samples)
  {
    var n := |samples| - 1;
    var marked := samples[i := samples[i].(throttled := t)];
    if i < n {
      RatesIgnoreThrottling(f, samples[..n], i, t);
      assert marked[..n] == samples[..n][i := samples[i].(throttled := t)];
    } else {
      assert marked[..n] == samples[..n];
    }
  }

  /** Marking any sample as throttled never raises the score. */
  lemma ThrottledSampleNeverHelps(sqrt: real -> real, samples: seq<Sample>, i: nat)
    requires i < |samples|
    ensures ComputeScore(sqrt, samples[i := samples[i].(throttled := Some(true))]) <= ComputeScore(sqrt, samples)
  {
    var marked := samples[i := samples[i].(throttled := Some(true))];
    RatesIgnoreThrottling(PROMPT, samples, i, Some(true));
    RatesIgnoreThrottling(GENERATION, samples, i, Some(true));
    RatesIgnoreThrottling(TTFT, samples, i, Some(true));
    assert marked[i].throttled == Some(true);
    NoBetterScore(sqrt, samples, marked);
  }

  // ---------------------------------------------------------------------
  // The order of the samples does not matter
  // ---------------------------------------------------------------------

  lemma {:induction false} RatesSplit(f: Sample -> real, a: seq<Sample>, b: seq<Sample>)
    ensures Rates(f, a + b) == Rates(f, a) + Rates(f, b)
  {
    if b == [] {
      assert a + b == a;
    } else {
      RatesSplit(f, a, b[..|b| - 1]);
      assert (a + b)[..|a + b| - 1] == a + b[..|b| - 1];
    }
  }

  lemma Without(b: seq<Sample>, i: nat)
    requires i < |b|
    ensures multiset(b[..i] + b[i + 1..]) == multiset(b) - multiset{b[i]}
  {
    assert b == b[..i] + [b[i]] + b[i + 1..];
  }

  lemma MoveToEnd(p: seq<real>, q: seq<real>, r: seq<real>)
    ensures multiset(p + q + r) == multiset(p + r) + multiset(q)
  {
  }

  lemma RatesWithout(f: Sample -> real, b: seq<Sample>, i: nat)
    requires i < |b|
    ensures multiset(Rates(f, b)) == multiset(Rates(f, b[..i] + b[i + 1..])) + multiset(Rates(f, [b[i]]))
  {
    hide Rates;
    var x, e, y := b[..i], [b[i]], b[i + 1..];
    assert b == x + e + y;
    RatesSplit(f, x + e, y);
    RatesSplit(f, x, e);
    RatesSplit(f, x, y);
    MoveToEnd(Rates(f, x), Rates(f, e), Rates(f, y));
  }

  lemma {:induction false} RatesOfPermutation(f: Sample -> real, a: seq<Sample>, b: seq<Sample>)
    requires multiset(a) == multiset(b)
    ensures multiset(Rates(f, a)) == multiset(Rates(f, b))
    decreases |a|
  {
    hide Rates;
    SamplesSameSize(a, b);
    if a == [] {
      assert b == [];
    } else {
      var i := Find(b, a[0]);
      var a', b' := a[..0] + a[1..], b[..i] + b[i + 1..];
      assert multiset(a') == multiset(b') by {
        Without(a, 0);
        Without(b, i);
      }
      RatesOfPermutation(f, a', b');
      SameWithEqualElement(f, a, b, i);
    }
  }

  lemma SameWithEqualElement(f: Sample -> real, a: seq<Sample>, b: seq<Sample>, i: nat)
    requires a != [] && i < |b| && a[0] == b[i]
    requires multiset(Rates(f, a[..0] + a[1..])) == multiset(Rates(f, b[..i] + b[i + 1..]))
    ensures multiset(Rates(f, a)) == multiset(Rates(f, b))
  {
    hide Rates;
    RatesWithout(f, a, 0);
    RatesWithout(f, b, i);
  }

  lemma Find(b: seq<Sample>, s: Sample) returns (i: nat)
    requires s in multiset(b)
    ensures i < |b| && b[i] == s
  {
    i :| 0 <= i < |b| && b[i] == s;
  }

  lemma ThrottlingOfPermutation(a: seq<Sample>, b: seq<Sample>)
    requires multiset(a) == multiset(b) && Throttling(a)
    ensures Throttling(b)
  {
    var i :| 0 <= i < |a| && a[i].throttled == Some(true);
    assert a[i] in multiset(a);
    var k := Find(b, a[i]);
  }

  lemma SamplesSameSize(a: seq<Sample>, b: seq<Sample>)
    requires multiset(a) == multiset(b)
    ensures |a| == |b|
  {
    assert |a| == |multiset(a)| && |b| == |multiset(b)|;
  }

  /** The compute score depends on which samples were measured, not on their order. */
  lemma ComputeScoreOrderFree(sqrt: real -> real, a: seq<Sample>, b: seq<Sample>)
    requires multiset(a) == multiset(b)
    ensures ComputeScore(sqrt, a) == ComputeScore(sqrt, b)
  {
    hide Times, Over, Coefficient, Median, DecreasingLinear, Throttling, Rates;
    SamplesSameSize(a, b);
    assert Throttling(a) <==> Throttling(b) by {
      if Throttling(a) { ThrottlingOfPermutation(a, b); }
      if Throttling(b) { ThrottlingOfPermutation(b, a); }
    }
    SameStatistics(sqrt, PROMPT, a, b);
    SameStatistics(sqrt, GENERATION, a, b);
    SameStatistics(sqrt, TTFT, a, b);
    if a != [] {
      assert PerformancePoints(sqrt, a) == PerformancePoints(sqrt, b);
      assert SuccessPoints(a) == SuccessPoints(b);
    }
  }

  lemma SameStatistics(sqrt: real -> real, f: Sample -> real, a: seq<Sample>, b: seq<Sample>)
    requires multiset(a) == multiset(b)
    ensures |Rates(f, a)| == |Rates(f, b)|
    ensures Median(Rates(f, a)) == Median(Rates(f, b))
    ensures Coefficient(sqrt, Rates(f, a)) == Coefficient(sqrt, Rates(f, b))
  {
    RatesOfPermutation(f, a, b);
    SameSize(Rates(f, a), Rates(f, b));
    MedianOfPermutation(Rates(f, a), Rates(f, b));
    OrderFree(sqrt, Rates(f, a), Rates(f, b));
  }

  // ---------------------------------------------------------------------
  // The network score
  // ---------------------------------------------------------------------

  const IPV4_POINTS := 6.0
  const IPV6_POINTS := 4.0
  const DOWNLOAD_POINTS := 15.0
  const UPLOAD_POINTS := 15.0
  const LATENCY_POINTS := 20.0
  const JITTER_POINTS := 10.0
  const LOSS_POINTS := 30.0
  const BANDWIDTH_FULL_MBPS := 1000.0
  const LATENCY_BEST_MS := 10.0
  const LATENCY_WORST_MS := 200.0
  const JITTER_BEST_MS := 2.0
  const JITTER_WORST_MS := 50.0
  const LOSS_WORST_PERCENT := 5.0

  datatype Network = Network(
    ipv4: bool,
    ipv6: bool,
    download: real,
    upload: real,
    latency: real,
    jitter: real,
    loss: real)

  function LossRatio(loss: real): (r: real)
    ensures 0.0 <= r <= 1.0
  {
    1.0 - Clamp(loss, 0.0, LOSS_WORST_PERCENT) / LOSS_WORST_PERCENT
  }

  function NetworkPoints(n: Network): real {
    (if n.ipv4 then IPV4_POINTS else 0.0) + (if n.ipv6 then IPV6_POINTS else 0.0)
    + DOWNLOAD_POINTS * Clamp01(n.download / BANDWIDTH_FULL_MBPS)
    + UPLOAD_POINTS * Clamp01(n.upload / BANDWIDTH_FULL_MBPS)
    + DecreasingLinear(n.latency, LATENCY_BEST_MS, LATENCY_WORST_MS, LATENCY_POINTS)
    + DecreasingLinear(n.jitter, JITTER_BEST_MS, JITTER_WORST_MS, JITTER_POINTS)
    + Times(LOSS_POINTS * LossRatio(n.loss), LossRatio(n.loss))
  }

  function NetworkScore(n: Network): int {
    if !n.ipv4 && !n.ipv6 then 0 else Round(Clamp(NetworkPoints(n), 0.0, 100.0))
  }

  method CalculateNetworkScore(n: Network) returns (result: int)
    ensures result == NetworkScore(n)
  {
    hide Times, Over, DecreasingLinear;
    if !n.ipv4 && !n.ipv6 { return 0; }
    var score := 0.0;
    if n.ipv4 { score := score + IPV4_POINTS; }
    if n.ipv6 { score := score + IPV6_POINTS; }
    score := score + DOWNLOAD_POINTS * Clamp01(n.download / BANDWIDTH_FULL_MBPS);
    score := score + UPLOAD_POINTS * Clamp01(n.upload / BANDWIDTH_FULL_MBPS);
    score := score + DecreasingLinear(n.latency, LATENCY_BEST_MS, LATENCY_WORST_MS, LATENCY_POINTS);
    score := score + DecreasingLinear(n.jitter, JITTER_BEST_MS, JITTER_WORST_MS, JITTER_POINTS);
    var lossRatio := 1.0 - Clamp(n.loss, 0.0, LOSS_WORST_PERCENT) / LOSS_WORST_PERCENT;
    score := score + Times(LOSS_POINTS * lossRatio, lossRatio);
    score := Clamp(score, 0.0, 100.0);
    return Round(score);
  }

  /** `m` is at least as good as `n` in each of the seven inputs. */
  predicate NoWorse(m: Network, n: Network) {
    && (n.ipv4 ==> m.ipv4) && (n.ipv6 ==> m.ipv6)
    && m.download >= n.download && m.upload >= n.upload
    && m.latency <= n.latency && m.jitter <= n.jitter && m.loss <= n.loss
  }

  lemma LossMonotone(r: real, q: real)
    requires 0.0 <= r <= q <= 1.0
    ensures 0.0 <= Times(LOSS_POINTS * r, r) <= Times(LOSS_POINTS * q, q) <= LOSS_POINTS
  {
    hide Times;
    Units(LOSS_POINTS * r);
    Units(LOSS_POINTS * q);
    Units(q);
    Units(r);
    Commute(LOSS_POINTS * q, q);
    Commute(LOSS_POINTS * r, q);
    ScaleMonotone(LOSS_POINTS * r, 0.0, r);
    ScaleMonotone(LOSS_POINTS * r, r, q);
    ScaleMonotone(q, LOSS_POINTS * r, LOSS_POINTS * q);
    ScaleMonotone(LOSS_POINTS * q, q, 1.0);
  }

  lemma NetworkPointsMonotone(m: Network, n: Network)
    requires NoWorse(m, n)
    ensures 0.0 <= NetworkPoints(n) <= NetworkPoints(m) <= 100.0
  {
    hide Times, Over, DecreasingLinear;
    DecreasingBounds(n.latency, LATENCY_BEST_MS, LATENCY_WORST_MS, LATENCY_POINTS);
    DecreasingBounds(m.latency, LATENCY_BEST_MS, LATENCY_WORST_MS, LATENCY_POINTS);
    DecreasingBounds(n.jitter, JITTER_BEST_MS, JITTER_WORST_MS, JITTER_POINTS);
    DecreasingBounds(m.jitter, JITTER_BEST_MS, JITTER_WORST_MS, JITTER_POINTS);
    DecreasingAntitone(m.latency, n.latency, LATENCY_BEST_MS, LATENCY_WORST_MS, LATENCY_POINTS);
    DecreasingAntitone(m.jitter, n.jitter, JITTER_BEST_MS, JITTER_WORST_MS, JITTER_POINTS);
    LossMonotone(LossRatio(n.loss), LossRatio(m.loss));
  }

  /** Every network score is in 0..100, unclamped, and no input can improve and lower it. */
  lemma NetworkScoreMonotone(m: Network, n: Network)
    requires NoWorse(m, n)
    ensures 0 <= NetworkScore(n) <= NetworkScore(m) <= 100
    ensures Clamp(NetworkPoints(n), 0.0, 100.0) == NetworkPoints(n)
  {
    hide NetworkPoints;
    NetworkPointsMonotone(m, n);
    RoundMonotone(NetworkPoints(n), NetworkPoints(m));
    RoundMonotone(NetworkPoints(m), 100.0);
  }
}
