/** What the two scores award: every component by its literal scale, and what full marks take. */
module ScoresAnswers {
  import opened Prelude
  import opened RealFacts
  import opened OrderStatistics
  import opened Variation
  import opened Protocol
  import opened Scores

  // ---------------------------------------------------------------------
  // What is measured
  // ---------------------------------------------------------------------

  /** Only successful samples count, each with its own measurement. */
  lemma RatesAppend(samples: seq<Sample>, s: Sample)
    ensures Rates(PROMPT, []) == Rates(GENERATION, []) == Rates(TTFT, []) == []
    ensures Rates(PROMPT, samples + [s]) == Rates(PROMPT, samples) + if s.success then [s.promptTps] else []
    ensures Rates(GENERATION, samples + [s]) == Rates(GENERATION, samples) + if s.success then [s.generationTps] else []
    ensures Rates(TTFT, samples + [s]) == Rates(TTFT, samples) + if s.success then [s.ttftMs] else []
  {
    assert (samples + [s])[..|samples|] == samples;
  }

  function Successes(samples: seq<Sample>): nat {
    if samples == [] then 0
    else Successes(samples[..|samples| - 1]) + (if samples[|samples| - 1].success then 1 else 0)
  }

  lemma {:induction false} RatesCount(f: Sample -> real, samples: seq<Sample>)
    ensures |Rates(f, samples)| == Successes(samples) <= |samples|
    ensures Successes(samples) == |samples| <==> forall i :: 0 <= i < |samples| ==> samples[i].success
  {
    if samples != [] { RatesCount(f, samples[..|samples| - 1]); }
  }

  function MedianOf(f: Sample -> real, samples: seq<Sample>): real {
    Median(Rates(f, samples))
  }

  // ---------------------------------------------------------------------
  // The scale of every component
  // ---------------------------------------------------------------------

  /** Prompt rate: 20 points exactly from 1000 tokens a second on, none at 0, in proportion between. */
  lemma PromptScale(samples: seq<Sample>)
    ensures var m, points := MedianOf(PROMPT, samples), PromptPoints(samples);
            && (points == 20.0 <==> m >= 1000.0) && (points == 0.0 <==> m <= 0.0)
            && (0.0 <= m <= 1000.0 ==> points == m / 50.0)
  {
    hide Median, Rates;
  }

  /** Generation rate: 40 points exactly from 100 tokens a second on, none at 0, in proportion between. */
  lemma GenerationScale(samples: seq<Sample>)
    ensures var m, points := MedianOf(GENERATION, samples), GenerationPoints(samples);
            && (points == 40.0 <==> m >= 100.0) && (points == 0.0 <==> m <= 0.0)
            && (0.0 <= m <= 100.0 ==> points == m * 0.4)
  {
    hide Median, Rates;
  }

  lemma LinearScale(value: real, best: real, worst: real, points: real)
    requires best < worst && points > 0.0
    ensures var p := DecreasingLinear(value, best, worst, points);
            && (p == points <==> value <= best) && (p == 0.0 <==> value >= worst)
            && (best <= value <= worst ==> Times(worst - best, p) == Times(points, worst - value))
  {
    hide Times, Over;
    var q, d := worst - value, worst - best;
    Units(points);
    Units(d);
    Commute(d, points);
    if best < value < worst {
      OverTimes(q, d);
      OverSign(q, d);
      PositiveProduct(points, Over(q, d));
      Associate(d, points, Over(q, d));
      Associate(points, d, Over(q, d));
      if Over(q, d) >= 1.0 { ScaleMonotone(d, 1.0, Over(q, d)); }
      ScaleStrict(points, Over(q, d), 1.0);
    }
  }

  /** Time to the first token: 15 points exactly up to 100 ms, none exactly from 5 s on, linear between. */
  lemma TtftScale(samples: seq<Sample>)
    ensures var m, points := MedianOf(TTFT, samples), TtftPoints(samples);
            && (points == 15.0 <==> m <= 100.0) && (points == 0.0 <==> m >= 5000.0)
            && (100.0 <= m <= 5000.0 ==> 4900.0 * points == 15.0 * (5000.0 - m))
  {
    hide Median, Rates;
    LinearScale(MedianOf(TTFT, samples), 100.0, 5000.0, 15.0);
  }

  /** The mean of the three coefficients of variation. */
  lemma VariationIsMean(sqrt: real -> real, samples: seq<Sample>)
    ensures 3.0 * MeanVariation(sqrt, samples) ==
            Coefficient(sqrt, Rates(PROMPT, samples)) + Coefficient(sqrt, Rates(GENERATION, samples))
            + Coefficient(sqrt, Rates(TTFT, samples))
  {
    hide Coefficient, Rates;
  }

  /** Stability: only with three successes; 15 points exactly up to 0.05, none exactly from 0.30 on, linear between. */
  lemma StabilityScale(sqrt: real -> real, samples: seq<Sample>)
    ensures Successes(samples) < 3 ==> StabilityPoints(sqrt, samples) == 0.0
    ensures Successes(samples) >= 3 ==>
            var v, points := MeanVariation(sqrt, samples), StabilityPoints(sqrt, samples);
            && (points == 15.0 <==> v <= 0.05) && (points == 0.0 <==> v >= 0.30)
            && (0.05 <= v <= 0.30 ==> 0.25 * points == 15.0 * (0.30 - v))
  {
    hide MeanVariation, Rates;
    RatesCount(PROMPT, samples);
    LinearScale(MeanVariation(sqrt, samples), 0.05, 0.30, 15.0);
  }

  /** Success: ten points in the proportion of successful samples. */
  lemma SuccessScale(samples: seq<Sample>)
    requires samples != []
    ensures Times(|samples| as real, SuccessPoints(samples)) == 10.0 * (Successes(samples) as real)
    ensures SuccessPoints(samples) == 10.0 <==> Successes(samples) == |samples|
  {
    hide Over, Rates, Times;
    RatesCount(PROMPT, samples);
    TenthsOfRatio(Successes(samples) as real, |samples| as real);
  }

  lemma TenthsOfRatio(k: real, n: real)
    requires n > 0.0
    ensures Times(n, 10.0 * Over(k, n)) == 10.0 * k
    ensures Over(k, n) == 1.0 <==> k == n
  {
    var q := Over(k, n);
    OverTimes(k, n);
    Units(n);
    OverUnique(n, n, 1.0);
    hide Over;
    assert Times(n, 10.0 * q) == 10.0 * Times(n, q);
    hide Times;
  }

  // ---------------------------------------------------------------------
  // The whole score
  // ---------------------------------------------------------------------

  /** Rounding is to the nearest integer, halves upwards. */
  lemma RoundIsNearest(x: real)
    requires x >= 0.0
    ensures Round(x) as real - 0.5 <= x < Round(x) as real + 0.5
  {
  }

  predicate Full(sqrt: real -> real, samples: seq<Sample>) {
    && MedianOf(PROMPT, samples) >= 1000.0 && MedianOf(GENERATION, samples) >= 100.0
    && MedianOf(TTFT, samples) <= 100.0
    && Successes(samples) >= 3 && MeanVariation(sqrt, samples) <= 0.05
    && Successes(samples) == |samples|
    && forall i :: 0 <= i < |samples| ==> samples[i].throttled != Some(true)
  }

  /** The score is the nearest integer to the components, times 0.9 if a sample was throttled; 0 without success. */
  lemma ScoreIsSum(sqrt: real -> real, samples: seq<Sample>)
    ensures Successes(samples) == 0 ==> ComputeScore(sqrt, samples) == 0
    ensures Successes(samples) > 0 ==>
            var points := PromptPoints(samples) + GenerationPoints(samples) + TtftPoints(samples)
                          + StabilityPoints(sqrt, samples) + SuccessPoints(samples);
            var total := if exists i :: 0 <= i < |samples| && samples[i].throttled == Some(true)
                         then points * 0.9 else points;
            ComputeScore(sqrt, samples) as real - 0.5 <= total < ComputeScore(sqrt, samples) as real + 0.5
  {
    RatesCount(PROMPT, samples);
    hide PromptPoints, GenerationPoints, TtftPoints, StabilityPoints, SuccessPoints, Rates, Round;
    if Successes(samples) > 0 {
      ComputeScoreBounds(sqrt, samples);
      PerformanceBounds(sqrt, samples);
      SuccessBounds(samples);
      RoundIsNearest(TotalPoints(sqrt, samples));
    }
  }

  /** Full marks before rounding take exactly: all five components full and nothing throttled. */
  lemma FullMarksIff(sqrt: real -> real, samples: seq<Sample>)
    requires samples != []
    ensures TotalPoints(sqrt, samples) == 100.0 <==> Full(sqrt, samples)
  {
    ComponentBounds(sqrt, samples);
    PromptScale(samples);
    GenerationScale(samples);
    TtftScale(samples);
    StabilityScale(sqrt, samples);
    SuccessScale(samples);
    RatesCount(PROMPT, samples);
    hide PromptPoints, GenerationPoints, TtftPoints, StabilityPoints, SuccessPoints, MeanVariation, MedianOf;
  }

  lemma ComponentBounds(sqrt: real -> real, samples: seq<Sample>)
    requires samples != []
    ensures 0.0 <= PromptPoints(samples) <= 20.0 && 0.0 <= GenerationPoints(samples) <= 40.0
    ensures 0.0 <= TtftPoints(samples) <= 15.0 && 0.0 <= StabilityPoints(sqrt, samples) <= 15.0
    ensures 0.0 <= SuccessPoints(samples) <= 10.0
  {
    hide Times, Over, Median, MeanVariation, DecreasingLinear, Rates;
    DecreasingBounds(MedianOf(TTFT, samples), 100.0, 5000.0, 15.0);
    DecreasingBounds(MeanVariation(sqrt, samples), 0.05, 0.30, 15.0);
    SuccessBounds(samples);
  }

  // ---------------------------------------------------------------------
  // Faster is never worse
  // ---------------------------------------------------------------------

  /** The same samples succeeded, and each measurement of `b` is at least that of `a`. */
  ghost predicate Raised(f: Sample -> real, a: seq<Sample>, b: seq<Sample>) {
    |a| == |b| && forall i :: 0 <= i < |a| ==> a[i].success == b[i].success && (a[i].success ==> f(a[i]) <= f(b[i]))
  }

  lemma {:induction false} RaisedRates(f: Sample -> real, a: seq<Sample>, b: seq<Sample>)
    requires Raised(f, a, b)
    ensures |Rates(f, a)| == |Rates(f, b)|
    ensures forall i :: 0 <= i < |Rates(f, a)| ==> Rates(f, a)[i] <= Rates(f, b)[i]
  {
    if a != [] { RaisedRates(f, a[..|a| - 1], b[..|b| - 1]); }
  }

  lemma RaisedMedian(f: Sample -> real, a: seq<Sample>, b: seq<Sample>)
    requires Raised(f, a, b)
    ensures MedianOf(f, a) <= MedianOf(f, b)
  {
    RaisedRates(f, a, b);
    MedianMonotone(Rates(f, a), Rates(f, b));
  }

  /** Faster successful samples never earn fewer points, and slower first tokens never earn more. */
  lemma FasterIsNeverWorse(a: seq<Sample>, b: seq<Sample>)
    ensures Raised(PROMPT, a, b) ==> PromptPoints(a) <= PromptPoints(b)
    ensures Raised(GENERATION, a, b) ==> GenerationPoints(a) <= GenerationPoints(b)
    ensures Raised(TTFT, a, b) ==> TtftPoints(a) >= TtftPoints(b)
  {
    hide Raised, Median, Rates, DecreasingLinear;
    if Raised(PROMPT, a, b) { RaisedMedian(PROMPT, a, b); }
    if Raised(GENERATION, a, b) { RaisedMedian(GENERATION, a, b); }
    if Raised(TTFT, a, b) {
      RaisedMedian(TTFT, a, b);
      DecreasingAntitone(MedianOf(TTFT, a), MedianOf(TTFT, b), 100.0, 5000.0, 15.0);
    }
  }

  /** More variation never earns more points. */
  lemma SteadierIsNeverWorse(sqrt: real -> real, a: seq<Sample>, b: seq<Sample>)
    requires Successes(a) == Successes(b) && MeanVariation(sqrt, a) <= MeanVariation(sqrt, b)
    ensures StabilityPoints(sqrt, a) >= StabilityPoints(sqrt, b)
  {
    hide MeanVariation, Rates, DecreasingLinear;
    RatesCount(PROMPT, a);
    RatesCount(PROMPT, b);
    DecreasingAntitone(MeanVariation(sqrt, a), MeanVariation(sqrt, b), 0.05, 0.30, 15.0);
  }

  // ---------------------------------------------------------------------
  // The network score
  // ---------------------------------------------------------------------

  /** In proportion up to 1000 Mbit/s, 15 points from there on. */
  function BandwidthPoints(mbps: real): real {
    if mbps <= 0.0 then 0.0 else if mbps >= 1000.0 then 15.0 else mbps * 0.015
  }

  /** 30 points without loss, none from 5 percent on, the square of the distance between. */
  function LossPoints(percent: real): real {
    if percent <= 0.0 then 30.0 else if percent >= 5.0 then 0.0 else 1.2 * (5.0 - percent) * (5.0 - percent)
  }

  /** `p` falls linearly from `points` at `best` to nothing at `worst`. */
  ghost predicate Falls(p: real, value: real, best: real, worst: real, points: real) {
    if value <= best then p == points
    else if value >= worst then p == 0.0
    else (worst - best) * p == points * (worst - value)
  }

  lemma LossScale(percent: real)
    ensures Times(30.0 * LossRatio(percent), LossRatio(percent)) == LossPoints(percent)
    ensures LossPoints(2.0) == 10.8 && LossPoints(3.0) == 4.8
  {
    if 0.0 < percent < 5.0 {
      var r := LossRatio(percent);
      assert 5.0 * r == 5.0 - percent;
      LossSquare(r, 5.0 - percent);
    }
  }

  lemma LossSquare(r: real, d: real)
    requires 5.0 * r == d
    ensures (30.0 * r) * r == 1.2 * d * d
  {
    assert r == d / 5.0;
  }

  /** The network points, input by input; the score is the nearest integer, and 0 without IP connectivity. */
  lemma NetworkScale(n: Network) returns (latency: real, jitter: real)
    ensures Falls(latency, n.latency, 10.0, 200.0, 20.0) && Falls(jitter, n.jitter, 2.0, 50.0, 10.0)
    ensures NetworkPoints(n) == (if n.ipv4 then 6.0 else 0.0) + (if n.ipv6 then 4.0 else 0.0)
                                + BandwidthPoints(n.download) + BandwidthPoints(n.upload)
                                + latency + jitter + LossPoints(n.loss)
    ensures !n.ipv4 && !n.ipv6 ==> NetworkScore(n) == 0
    ensures n.ipv4 || n.ipv6 ==> NetworkScore(n) as real - 0.5 <= NetworkPoints(n) < NetworkScore(n) as real + 0.5
  {
    latency := DecreasingLinear(n.latency, 10.0, 200.0, 20.0);
    jitter := DecreasingLinear(n.jitter, 2.0, 50.0, 10.0);
    LinearScale(n.latency, 10.0, 200.0, 20.0);
    LinearScale(n.jitter, 2.0, 50.0, 10.0);
    hide DecreasingLinear, Round;
    LossScale(n.loss);
    NetworkPointsMonotone(n, n);
    RoundIsNearest(NetworkPoints(n));
  }
}
