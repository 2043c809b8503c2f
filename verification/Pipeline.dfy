/**
 The agent's benchmark pipeline: five repetitions are collected, finalized into the
 protocol payload, and must then pass the server's validator. A second path, combine
 then assemble, builds the same payload from error-free runs.
 */
module Pipeline {
  import opened Prelude
  import opened GoTime
  import opened Text
  import opened Protocol
  import opened Validation

  const REPETITIONS := 5
  const INVOCATION_REPETITIONS := 1
  const WORKLOAD_ID := "m9-standard-v1"
  const RUNTIME := "llama.cpp"
  const PROMPT_TOKENS := 512
  const GENERATED_TOKENS := 128
  const CONTEXT_SIZE := 4096
  const ERROR_MAX := 1024

  /** What one llama-bench process reports. */
  datatype Throughput = Throughput(
    runtimeVersion: string,
    modelFilename: string,
    modelType: string,
    backend: string,
    promptTokens: int,
    generatedTokens: int,
    promptTps: seq<real>,
    generationTps: seq<real>)

  datatype Telemetry = Telemetry(
    timeToFirstToken: int,
    peakSystemRam: nat,
    peakVram: Option<nat>,
    temperature: Option<real>,
    throttled: Option<bool>)

  datatype Measurement = Measurement(throughput: Throughput, telemetry: Telemetry, error: string)

  datatype FinalizeInput = FinalizeInput(
    collectedAt: int,
    condition: string,
    quantization: string,
    modelPath: string,
    runs: seq<Measurement>)

  /** float64(duration) / float64(time.Millisecond). */
  function Milliseconds(d: int): real {
    d as real / 1000000.0
  }

  predicate ThroughputSamplesValid(values: seq<real>) {
    values != [] && forall i :: 0 <= i < |values| ==> values[i] > 0.0
  }

  // ---------------------------------------------------------------------
  // Finalize
  // ---------------------------------------------------------------------

  predicate Succeeded(m: Measurement) {
    Blank(m.error)
  }

  function FailedSample(n: int, m: Measurement): Sample {
    var t := m.telemetry;
    Sample(n, PROMPT_TOKENS, GENERATED_TOKENS, 0.0, 0.0,
           if t.timeToFirstToken > 0 then Milliseconds(t.timeToFirstToken) else 0.0,
           t.peakSystemRam, t.peakVram, t.temperature, t.throttled, false, Trim(m.error))
  }

  /** The only repetition of a run; checked to be there before it is read. */
  function Single(rates: seq<real>): real {
    if rates == [] then 0.0 else rates[0]
  }

  function SuccessfulSample(n: int, x: Throughput, t: Telemetry): Sample {
    Sample(n, x.promptTokens, x.generatedTokens, Single(x.promptTps), Single(x.generationTps),
           Milliseconds(t.timeToFirstToken), t.peakSystemRam, t.peakVram, t.temperature, t.throttled, true, "")
  }

  /** Checks both paths make on the throughput and telemetry of one successful run. */
  predicate Complete(x: Throughput, t: Telemetry) {
    && |x.promptTps| == INVOCATION_REPETITIONS && |x.generationTps| == INVOCATION_REPETITIONS
    && x.promptTokens > 0 && x.generatedTokens > 0
    && ThroughputSamplesValid(x.promptTps) && ThroughputSamplesValid(x.generationTps)
    && t.timeToFirstToken > 0 && t.peakSystemRam != 0
  }

  predicate Described(x: Throughput) {
    !Blank(x.runtimeVersion) && !Blank(x.modelFilename) && !Blank(x.modelType) && !Blank(x.backend)
  }

  predicate RunAccepted(m: Measurement, modelName: string) {
    if Succeeded(m) then
      Complete(m.throughput, m.telemetry) && Described(m.throughput) && Base(m.throughput.modelFilename) == modelName
    else
      ByteLen(Trim(m.error)) <= ERROR_MAX && m.telemetry.timeToFirstToken >= 0
  }

  predicate SameMetadata(a: Throughput, b: Throughput) {
    && a.runtimeVersion == b.runtimeVersion && a.modelFilename == b.modelFilename && a.modelType == b.modelType
    && a.backend == b.backend && a.promptTokens == b.promptTokens && a.generatedTokens == b.generatedTokens
  }

  predicate HeaderPresent(input: FinalizeInput) {
    && !IsZero(input.collectedAt) && !Blank(input.condition) && !Blank(input.modelPath)
    && ModelName(input) !in {"", ".", "/"}
    && |input.runs| == REPETITIONS
  }

  function ModelName(input: FinalizeInput): string {
    Base(Trim(input.modelPath))
  }

  /** The throughput of the first successful run, the reference for all others. */
  function Reference(runs: seq<Measurement>): Option<Throughput> {
    if runs == [] then None
    else
      match Reference(runs[..|runs| - 1])
      case Some(x) => Some(x)
      case None => if Succeeded(runs[|runs| - 1]) then Some(runs[|runs| - 1].throughput) else None
  }

  predicate Consistent(runs: seq<Measurement>) {
    forall i :: 0 <= i < |runs| && Succeeded(runs[i]) ==>
      Reference(runs).Some? && SameMetadata(runs[i].throughput, Reference(runs).value)
  }

  predicate RunsAccepted(runs: seq<Measurement>, modelName: string) {
    (forall i :: 0 <= i < |runs| ==> RunAccepted(runs[i], modelName)) && Consistent(runs)
  }

  function SampleOf(n: int, m: Measurement): Sample {
    if Succeeded(m) then SuccessfulSample(n, m.throughput, m.telemetry) else FailedSample(n, m)
  }

  function Samples(runs: seq<Measurement>): seq<Sample> {
    seq(|runs|, i requires 0 <= i < |runs| => SampleOf(i + 1, runs[i]))
  }

  function Header(collectedAt: int, condition: string, runtimeVersion: string, model: string, quantization: string,
                  samples: seq<Sample>): Benchmark
  {
    Benchmark(SCHEMA_VERSION, collectedAt, WORKLOAD_ID, Trim(condition), RUNTIME, runtimeVersion, model,
              Trim(quantization), CONTEXT_SIZE, samples)
  }

  /** The payload of an accepted input; any other input is an error. */
  function Finalized(input: FinalizeInput): Option<Benchmark> {
    if !HeaderPresent(input) || !RunsAccepted(input.runs, ModelName(input)) then None
    else
      var version := if Reference(input.runs).Some? then Reference(input.runs).value.runtimeVersion else "";
      Some(Header(input.collectedAt, input.condition, version, ModelName(input), input.quantization,
                  Samples(input.runs)))
  }

  method CheckRun(run: Measurement, modelName: string) returns (ok: bool)
    ensures ok <==> RunAccepted(run, modelName)
  {
    var errorText := Trim(run.error);
    if errorText != "" {
      return ByteLen(errorText) <= ERROR_MAX && run.telemetry.timeToFirstToken >= 0;
    }
    var current := run.throughput;
    if |current.promptTps| != INVOCATION_REPETITIONS || |current.generationTps| != INVOCATION_REPETITIONS {
      return false;
    }
    if current.promptTokens <= 0 || current.generatedTokens <= 0 { return false; }
    if Blank(current.runtimeVersion) || Blank(current.modelFilename) || Blank(current.modelType)
      || Blank(current.backend) { return false; }
    if Base(current.modelFilename) != modelName { return false; }
    return ThroughputSamplesValid(current.promptTps) && ThroughputSamplesValid(current.generationTps)
        && run.telemetry.timeToFirstToken > 0 && run.telemetry.peakSystemRam != 0;
  }

  lemma ReferencePrefix(runs: seq<Measurement>, i: nat)
    requires i < |runs|
    ensures Reference(runs[..i + 1]) ==
            if Reference(runs[..i]).Some? then Reference(runs[..i])
            else if Succeeded(runs[i]) then Some(runs[i].throughput) else None
  {
    assert runs[..i + 1][..i] == runs[..i];
  }

  lemma {:induction false} ReferenceStable(runs: seq<Measurement>, i: nat)
    requires i <= |runs| && Reference(runs[..i]).Some?
    ensures Reference(runs) == Reference(runs[..i])
    decreases |runs|
  {
    if i < |runs| {
      assert runs[..|runs| - 1][..i] == runs[..i];
      ReferenceStable(runs[..|runs| - 1], i);
    } else {
      assert runs[..i] == runs;
    }
  }

  method FinalizeComputeBenchmarkRuns(input: FinalizeInput) returns (result: Option<Benchmark>)
    ensures result == Finalized(input)
  {
    hide RunAccepted, Reference, SampleOf, Succeeded;
    if !HeaderPresent(input) { return None; }
    var modelName := Base(Trim(input.modelPath));
    var runs := input.runs;
    var samples: seq<Sample> := [];
    var reference: Option<Throughput> := None;
    EmptyReference();
    var i := 0;
    while i < |runs|
      invariant 0 <= i <= |runs|
      invariant forall k :: 0 <= k < i ==> RunAccepted(runs[k], modelName)
      invariant samples == Samples(runs[..i])
      invariant reference == Reference(runs[..i])
      invariant forall k :: 0 <= k < i && Succeeded(runs[k]) ==>
        reference.Some? && SameMetadata(runs[k].throughput, reference.value)
    {
      var run := runs[i];
      var accepted := CheckRun(run, modelName);
      if !accepted { return None; }
      ReferencePrefix(runs, i);
      if Succeeded(run) {
        if reference.None? {
          reference := Some(run.throughput);
        } else if !SameMetadata(run.throughput, reference.value) {
          ReferenceStable(runs, i);
          return None;
        }
      }
      samples := samples + [SampleOf(i + 1, run)];
      i := i + 1;
    }
    assert runs[..|runs|] == runs;
    var version := if reference.Some? then reference.value.runtimeVersion else "";
    return Some(Header(input.collectedAt, input.condition, version, modelName, input.quantization, samples));
  }

  lemma EmptyReference()
    ensures Reference([]) == None
  {
  }

  // ---------------------------------------------------------------------
  // Finalized payloads and the server's validator
  // ---------------------------------------------------------------------

  lemma FinalizedSample(n: nat, m: Measurement, modelName: string)
    requires n > 0 && RunAccepted(m, modelName)
    ensures SampleOf(n, m).run == n && (SampleOf(n, m).success <==> Succeeded(m))
    ensures SampleOf(n, m).temperature == m.telemetry.temperature
    ensures SampleAccepted(SampleOf(n, m)) <==> TemperatureAccepted(SampleOf(n, m))
  {
    if Succeeded(m) {
      assert Blank("");
    } else {
      TrimIdempotent(m.error);
    }
  }

  /** What the server can still object to in a finalized payload. */
  ghost predicate WithinServerLimits(b: Benchmark) {
    && ByteLen(b.condition) <= 64 && TextAccepted(b.model, 512)
    && ByteLen(b.runtimeVersion) <= 128 && ByteLen(b.quantization) <= 128
    && forall i :: 0 <= i < |b.samples| ==> TemperatureAccepted(b.samples[i])
  }

  /** Five samples in order, numbered from one; sample i succeeded exactly when run i reported no error. */
  lemma FinalizedShape(input: FinalizeInput)
    requires Finalized(input).Some?
    ensures var b := Finalized(input).value;
            && |b.samples| == REPETITIONS == |input.runs|
            && (forall i :: 0 <= i < |b.samples| ==>
                  && b.samples[i].run == i + 1
                  && (b.samples[i].success <==> Succeeded(input.runs[i]))
                  && (SampleAccepted(b.samples[i]) <==> TemperatureAccepted(b.samples[i])))
  {
    hide SampleAccepted, RunAccepted, SampleOf, Succeeded, Reference, Consistent;
    forall i | 0 <= i < |input.runs|
      ensures SampleOf(i + 1, input.runs[i]).run == i + 1
      ensures SampleOf(i + 1, input.runs[i]).success <==> Succeeded(input.runs[i])
      ensures SampleAccepted(SampleOf(i + 1, input.runs[i])) <==> TemperatureAccepted(SampleOf(i + 1, input.runs[i]))
    {
      FinalizedSample(i + 1, input.runs[i], ModelName(input));
    }
  }

  lemma ConstantTexts()
    ensures TextAccepted(WORKLOAD_ID, 128) && TextAccepted(RUNTIME, 128)
  {
    TrimOfTight(WORKLOAD_ID);
    TrimOfTight(RUNTIME);
    AsciiLength(WORKLOAD_ID);
    AsciiLength(RUNTIME);
  }

  lemma FinalizedHeader(input: FinalizeInput)
    requires Finalized(input).Some?
    ensures var b := Finalized(input).value;
            HeaderAccepted(b) <==>
              && ByteLen(b.condition) <= 64 && TextAccepted(b.model, 512)
              && ByteLen(b.runtimeVersion) <= 128 && ByteLen(b.quantization) <= 128
  {
    hide RunsAccepted, Samples, Reference, ByteLen, TrimLeft, TrimRight;
    FinalizedShape(input);
    ConstantTexts();
    TrimIdempotent(input.condition);
  }

  /**
   A finalized payload in a valid, timely envelope passes the whole validator exactly when
   its texts are short enough, its model name is not blank and its temperatures are in range.
   */
  lemma FinalizedPassesValidator(input: FinalizeInput, s: Submission, now: int)
    requires Finalized(input) == Some(s.benchmark) && EnvelopeAccepted(s) && TimestampsAccepted(s, now)
    ensures Accepted(s, now) <==> WithinServerLimits(s.benchmark)
  {
    hide SampleAccepted, Finalized, HeaderAccepted, TextAccepted, ByteLen, EnvelopeAccepted, TimestampsAccepted;
    FinalizedShape(input);
    FinalizedHeader(input);
    assert RunsDistinct(s.benchmark.samples);
  }

  // ---------------------------------------------------------------------
  // Combine, then assemble
  // ---------------------------------------------------------------------

  predicate Named(x: Throughput) {
    x.runtimeVersion != "" && x.modelFilename != "" && x.modelType != "" && x.backend != ""
  }

  predicate CombineAccepts(runs: seq<Measurement>) {
    && |runs| == REPETITIONS
    && forall i :: 0 <= i < |runs| ==>
         Complete(runs[i].throughput, runs[i].telemetry) && Named(runs[i].throughput)
         && SameMetadata(runs[i].throughput, runs[0].throughput)
  }

  /** The first `n` runs folded into one throughput; the rates are listed run by run. */
  function CombinedThroughput(runs: seq<Measurement>, n: nat): Throughput
    requires 0 < n <= |runs|
  {
    runs[0].throughput.(
      promptTps := seq(n, i requires 0 <= i < n => Single(runs[i].throughput.promptTps)),
      generationTps := seq(n, i requires 0 <= i < n => Single(runs[i].throughput.generationTps)))
  }

  function Telemetries(runs: seq<Measurement>): seq<Telemetry> {
    seq(|runs|, i requires 0 <= i < |runs| => runs[i].telemetry)
  }

  function Combined(runs: seq<Measurement>): Option<(Throughput, seq<Telemetry>)> {
    if CombineAccepts(runs) then Some((CombinedThroughput(runs, REPETITIONS), Telemetries(runs))) else None
  }

  method CombineComputeBenchmarkRuns(runs: seq<Measurement>) returns (r: Option<(Throughput, seq<Telemetry>)>)
    ensures r == Combined(runs)
  {
    if |runs| != REPETITIONS { return None; }
    var combined := Throughput("", "", "", "", 0, 0, [], []);
    var telemetry: seq<Telemetry> := [];
    var i := 0;
    while i < |runs|
      invariant 0 <= i <= |runs|
      invariant forall k :: 0 <= k < i ==>
        Complete(runs[k].throughput, runs[k].telemetry) && Named(runs[k].throughput)
        && SameMetadata(runs[k].throughput, runs[0].throughput)
      invariant telemetry == Telemetries(runs[..i])
      invariant i == 0 ==> combined.promptTps == [] && combined.generationTps == []
      invariant i > 0 ==> combined == CombinedThroughput(runs, i)
    {
      var current := runs[i].throughput;
      if !Complete(current, runs[i].telemetry) || !Named(current) { return None; }
      if i == 0 {
        combined := current.(promptTps := [], generationTps := []);
      } else if !SameMetadata(current, combined) {
        return None;
      }
      combined := combined.(promptTps := combined.promptTps + [current.promptTps[0]],
                            generationTps := combined.generationTps + [current.generationTps[0]]);
      telemetry := telemetry + [runs[i].telemetry];
      i := i + 1;
    }
    assert runs[..|runs|] == runs;
    return Some((combined, telemetry));
  }

  predicate AssembleAccepts(collectedAt: int, condition: string, x: Throughput, ts: seq<Telemetry>) {
    && !IsZero(collectedAt) && !Blank(condition)
    && x.promptTokens > 0 && x.generatedTokens > 0
    && |x.promptTps| == |x.generationTps| == |ts| == REPETITIONS
    && !Blank(x.modelFilename) && !Blank(x.runtimeVersion)
    && forall i :: 0 <= i < REPETITIONS ==>
         x.promptTps[i] > 0.0 && x.generationTps[i] > 0.0 && ts[i].timeToFirstToken > 0 && ts[i].peakSystemRam != 0
  }

  function AssembledSample(x: Throughput, ts: seq<Telemetry>, i: nat): Sample
    requires |x.promptTps| == |x.generationTps| == |ts| && i < |ts|
  {
    SuccessfulSample(i + 1, x.(promptTps := [x.promptTps[i]], generationTps := [x.generationTps[i]]), ts[i])
  }

  function Assembled(collectedAt: int, condition: string, quantization: string, x: Throughput, ts: seq<Telemetry>)
    : Option<Benchmark>
  {
    if !AssembleAccepts(collectedAt, condition, x, ts) then None
    else Some(Header(collectedAt, condition, Trim(x.runtimeVersion), Base(Trim(x.modelFilename)), quantization,
                     seq(REPETITIONS, i requires 0 <= i < REPETITIONS => AssembledSample(x, ts, i))))
  }

  method AssembleComputeBenchmark(collectedAt: int, condition: string, quantization: string,
                                  x: Throughput, ts: seq<Telemetry>) returns (r: Option<Benchmark>)
    ensures r == Assembled(collectedAt, condition, quantization, x, ts)
  {
    if IsZero(collectedAt) || Blank(condition) || x.promptTokens <= 0 || x.generatedTokens <= 0 { return None; }
    var runCount := |x.promptTps|;
    if runCount == 0 || |x.generationTps| != runCount || |ts| != runCount || runCount != REPETITIONS { return None; }
    var model, runtimeVersion := Trim(x.modelFilename), Trim(x.runtimeVersion);
    if model == "" || runtimeVersion == "" { return None; }
    var samples: seq<Sample> := [];
    var i := 0;
    while i < runCount
      invariant 0 <= i <= runCount
      invariant forall k :: 0 <= k < i ==>
        x.promptTps[k] > 0.0 && x.generationTps[k] > 0.0 && ts[k].timeToFirstToken > 0 && ts[k].peakSystemRam != 0
      invariant samples == seq(i, k requires 0 <= k < i => AssembledSample(x, ts, k))
    {
      if x.promptTps[i] <= 0.0 || x.generationTps[i] <= 0.0 { return None; }
      if ts[i].timeToFirstToken <= 0 || ts[i].peakSystemRam == 0 { return None; }
      samples := samples + [Sample(i + 1, x.promptTokens, x.generatedTokens, x.promptTps[i], x.generationTps[i],
                                   Milliseconds(ts[i].timeToFirstToken), ts[i].peakSystemRam, ts[i].peakVram,
                                   ts[i].temperature, ts[i].throttled, true, "")];
      i := i + 1;
    }
    return Some(Header(collectedAt, condition, runtimeVersion, Base(model), quantization, samples));
  }

  // ---------------------------------------------------------------------
  // The two paths agree
  // ---------------------------------------------------------------------

  predicate ErrorFree(runs: seq<Measurement>) {
    forall i :: 0 <= i < |runs| ==> Succeeded(runs[i])
  }

  lemma {:induction false} ReferenceIsFirst(runs: seq<Measurement>)
    requires runs != [] && Succeeded(runs[0])
    ensures Reference(runs) == Some(runs[0].throughput)
  {
    if |runs| > 1 {
      ReferenceIsFirst(runs[..|runs| - 1]);
    } else {
      assert runs[..0] == [];
    }
  }

  lemma BlankIfEmpty(s: string)
    requires !Blank(s)
    ensures s != ""
  {
  }

  lemma FinalizedMeansCombinable(input: FinalizeInput)
    requires Finalized(input).Some? && ErrorFree(input.runs)
    ensures CombineAccepts(input.runs) && Reference(input.runs) == Some(input.runs[0].throughput)
    ensures forall i :: 0 <= i < REPETITIONS ==> Described(input.runs[i].throughput)
  {
    hide ThroughputSamplesValid, Reference, Blank, SameMetadata;
    var runs := input.runs;
    ReferenceIsFirst(runs);
    forall i | 0 <= i < |runs|
      ensures Complete(runs[i].throughput, runs[i].telemetry) && Named(runs[i].throughput)
      ensures Described(runs[i].throughput)
    {
      assert RunAccepted(runs[i], ModelName(input)) && Succeeded(runs[i]);
      BlankIfEmpty(runs[i].throughput.runtimeVersion);
      BlankIfEmpty(runs[i].throughput.modelFilename);
      BlankIfEmpty(runs[i].throughput.modelType);
      BlankIfEmpty(runs[i].throughput.backend);
    }
  }

  /** The second path applied to the runs of a finalize input. */
  function SecondPath(input: FinalizeInput): Option<Benchmark> {
    match Combined(input.runs)
    case None => None
    case Some((x, ts)) => Assembled(input.collectedAt, input.condition, input.quantization, x, ts)
  }

  lemma SecondPathSamples(runs: seq<Measurement>, modelName: string)
    requires CombineAccepts(runs) && ErrorFree(runs) && forall i :: 0 <= i < |runs| ==> RunAccepted(runs[i], modelName)
    ensures var x, ts := CombinedThroughput(runs, REPETITIONS), Telemetries(runs);
            seq(REPETITIONS, i requires 0 <= i < REPETITIONS => AssembledSample(x, ts, i)) == Samples(runs)
  {
    hide Blank, RunAccepted;
    var x, ts := CombinedThroughput(runs, REPETITIONS), Telemetries(runs);
    forall i | 0 <= i < REPETITIONS
      ensures AssembledSample(x, ts, i) == SampleOf(i + 1, runs[i])
    {
      assert Complete(runs[i].throughput, runs[i].telemetry);
      assert SameMetadata(runs[i].throughput, runs[0].throughput) && Succeeded(runs[i]);
    }
  }

  lemma SecondPathAccepts(input: FinalizeInput)
    requires Finalized(input).Some? && ErrorFree(input.runs)
    ensures CombineAccepts(input.runs)
    ensures AssembleAccepts(input.collectedAt, input.condition, CombinedThroughput(input.runs, REPETITIONS),
                            Telemetries(input.runs))
  {
    FinalizedMeansCombinable(input);
    var runs := input.runs;
    forall i | 0 <= i < REPETITIONS
      ensures runs[i].throughput.promptTps[0] > 0.0 && runs[i].throughput.generationTps[0] > 0.0
    {
      assert Complete(runs[i].throughput, runs[i].telemetry);
    }
  }

  /** What finalize asks of error-free runs beyond what combine and assemble ask. */
  predicate StricterChecks(input: FinalizeInput) {
    && HeaderPresent(input)
    && forall i :: 0 <= i < |input.runs| ==>
         Described(input.runs[i].throughput) && Base(input.runs[i].throughput.modelFilename) == ModelName(input)
  }

  lemma SecondPathFinalizes(input: FinalizeInput)
    requires ErrorFree(input.runs) && CombineAccepts(input.runs) && StricterChecks(input)
    ensures Finalized(input).Some?
  {
    hide ThroughputSamplesValid, Reference, Blank, Described;
    var runs := input.runs;
    ReferenceIsFirst(runs);
    forall i | 0 <= i < |runs| ensures RunAccepted(runs[i], ModelName(input)) {
      assert Succeeded(runs[i]) && Complete(runs[i].throughput, runs[i].telemetry);
    }
  }

  /**
   Two implementations: on error-free runs finalize accepts exactly when combine followed by
   assemble does and finalize's stricter checks hold; and then both build the identical
   benchmark exactly when the runtime version carries no surrounding spaces and trimming the
   model file name does not rename it.
   */
  lemma PathsAgree(input: FinalizeInput)
    requires ErrorFree(input.runs)
    ensures Finalized(input).Some? <==> SecondPath(input).Some? && StricterChecks(input)
    ensures Finalized(input).Some? ==>
            var x := input.runs[0].throughput;
            (SecondPath(input) == Finalized(input)
             <==> Trim(x.runtimeVersion) == x.runtimeVersion && Base(Trim(x.modelFilename)) == Base(x.modelFilename))
  {
    hide Finalized, AssembleAccepts, Header, StricterChecks;
    if Finalized(input).Some? {
      FinalizedAgrees(input);
      FinalizedIsStricter(input);
    }
    if SecondPath(input).Some? && StricterChecks(input) { SecondPathFinalizes(input); }
  }

  lemma FinalizedIsStricter(input: FinalizeInput)
    requires Finalized(input).Some? && ErrorFree(input.runs)
    ensures StricterChecks(input)
  {
    hide Blank, Base, Complete, Consistent;
    forall i | 0 <= i < |input.runs|
      ensures Described(input.runs[i].throughput)
      ensures Base(input.runs[i].throughput.modelFilename) == ModelName(input)
    {
      assert RunAccepted(input.runs[i], ModelName(input)) && Succeeded(input.runs[i]);
    }
  }

  lemma FinalizedAgrees(input: FinalizeInput)
    requires Finalized(input).Some? && ErrorFree(input.runs)
    ensures SecondPath(input).Some? && |input.runs| == REPETITIONS
    ensures var x := input.runs[0].throughput;
            SecondPath(input) == Finalized(input)
            <==> Trim(x.runtimeVersion) == x.runtimeVersion && Base(Trim(x.modelFilename)) == Base(x.modelFilename)
  {
    hide Blank, Trim, Base, ThroughputSamplesValid, AssembleAccepts, Samples;
    FinalizedMeansCombinable(input);
    SecondPathAccepts(input);
    SecondPathSamples(input.runs, ModelName(input));
    assert RunAccepted(input.runs[0], ModelName(input)) && Succeeded(input.runs[0]);
  }

  lemma ShortTexts()
    ensures Trim("m") == "m" && Base("m") == "m" && !Blank("m")
    ensures Trim(" m") == "m" && !Blank(" m") && Blank("")
  {
    TrimOfTight("m");
    assert StripSlashes("m") == "m" && AfterSlash("m") == "m" by { assert "m"[..0] == ""; }
    assert " m"[1..] == "m";
    assert TrimLeft(" m") == TrimLeft("m") == "m";
  }

  /** The paths do differ: five clean runs whose runtime version starts with a space. */
  lemma PathsDifferExample() returns (input: FinalizeInput)
    ensures Finalized(input).Some? && ErrorFree(input.runs)
    ensures SecondPath(input).Some? && SecondPath(input) != Finalized(input)
  {
    hide Trim, Base, Blank;
    ShortTexts();
    var run := Measurement(Throughput(" m", "m", "m", "m", PROMPT_TOKENS, GENERATED_TOKENS, [1.0], [1.0]),
                           Telemetry(1, 1, None, None, None), "");
    input := FinalizeInput(1, "m", "m", "m", seq(REPETITIONS, _ => run));
    assert RunAccepted(run, "m") && Succeeded(run);
    ReferenceIsFirst(input.runs);
    PathsAgree(input);
  }

  // ---------------------------------------------------------------------
  // Orchestration
  // ---------------------------------------------------------------------

  /** What the two collectors do in one repetition, and when the context is found cancelled. */
  datatype Attempt = Attempt(
    throughput: Throughput,
    telemetry: Telemetry,
    throughputError: Option<string>,
    ttft: int,
    ttftError: Option<string>,
    cancelledBefore: bool,
    cancelledDuring: bool,
    cancelledAfter: bool)

  predicate Cancelled(a: Attempt) {
    a.cancelledBefore || a.cancelledDuring || a.cancelledAfter
  }

  function Labelled(label': string, text: string, fallback: string): string {
    label' + (if Trim(text) == "" then fallback else Trim(text))
  }

  /** computeBenchmarkRunFailure joins what failed with "; ". */
  method ComputeBenchmarkRunFailure(throughputError: Option<string>, ttftError: Option<string>) returns (text: string)
    ensures text == RunFailure(throughputError, ttftError)
  {
    var failures: seq<string> := [];
    if throughputError.Some? {
      failures := failures + [Labelled("throughput: ", throughputError.value, "unknown throughput error")];
    }
    if ttftError.Some? {
      failures := failures + [Labelled("ttft: ", ttftError.value, "unknown TTFT error")];
    }
    if |failures| == 0 { return ""; }
    if |failures| == 1 { return failures[0]; }
    return failures[0] + "; " + failures[1];
  }

  function RunFailure(throughputError: Option<string>, ttftError: Option<string>): string {
    match (throughputError, ttftError)
    case (None, None) => ""
    case (Some(e), None) => Labelled("throughput: ", e, "unknown throughput error")
    case (None, Some(f)) => Labelled("ttft: ", f, "unknown TTFT error")
    case (Some(e), Some(f)) =>
      Labelled("throughput: ", e, "unknown throughput error") + "; " + Labelled("ttft: ", f, "unknown TTFT error")
  }

  /** The failure text is blank exactly when both collectors returned no error, even for blank error texts. */
  lemma FailureBlankIffNone(throughputError: Option<string>, ttftError: Option<string>)
    ensures Blank(RunFailure(throughputError, ttftError)) <==> throughputError.None? && ttftError.None?
  {
    var text := RunFailure(throughputError, ttftError);
    if throughputError.Some? || ttftError.Some? {
      assert text[0] == 't';
      StartsSolid(text);
    } else {
      assert Blank("");
    }
  }

  function MeasurementOf(a: Attempt): Measurement {
    Measurement(a.throughput, if a.ttft > 0 then a.telemetry.(timeToFirstToken := a.ttft) else a.telemetry,
                RunFailure(a.throughputError, a.ttftError))
  }

  function Measurements(attempts: seq<Attempt>): seq<Measurement> {
    seq(|attempts|, i requires 0 <= i < |attempts| => MeasurementOf(attempts[i]))
  }

  /** The orchestrator's input, and the collectors' behaviour in each of the five repetitions. */
  function Orchestrated(collectedAt: int, condition: string, quantization: string, modelPath: string,
                        attempts: seq<Attempt>): Option<Benchmark>
    requires |attempts| == REPETITIONS
  {
    if exists i :: 0 <= i < REPETITIONS && Cancelled(attempts[i]) then None
    else Finalized(FinalizeInput(collectedAt, condition, quantization, modelPath, Measurements(attempts)))
  }

  method OrchestrateComputeBenchmarkRuns(collectedAt: int, condition: string, quantization: string, modelPath: string,
                                         attempts: seq<Attempt>) returns (result: Option<Benchmark>)
    requires |attempts| == REPETITIONS
    ensures result == Orchestrated(collectedAt, condition, quantization, modelPath, attempts)
  {
    hide Finalized, RunFailure;
    var runs := new Measurement[REPETITIONS];
    var i := 0;
    while i < REPETITIONS
      invariant 0 <= i <= REPETITIONS && runs.Length == REPETITIONS
      invariant forall k :: 0 <= k < i ==> !Cancelled(attempts[k]) && runs[k] == MeasurementOf(attempts[k])
    {
      var a := attempts[i];
      if a.cancelledBefore { return None; }
      var throughput, telemetry, throughputError := a.throughput, a.telemetry, a.throughputError;
      if a.cancelledDuring { return None; }
      var ttft, ttftError := a.ttft, a.ttftError;
      if a.cancelledAfter { return None; }
      if ttft > 0 { telemetry := telemetry.(timeToFirstToken := ttft); }
      var failure := ComputeBenchmarkRunFailure(throughputError, ttftError);
      runs[i] := Measurement(throughput, telemetry, failure);
      i := i + 1;
    }
    assert runs[..] == Measurements(attempts);
    result := FinalizeComputeBenchmarkRuns(FinalizeInput(collectedAt, condition, quantization, modelPath, runs[..]));
  }

  /**
   For every behaviour of the collectors: the orchestration errors, or it yields exactly five
   samples numbered 1 to 5, and sample i is successful exactly when both of its collectors
   returned no error.
   */
  lemma OrchestratedShape(collectedAt: int, condition: string, quantization: string, modelPath: string,
                          attempts: seq<Attempt>)
    requires |attempts| == REPETITIONS
    requires Orchestrated(collectedAt, condition, quantization, modelPath, attempts).Some?
    ensures var b := Orchestrated(collectedAt, condition, quantization, modelPath, attempts).value;
            && |b.samples| == REPETITIONS
            && forall i :: 0 <= i < REPETITIONS ==>
                 && b.samples[i].run == i + 1
                 && (b.samples[i].success <==> attempts[i].throughputError.None? && attempts[i].ttftError.None?)
                 && (SampleAccepted(b.samples[i]) <==> TemperatureAccepted(b.samples[i]))
  {
    hide Finalized, SampleAccepted, RunFailure, Blank, Labelled;
    var input := FinalizeInput(collectedAt, condition, quantization, modelPath, Measurements(attempts));
    FinalizedShape(input);
    forall i | 0 <= i < REPETITIONS
      ensures Succeeded(input.runs[i]) <==> attempts[i].throughputError.None? && attempts[i].ttftError.None?
    {
      FailureBlankIffNone(attempts[i].throughputError, attempts[i].ttftError);
    }
  }
}
