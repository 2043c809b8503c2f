/**
 What the benchmark pipeline answers: which inputs each stage accepts, and that every sample
 of a payload carries the measurements of its own run, field by field.
 */
module PipelineAnswers {
  import opened Prelude
  import opened GoTime
  import opened Text
  import opened Protocol
  import opened Validation
  import opened Pipeline

  // ---------------------------------------------------------------------
  // What a sample carries
  // ---------------------------------------------------------------------

  /** The sample reports these measurements of run `n`, in these fields. */
  ghost predicate CarriesMeasured(s: Sample, n: int, x: Throughput, t: Telemetry) {
    && s.run == n && s.success && s.error == ""
    && s.promptTokens == x.promptTokens && s.generatedTokens == x.generatedTokens
    && |x.promptTps| == 1 && s.promptTps == x.promptTps[0]
    && |x.generationTps| == 1 && s.generationTps == x.generationTps[0]
    && CarriesTelemetry(s, t, t.timeToFirstToken)
  }

  /** Milliseconds are nanoseconds over a million. */
  ghost predicate CarriesTelemetry(s: Sample, t: Telemetry, ttft: int) {
    && s.ttftMs * 1000000.0 == ttft as real
    && s.peakSystemRam == t.peakSystemRam && s.peakVram == t.peakVram
    && s.temperature == t.temperature && s.throttled == t.throttled
  }

  /** A failed run reports the standard workload, no rates, its telemetry and its error. */
  ghost predicate CarriesFailure(s: Sample, n: int, t: Telemetry, ttft: int, error: string) {
    && s.run == n && !s.success && s.error == error
    && s.promptTokens == 512 && s.generatedTokens == 128 && s.promptTps == 0.0 && s.generationTps == 0.0
    && CarriesTelemetry(s, t, ttft)
  }

  ghost predicate CarriesRun(s: Sample, n: int, m: Measurement) {
    if Trim(m.error) == "" then CarriesMeasured(s, n, m.throughput, m.telemetry)
    else CarriesFailure(s, n, m.telemetry, m.telemetry.timeToFirstToken, Trim(m.error))
  }

  ghost predicate CarriesHeader(b: Benchmark, collectedAt: int, condition: string, quantization: string) {
    && b.schemaVersion == "m9-v1" && b.workloadId == "m9-standard-v1" && b.runtime == "llama.cpp"
    && b.contextSize == 4096 && b.collectedAt == collectedAt
    && b.condition == Trim(condition) && b.quantization == Trim(quantization)
  }

  lemma MillisecondsTimes(d: int)
    ensures Milliseconds(d) * 1000000.0 == d as real
  {
  }

  lemma SampleCarries(n: nat, m: Measurement, modelName: string)
    requires RunAccepted(m, modelName)
    ensures CarriesRun(SampleOf(n, m), n, m)
  {
    hide Trim;
    MillisecondsTimes(m.telemetry.timeToFirstToken);
  }

  /** The runtime version is that of the first successful run. */
  lemma {:induction false} ReferenceIsFirstSuccess(runs: seq<Measurement>, i: nat)
    requires i < |runs| && Succeeded(runs[i]) && forall k :: 0 <= k < i ==> !Succeeded(runs[k])
    ensures Reference(runs) == Some(runs[i].throughput)
  {
    hide Succeeded;
    if i == |runs| - 1 {
      NoReference(runs[..i]);
    } else {
      ReferenceIsFirstSuccess(runs[..|runs| - 1], i);
    }
  }

  lemma {:induction false} NoReference(runs: seq<Measurement>)
    requires forall k :: 0 <= k < |runs| ==> !Succeeded(runs[k])
    ensures Reference(runs) == None
  {
    hide Succeeded;
    if runs != [] { NoReference(runs[..|runs| - 1]); }
  }

  ghost predicate AllFailed(runs: seq<Measurement>) {
    forall k :: 0 <= k < |runs| ==> Trim(runs[k].error) != ""
  }

  /** A finalized payload carries its input, sample by sample and field by field. */
  lemma FinalizedCarries(input: FinalizeInput)
    requires Finalized(input).Some?
    ensures var b := Finalized(input).value;
            && CarriesHeader(b, input.collectedAt, input.condition, input.quantization)
            && b.model == Base(Trim(input.modelPath))
            && |b.samples| == |input.runs| == 5
            && (forall i :: 0 <= i < 5 ==> CarriesRun(b.samples[i], i + 1, input.runs[i]))
            && (forall i :: 0 <= i < 5 && Trim(input.runs[i].error) == "" && AllFailed(input.runs[..i]) ==>
                  b.runtimeVersion == input.runs[i].throughput.runtimeVersion)
            && (AllFailed(input.runs) ==> b.runtimeVersion == "")
  {
    hide RunAccepted, SampleOf, Reference, Trim, Base, Consistent, CarriesRun;
    var runs := input.runs;
    forall i | 0 <= i < 5 ensures CarriesRun(SampleOf(i + 1, runs[i]), i + 1, runs[i]) {
      SampleCarries(i + 1, runs[i], ModelName(input));
    }
    forall i | 0 <= i < 5 && Trim(runs[i].error) == "" && AllFailed(runs[..i])
      ensures Reference(runs) == Some(runs[i].throughput)
    {
      assert forall k :: 0 <= k < i ==> runs[k] == runs[..i][k];
      ReferenceIsFirstSuccess(runs, i);
    }
    if AllFailed(runs) { NoReference(runs); }
  }

  /** Combine then assemble carries the same measurements into the same fields. */
  lemma SecondPathCarries(input: FinalizeInput)
    requires SecondPath(input).Some?
    ensures var b := SecondPath(input).value;
            && CarriesHeader(b, input.collectedAt, input.condition, input.quantization)
            && |b.samples| == |input.runs| == 5
            && b.runtimeVersion == Trim(input.runs[0].throughput.runtimeVersion)
            && b.model == Base(Trim(input.runs[0].throughput.modelFilename))
            && forall i :: 0 <= i < 5 ==>
                 CarriesMeasured(b.samples[i], i + 1, input.runs[i].throughput, input.runs[i].telemetry)
  {
    hide Trim, Base, AssembleAccepts, ThroughputSamplesValid;
    var runs := input.runs;
    forall i | 0 <= i < 5
      ensures CarriesMeasured(SecondPath(input).value.samples[i], i + 1, runs[i].throughput, runs[i].telemetry)
    {
      assert Complete(runs[i].throughput, runs[i].telemetry) && SameMetadata(runs[i].throughput, runs[0].throughput);
      MillisecondsTimes(runs[i].telemetry.timeToFirstToken);
    }
  }

  // ---------------------------------------------------------------------
  // Which inputs are accepted
  // ---------------------------------------------------------------------

  /** One positive rate of each kind, tokens, a time to the first token and memory. */
  ghost predicate Measured(x: Throughput, t: Telemetry) {
    && |x.promptTps| == 1 && x.promptTps[0] > 0.0 && |x.generationTps| == 1 && x.generationTps[0] > 0.0
    && x.promptTokens > 0 && x.generatedTokens > 0 && t.timeToFirstToken > 0 && t.peakSystemRam > 0
  }

  ghost predicate SameRuntime(a: Throughput, b: Throughput) {
    && a.runtimeVersion == b.runtimeVersion && a.modelFilename == b.modelFilename && a.modelType == b.modelType
    && a.backend == b.backend && a.promptTokens == b.promptTokens && a.generatedTokens == b.generatedTokens
  }

  ghost predicate FinalizableRun(m: Measurement, model: string) {
    if Trim(m.error) != "" then ByteLen(Trim(m.error)) <= 1024 && m.telemetry.timeToFirstToken >= 0
    else
      && Measured(m.throughput, m.telemetry)
      && Trim(m.throughput.runtimeVersion) != "" && Trim(m.throughput.modelFilename) != ""
      && Trim(m.throughput.modelType) != "" && Trim(m.throughput.backend) != ""
      && Base(m.throughput.modelFilename) == model
  }

  /** Any two successful runs report the same runtime. */
  ghost predicate OneRuntime(runs: seq<Measurement>) {
    forall i, j :: 0 <= i < j < |runs| && Trim(runs[i].error) == "" && Trim(runs[j].error) == "" ==>
      SameRuntime(runs[i].throughput, runs[j].throughput)
  }

  /** Finalize accepts exactly five runs, each fine by itself, the successful ones pairwise of one runtime. */
  lemma FinalizeAcceptsIff(input: FinalizeInput)
    ensures Finalized(input).Some? <==>
              && input.collectedAt != 0 && Trim(input.condition) != "" && Trim(input.modelPath) != ""
              && Base(Trim(input.modelPath)) !in {"", ".", "/"} && |input.runs| == 5
              && (forall i :: 0 <= i < 5 ==> FinalizableRun(input.runs[i], Base(Trim(input.modelPath))))
              && OneRuntime(input.runs)
  {
    hide Trim, Base, ByteLen, Reference, RunAccepted, FinalizableRun, OneRuntime, Consistent;
    forall m: Measurement, model: string ensures RunAccepted(m, model) <==> FinalizableRun(m, model) {
      RunAcceptedIff(m, model);
    }
    if |input.runs| == 5 { ConsistentIff(input.runs); }
  }

  lemma RunAcceptedIff(m: Measurement, model: string)
    ensures RunAccepted(m, model) <==> FinalizableRun(m, model)
  {
    hide Trim, Base, ByteLen;
  }

  lemma ConsistentIff(runs: seq<Measurement>)
    ensures Consistent(runs) <==> OneRuntime(runs)
  {
    hide Trim, Reference;
    if k :| 0 <= k < |runs| && Trim(runs[k].error) == "" {
      var i := FirstSuccess(runs, k);
      ReferenceIsFirstSuccess(runs, i);
    }
  }

  lemma {:induction false} FirstSuccess(runs: seq<Measurement>, k: nat) returns (i: nat)
    requires k < |runs| && Trim(runs[k].error) == ""
    ensures i <= k && Trim(runs[i].error) == "" && forall j :: 0 <= j < i ==> Trim(runs[j].error) != ""
    decreases k
  {
    hide Trim;
    if j :| 0 <= j < k && Trim(runs[j].error) == "" { i := FirstSuccess(runs, j); } else { i := k; }
  }

  /** Combine then assemble accepts exactly five complete runs of one runtime with the names it needs. */
  lemma SecondPathAcceptsIff(input: FinalizeInput)
    ensures SecondPath(input).Some? <==>
              && input.collectedAt != 0 && Trim(input.condition) != "" && |input.runs| == 5
              && Trim(input.runs[0].throughput.modelFilename) != ""
              && Trim(input.runs[0].throughput.runtimeVersion) != ""
              && (forall i :: 0 <= i < 5 ==>
                    && Measured(input.runs[i].throughput, input.runs[i].telemetry)
                    && input.runs[i].throughput.modelType != "" && input.runs[i].throughput.backend != ""
                    && SameRuntime(input.runs[i].throughput, input.runs[0].throughput))
  {
    hide Trim, Base;
    var runs := input.runs;
    if |runs| == 5 {
      EmptyTrims();
      forall i | 0 <= i < 5
        ensures Complete(runs[i].throughput, runs[i].telemetry) <==> Measured(runs[i].throughput, runs[i].telemetry)
      {
      }
    }
  }

  lemma EmptyTrims()
    ensures Trim("") == ""
  {
  }

  // ---------------------------------------------------------------------
  // Orchestration
  // ---------------------------------------------------------------------

  /** The text for a failed collector, with a stand-in for a blank error. */
  function Reported(text: string, fallback: string): string {
    if Trim(text) == "" then fallback else Trim(text)
  }

  /** The error a sample reports for the errors of its two collectors. */
  function SampleError(throughputError: Option<string>, ttftError: Option<string>): string {
    (if throughputError.Some? then "throughput: " + Reported(throughputError.value, "unknown throughput error") else "")
    + (if throughputError.Some? && ttftError.Some? then "; " else "")
    + (if ttftError.Some? then "ttft: " + Reported(ttftError.value, "unknown TTFT error") else "")
  }

  /** A positive measurement of the TTFT collector replaces the one of the telemetry. */
  function MeasuredTtft(a: Attempt): int {
    if a.ttft > 0 then a.ttft else a.telemetry.timeToFirstToken
  }

  ghost predicate CarriesAttempt(s: Sample, n: int, a: Attempt) {
    if a.throughputError.None? && a.ttftError.None?
    then CarriesMeasured(s, n, a.throughput, a.telemetry.(timeToFirstToken := MeasuredTtft(a)))
    else CarriesFailure(s, n, a.telemetry, MeasuredTtft(a), SampleError(a.throughputError, a.ttftError))
  }

  lemma SolidEnds(s: string, t: string)
    requires s != "" && !IsSpace(s[0]) && t != "" && !IsSpace(t[|t| - 1])
    ensures Trim(s + t) == s + t
  {
    TrimOfTight(s + t);
  }

  lemma ReportedIsSolid(text: string, fallback: string)
    requires fallback != "" && !IsSpace(fallback[|fallback| - 1])
    ensures Reported(text, fallback) != "" && !IsSpace(Reported(text, fallback)[|Reported(text, fallback)| - 1])
  {
    TrimLeftStarts(text);
    if TrimLeft(text) != "" { TrimRightKeepsStart(TrimLeft(text)); }
  }

  /** The joined failure text needs no trimming. */
  lemma FailureIsTight(throughputError: Option<string>, ttftError: Option<string>)
    ensures RunFailure(throughputError, ttftError) == SampleError(throughputError, ttftError)
    ensures Trim(RunFailure(throughputError, ttftError)) == RunFailure(throughputError, ttftError)
  {
    hide Trim;
    if throughputError.Some? {
      var x := Reported(throughputError.value, "unknown throughput error");
      ReportedIsSolid(throughputError.value, "unknown throughput error");
      SolidEnds("throughput: ", x);
      if ttftError.Some? {
        var y := Reported(ttftError.value, "unknown TTFT error");
        ReportedIsSolid(ttftError.value, "unknown TTFT error");
        SolidEnds("throughput: " + x + "; " + "ttft: ", y);
        assert "throughput: " + x + "; " + "ttft: " + y == "throughput: " + x + "; " + ("ttft: " + y);
      }
    } else if ttftError.Some? {
      ReportedIsSolid(ttftError.value, "unknown TTFT error");
      SolidEnds("ttft: ", Reported(ttftError.value, "unknown TTFT error"));
    } else {
      EmptyTrims();
    }
  }

  lemma AttemptCarries(s: Sample, n: int, a: Attempt)
    requires CarriesRun(s, n, MeasurementOf(a))
    ensures CarriesAttempt(s, n, a)
  {
    hide Trim, RunFailure, SampleError;
    FailureIsTight(a.throughputError, a.ttftError);
    FailureBlankIffNone(a.throughputError, a.ttftError);
  }

  /**
   Orchestration fails on any cancellation and otherwise finalizes the five attempts; a payload
   carries each attempt, field by field, with the collectors' errors in the failed ones.
   */
  lemma OrchestratedCarries(collectedAt: int, condition: string, quantization: string, modelPath: string,
                            attempts: seq<Attempt>)
    requires |attempts| == 5
    ensures (exists i :: 0 <= i < 5 &&
               (attempts[i].cancelledBefore || attempts[i].cancelledDuring || attempts[i].cancelledAfter)) ==>
            Orchestrated(collectedAt, condition, quantization, modelPath, attempts).None?
    ensures (forall i :: 0 <= i < 5 ==>
               !(attempts[i].cancelledBefore || attempts[i].cancelledDuring || attempts[i].cancelledAfter)) ==>
            Orchestrated(collectedAt, condition, quantization, modelPath, attempts) ==
            Finalized(FinalizeInput(collectedAt, condition, quantization, modelPath, Measurements(attempts)))
    ensures Orchestrated(collectedAt, condition, quantization, modelPath, attempts).Some? ==>
            var b := Orchestrated(collectedAt, condition, quantization, modelPath, attempts).value;
            && CarriesHeader(b, collectedAt, condition, quantization) && b.model == Base(Trim(modelPath))
            && |b.samples| == 5 && forall i :: 0 <= i < 5 ==> CarriesAttempt(b.samples[i], i + 1, attempts[i])
  {
    hide Finalized, Trim, Base, CarriesRun, CarriesAttempt, CarriesHeader;
    var input := FinalizeInput(collectedAt, condition, quantization, modelPath, Measurements(attempts));
    var r := Orchestrated(collectedAt, condition, quantization, modelPath, attempts);
    if r.Some? {
      FinalizedCarries(input);
      forall i | 0 <= i < 5 ensures CarriesAttempt(r.value.samples[i], i + 1, attempts[i]) {
        AttemptCarries(r.value.samples[i], i + 1, attempts[i]);
      }
    }
  }
}
