/** The benchmark payload exchanged between agent and control server. */
module Protocol {
  import opened Prelude

  const SCHEMA_VERSION := "m9-v1"
  const SUBMISSION_VERSION := "m9-v1"

  /** Optional measurements are Go pointers; `float64` values are reals. */
  datatype Sample = Sample(
    run: int,
    promptTokens: int,
    generatedTokens: int,
    promptTps: real,
    generationTps: real,
    ttftMs: real,
    peakSystemRam: nat,
    peakVram: Option<nat>,
    temperature: Option<real>,
    throttled: Option<bool>,
    success: bool,
    error: string)

  datatype Benchmark = Benchmark(
    schemaVersion: string,
    collectedAt: int,
    workloadId: string,
    condition: string,
    runtime: string,
    runtimeVersion: string,
    model: string,
    quantization: string,
    contextSize: int,
    samples: seq<Sample>)

  datatype Submission = Submission(
    version: string,
    nodeId: string,
    reportId: string,
    signedAt: int,
    benchmark: Benchmark)
}
