# MeshAlot verification

MeshAlot rents out home computers for AI inference: a control server, an agent on every node and a
PostgreSQL schema. This project models its six stateful cores in Dafny and proves what holds of
them over every run and every input.

- `Ledger.dfy`, `LedgerAnswers.dfy`: jobs, audit events, usage records and wallet rows behind the
  triggers of migration 2, as a class whose methods perform single statements and as a
  specification over runs of statements; and what every statement is answered.
- `Enrollment.dfy`, `EnrollmentTransactions.dfy`, `EnrollmentAnswers.dfy`, `CodeCap.dfy`,
  `RateLimiter.dfy`: one-time codes, redemption, the legacy enroll path and heartbeats, first
  alone, then interleaved statement by statement under READ COMMITTED with row locks; the cap on
  live codes; the fixed-window limiter.
- `Uuid.dfy`: the version-4 UUID printer and checker (section 5.4 of RFC 9562).
- `Protocol.dfy`, `Text.dfy`, `GoTime.dfy`, `Validation.dfy`, `Pipeline.dfy`,
  `PipelineAnswers.dfy`: benchmark payloads, the agent's five-repetition pipeline and the server's
  validator.
- `RealFacts.dfy`, `OrderStatistics.dfy`, `Variation.dfy`, `Scores.dfy`, `StatisticsAnswers.dfy`,
  `ScoresAnswers.dfy`: medians, percentiles, variation and the two scores.
- `Submissions.dfy`: signed submission over an unreliable network, on top of the enrollment system
  that pins the keys.
- `MigrationText.dfy`, `Migrations.dfy`, `MigrationContainment.dfy`, `MigrationHistory.dfy`,
  `MigrationAnswers.dfy`: the tracked migration runner: the text of its files, its psql session
  statement by statement, what a body may do to the transaction around it, and the history over
  every sequence of runs.
- `BenchmarkServer.dfy`: the life of a llama-server process and the Linux and Darwin sessions
  around it.

How the source is read:

- A run is any sequence of actions or events; one that cannot happen in a state, or must wait for
  a lock, leaves the state unchanged. Code that updates tables or slices step by step is a method
  or class proved against a specification function; interleaved code is a state machine, because
  its steps belong to different processes.
- Floats are reals and square roots any function with the defining property. Products and
  quotients go through `Times` and `Over`, whose facts are proved once in `RealFacts.dfy`.
- Instants are nanoseconds since the zero `time.Time`. `Time.Sub` saturates and negating the
  smallest duration wraps, as in Go.
- `now()` is fixed for a transaction when it begins. Database clocks never step back.
- Ed25519, SHA-256, UTF-8 and JSON decoding, HTTP, the split of a migration body into statements
  and the effect of an SQL statement on the schema are arbitrary functions or inputs. Where hashes
  must tell contents apart, the theorem asks that no two of the files that occur collide.

Where the code differs from what one would expect of it:

- The audit log cannot be forged by updates, but nothing stops a hand-written INSERT with an audit
  event type; the log is trustworthy exactly without such rows.
- Issuing a code counts and inserts in separate statements; the cap of five live codes holds
  exactly when a user's issuances do not overlap.
- The 120-per-window limiter lets through up to 239 calls in a sliding minute, and only as long as
  no window is reset early. The handler reads the clock before it takes the lock and drops the
  monotonic reading, so a call can carry an earlier instant than the open window and reset it;
  with d such resets 239 * (1 + d) calls fit into one minute.
- A timestamp about 292 years ahead saturates the skew computation and passes it; a stored report
  is fresh exactly when no skew saturates.
- Finalize and combine-then-assemble differ exactly when the runtime version or the model file
  name carries surrounding spaces that trimming would change.
- The comment on the Darwin orchestration promises never to hold two model processes on purpose;
  after a stop timeout a killed server may still be exiting when the next llama-bench starts.
  Overlaps are excluded exactly as long as no Stop has to kill.
- The migration loader looks for transaction control and psql commands at line starts only.
  `SELECT 1; COMMIT;` and `END;` are accepted bodies although database/README.md calls them
  unsupported. A run that meets one always fails, because its closing report reads a temporary
  table that went with the transaction, and it may leave half of a body, unrecorded work or a gap
  in the history that blocks every later run. A failing run is sure to change nothing exactly when
  its bodies are contained: none commits from the middle, none ends outside a transaction.
- When the health poll takes the exit message of a server that exits early, Stop waits out its
  whole deadline and sends a kill, although the process is gone; when the poll gives up first, the
  same exit costs neither.

## Model

| member | source | states |
|---|---|---|
| `Ledger.ReachableInv` | database/migrations/000002_audit_and_ledger.up.sql:99-133 | In every state any run of statements reaches, every wallet row is still justified (completed job, usage row, right party, right sign), foreign keys hold, idempotency keys and (job, kind) pairs are unique |
| `Ledger.StepKeepsInv` | database/migrations/000002_audit_and_ledger.up.sql:28-133 | One statement, accepted or refused, keeps all of that |
| `Ledger.StepKeepsWallet` | database/migrations/000002_audit_and_ledger.up.sql:114-133 | An accepted statement of any kind leaves every wallet row justified, the new one included |
| `Ledger.RunExtends` | database/migrations/000002_audit_and_ledger.up.sql:28-81 | No run rewrites history: events and wallet rows stay in place, usage rows stay, jobs keep their parties, terminal jobs are frozen, a provider node keeps its owner |
| `Ledger.StepKeepsAudit` | database/migrations/000002_audit_and_ledger.up.sql:83-97 | The log keeps replaying to the job statuses after a statement if and only if the statement does not insert an audit-typed event by hand |
| `Ledger.AuditOverRuns` | database/migrations/000002_audit_and_ledger.up.sql:83-97 | Over every run: the log replays in every state if and only if no audit-typed event was ever inserted by hand |
| `Ledger.ReplayLength` | database/migrations/000002_audit_and_ledger.up.sql:50-97 | A log that replays holds at most three audit events for a job: one when queued, two when running, three when completed |
| `Ledger.ForgedAuditExample` | database/migrations/000002_audit_and_ledger.up.sql:30-31 | The schema itself does not reserve the audit types: a hand-written status change is accepted and breaks the replay of any queued job |
| `Ledger.ReachableConservation` | database/migrations/000002_audit_and_ledger.up.sql:14-16 | Over every run the balances of the users sum to the whole ledger, a job has at most one earning and one usage entry, and a user in credit owns a node that completed a job |
| `Ledger.StepMovesOneBalance` | database/migrations/000002_audit_and_ledger.up.sql:135-137 | A statement moves no balance except an accepted wallet insert, which moves one balance by its amount |
| `Ledger.BalancesSumToLedger` | database/migrations/000002_audit_and_ledger.up.sql:135-137 | The per-user view partitions the ledger: its rows add up to the sum of all amounts |
| `Ledger.Database.AddJob` | database/migrations/000002_audit_and_ledger.up.sql:50-57 | INSERT on jobs with guard and audit trigger: verdict and whole new state, invariant kept |
| `Ledger.Database.ChangeJob` | database/migrations/000002_audit_and_ledger.up.sql:57-97 | UPDATE on jobs with guard and audit trigger: verdict and whole new state, invariant kept |
| `Ledger.Database.AddUsage` | database/migrations/000002_audit_and_ledger.up.sql:99-112 | INSERT on usage_records: verdict and whole new state, invariant kept |
| `Ledger.Database.AddWalletEntry` | database/migrations/000002_audit_and_ledger.up.sql:114-133 | INSERT on wallet_transactions: guard, checks, unique indexes; verdict and whole new state, invariant kept |
| `Ledger.Database.ChangeNode` | database/migrations/000002_audit_and_ledger.up.sql:37-48 | UPDATE on nodes: identity and owner immutable; verdict and whole new state, invariant kept |
| `Ledger.Database.AddNode` | database/migrations/000001_core.up.sql:4 | INSERT on nodes: unique id and node_key, existing owner; verdict and whole new state, invariant kept |
| `Ledger.Database.DropNode` | database/migrations/000001_core.up.sql:10 | DELETE on nodes: refused while a job names the node as provider; verdict and whole new state, invariant kept |
| `Ledger.Database.DropUser` | database/migrations/000001_core.up.sql:3-13 | DELETE on users: refused while a node, job or wallet row refers to the user; verdict and whole new state, invariant kept |
| `Ledger.Database.AddEvent` | database/migrations/000001_core.up.sql:11 | INSERT on job_events: any event type for an existing job; verdict and whole new state, invariant kept |
| `Ledger.UsagePartiesListsAll` | database/migrations/000002_audit_and_ledger.up.sql:139-142 | In every reachable state the inner joins of job_usage_parties hide no usage record |
| `LedgerAnswers.JobUpdateAnswer` | database/migrations/000002_audit_and_ledger.up.sql:50-82 | An UPDATE of a job is accepted if and only if it changes nothing, or keeps identity and assigned parties and makes one of the listed moves (queued to running, failed or cancelled; running to completed, failed or cancelled) or none, with an existing provider where one is needed |
| `LedgerAnswers.JobUpdateWrites` | database/migrations/000002_audit_and_ledger.up.sql:83-97 | An accepted UPDATE replaces the row and logs exactly a change of status |
| `LedgerAnswers.UsageAnswer` | database/migrations/000002_audit_and_ledger.up.sql:99-112 | Usage is recorded if and only if the job has ended, completed or not, has a provider and no record yet |
| `LedgerAnswers.WalletAnswer` | database/migrations/000002_audit_and_ledger.up.sql:114-133 | A wallet row is accepted if and only if its job is completed with usage, party and sign fit its kind, the amount is a bigint, the key is not blank and neither key nor (job, kind) is taken |
| `LedgerAnswers.GuardsAreExact` | database/migrations/000002_audit_and_ledger.up.sql:28-133 | Every other statement with fitting keys is accepted if and only if taking effect would leave all wallet rows justified and all references and indexes intact; accepted it takes effect, refused it does nothing |
| `LedgerAnswers.RefusalsAreTrue` | database/migrations/000002_audit_and_ledger.up.sql:28-133 | Every refusal names a fault that is there |
| `LedgerAnswers.AJobCanComplete` | database/migrations/000002_audit_and_ledger.up.sql:50-133 | A run from the empty tables in which a job completes, its usage is recorded, its provider is paid and its consumer charged, with the log replaying to completed |
| `LedgerAnswers.AJobCanEnd` | database/migrations/000002_audit_and_ledger.up.sql:67-72 | Runs in which a queued and a running job fail or are cancelled |
| `Enrollment.RedeemSucceeds` | server/enrollment.go:111-178 | A lone redemption succeeds if and only if the code is live, the key is free and an existing node is the user's and unpinned or pinned to this key; it then stores exactly the submitted key despite COALESCE, spends one code and touches one node; otherwise nothing changes |
| `Enrollment.RedeemKeepsInv` | server/enrollment.go:128-177 | Redemption keeps the table invariant (distinct non-empty keys, a status row per node, sound codes), owners and pinned keys |
| `Enrollment.EnrollKeepsInv` | server/postgres.go:51-81 | Legacy enrollment keeps the table invariant, owners and pinned keys |
| `Enrollment.BeatKeepsInv` | server/postgres.go:83-98 | The heartbeat keeps the table invariant, owners and pinned keys |
| `Enrollment.ListedIsEveryNode` | server/postgres.go:104-124 | The inner join with node_status hides none of a user's nodes |
| `Enrollment.Store.RedeemEnrollmentToken` | server/enrollment.go:111-178 | The transaction statement by statement leaves the state and outcome of the specification; a failure rolls back |
| `Enrollment.Store.EnrollNode` | server/postgres.go:51-81 | The legacy transaction leaves the state and outcome of its specification; a foreign node is left alone |
| `Enrollment.Store.Heartbeat` | server/postgres.go:83-98 | The joined update touches the status of an owned node only; found if and only if the node exists and is owned |
| `EnrollmentAnswers.RedeemAnswer` | server/enrollment.go:117-163 | The outcome of a redemption fault by fault: dead code, another user's node, a key in the way, success |
| `EnrollmentAnswers.RedeemWrites` | server/enrollment.go:133-177 | What a successful redemption writes: the version and the key on the token user's node, a fresh status row if there is none, the consumption of the code; nothing else |
| `EnrollmentAnswers.EnrollWrites` | server/postgres.go:51-81 | What legacy enrollment writes: the version, on an own or new node; a pinned key stays |
| `EnrollmentAnswers.BeatWrites` | server/postgres.go:83-98 | A heartbeat puts an owned node online with the reported mode and time; no other row changes |
| `EnrollmentTransactions.Serializable` | server/enrollment.go:111-178 | Under every interleaving of transactions the tables are those of the committed ones run one after another in commit order |
| `EnrollmentTransactions.CommitIsSerial` | server/enrollment.go:117-177 | At its COMMIT a transaction holds row for row what it would write if it ran alone at that point, and a redemption would then succeed |
| `EnrollmentTransactions.RunKeepsInv` | server/enrollment.go:111-178 | Every interleaving keeps the table and lock invariant; owners and pinned keys never change from any state to any later one |
| `EnrollmentTransactions.ReachableAccounts` | server/enrollment.go:165-177 | In every reachable state successful redemptions and consumed codes are equally many, and no two redemptions consumed the same code |
| `EnrollmentTransactions.ConsumedCodesAreBound` | server/enrollment.go:119-120 | Every consumed code has consumed_at before expires_at and is bound to a listed, keyed node of the code's user |
| `EnrollmentTransactions.FailureWritesNothing` | server/enrollment.go:116 | No statement of a transaction that ends in failure, at whatever point, reaches the tables |
| `EnrollmentTransactions.ConsumeAlwaysTouchesOneRow` | server/enrollment.go:165-176 | The RowsAffected check never fires: the row lock keeps the code unconsumed |
| `EnrollmentTransactions.NextTxCompatible` | server/enrollment.go:119-131 | No statement takes a row lock or unique-index entry that another open transaction holds |
| `EnrollmentTransactions.CommitKeepsOther` | server/enrollment.go:150-177 | A commit invalidates nothing another open transaction has read under its locks |
| `EnrollmentAnswers.ReachableFailuresAreTrue` | server/enrollment.go:117-163 | Over every interleaving: when a statement fails a transaction, the code is not live, the node is another user's, or a key is in the way at that moment; the one other conflict is a node committed between the SELECT that missed it and the INSERT |
| `EnrollmentAnswers.WaitsAreForOthers` | server/enrollment.go:117-163 | A statement waits only for another open transaction on the same code, node or key |
| `EnrollmentAnswers.RunsAlone` | server/enrollment.go:111-178 | Progress: a begun transaction with no other one open ends within six statements with exactly its serial outcome and tables, redemption and legacy alike |
| `EnrollmentAnswers.ActionAnswer` | server/enrollment.go:97-109 | What begin, abort, the clock, a heartbeat, the count below five, the insert and a dropped issuance do to the system |
| `CodeCap.LiveCodesBounded` | server/enrollment.go:97-109 | With at most k issuances of a user in flight, live codes plus issuances never exceed 4 + k, under every interleaving with redemptions, expiry and issuances that fail after their count |
| `CodeCap.BoundIsReached` | server/enrollment.go:97-109 | For every k > 0 some run with at most k issuances in flight reaches 4 + k live codes |
| `CodeCap.CapHoldsIffSerial` | server/enrollment.go:22-24 | The intended cap of five holds in every run if and only if at most one issuance is in flight |
| `RateLimiter.AtMost239PerStretch` | server/enrollment.go:220-232 | For call times in any order, no half-open minute holds more than 239 allowed calls for each stretch without an early reset; in clock order that is 239 |
| `RateLimiter.LimitHoldsIffNoEarlyReset` | server/enrollment.go:223-226 | All runs with at most d early resets stay within 239 calls a minute if and only if d is 0 |
| `RateLimiter.OrderedCallsResetOnTime` | server/enrollment.go:223 | Nondecreasing call times never take the third reset branch: no window is reset early |
| `RateLimiter.BoundIsReached` | server/enrollment.go:220-232 | For every d some run with d early resets has 239 * (1 + d) allowed calls within one minute |
| `RateLimiter.RefusedIffFull` | server/enrollment.go:227-229 | For call times in any order, a call is refused if and only if exactly 120 calls were allowed since the call that opened the current window, which began less than a minute before; all calls since then fall into that minute |
| `RateLimiter.Limiter.AllowSecureEnrollment` | server/enrollment.go:220-232 | The locked update computes the decision and the next window |
| `Uuid.AcceptedIffPrinted` | server/enrollment.go:199-208 | A text is accepted if and only if it is, ignoring case, the printed form of 16 bytes with version 4 and variant 10 |
| `Uuid.AcceptedTextIff` | server/enrollment.go:199-208 | A text is accepted if and only if it is five groups of 8, 4, 4, 4 and 12 hexadecimal digits, the third starting with 4 and the fourth with 8, 9, a or b |
| `Uuid.OnlyFourDashes` | server/enrollment.go:200-204 | Four dashes in place and 32 characters left mean that ReplaceAll removed nothing else |
| `Uuid.SameValueIffSameText` | server/enrollment.go:199-208 | Two accepted texts denote the same 128-bit value if and only if they differ at most in case |
| `Uuid.NewUuidV4` | agent/identity.go:192-201 | Whatever 16 random bytes arrive, the printed text is accepted and reads back as those bytes with version and variant set |
| `Uuid.PrintedIsValid` | agent/identity.go:199-212 | Every printed version-4 value is accepted and reads back as itself |
| `Uuid.RandomBitsStay` | agent/identity.go:197-198 | Only four bits of byte 6 and two of byte 8 are set; all other bits are those delivered |
| `Uuid.PrintedEqualIff` | agent/identity.go:192-201 | Two printed identifiers are equal if and only if their 122 random bits are |
| `Uuid.PrintedLayout` | agent/identity.go:199-201 | The text: 36 characters, dashes at four places, two lower-case digits of every byte in order |
| `OrderStatistics.MedianMonotone` | server/compute_score.go:230-246 | Raising values pointwise never lowers the median |
| `OrderStatistics.MedianRobust` | server/compute_score.go:230-246 | Changing strictly fewer than half of the values keeps the median between bounds of the unchanged ones |
| `OrderStatistics.MedianOfPermutation` | server/compute_score.go:235-245 | The median does not depend on the order of the values |
| `OrderStatistics.Rank` | server/compute_score.go:235-245 | The k-th sorted value is at most x if and only if more than k values are |
| `OrderStatistics.MedianFloat64` | server/compute_score.go:230-246 | The method computes the specified median; the empty input gives 0 |
| `OrderStatistics.LinuxPercentile` | agent/network_benchmark_linux.go:506-542 | Both error cases, no index out of range, and the interpolated value |
| `OrderStatistics.PercentileMonotone` | agent/network_benchmark_linux.go:522-541 | The percentile stays between the least and greatest sample and never falls when the percentile grows |
| `OrderStatistics.PercentileMonotoneInSamples` | agent/network_benchmark_linux.go:522-541 | Raising samples pointwise never lowers a percentile |
| `StatisticsAnswers.MedianMeaning` | server/compute_score.go:230-246 | Twice the median is the sum of the two middle order statistics, which coincide for an odd count; an order statistic is given by rank |
| `StatisticsAnswers.PercentileMeaning` | agent/network_benchmark_linux.go:522-541 | The percentile is the order statistic at position (n - 1) * p, or divides the gap to the next one in the ratio of the fraction |
| `Variation.CoefficientOfVariation` | server/compute_score.go:199-228 | The two loops compute the specified coefficient, with 1 for fewer than two values or a non-positive mean |
| `Variation.TwoPassVariance` | server/compute_score.go:206-225 | The two-pass loop equals the mean of the squares minus the square of the mean, and is never negative |
| `Variation.CoefficientBound` | server/compute_score.go:199-228 | For n non-negative values the squared coefficient is at most n - 1 if and only if n is at least two; a single value has coefficient 1 |
| `Variation.ZeroIffEqual` | server/compute_score.go:199-228 | The coefficient is zero if and only if there are two or more values, their mean is positive and all are equal |
| `Variation.ScaleFree` | server/compute_score.go:199-228 | Multiplying all values by a positive factor changes no coefficient |
| `Variation.OrderFree` | server/compute_score.go:199-228 | The coefficient does not depend on the order of the values |
| `StatisticsAnswers.CoefficientClosedForm` | server/compute_score.go:199-228 | With n values, sum S > 0 and sum of squares Q the coefficient c is the non-negative number with (c S)^2 = n Q - S^2; otherwise 1 |
| `Scores.CalculateComputeScore` | server/compute_score.go:59-177 | The breakdown carries the specified score, run counts, medians, the five point components, variation and throttling flag; the score is the rounded sum of the components, times the throttling multiplier; without a successful run everything but the counts and the flag is zero |
| `Scores.CollectRates` | server/compute_score.go:70-99 | Only successful samples contribute measurements, in order; any throttled sample is noticed |
| `Scores.ComputeScoreBounds` | server/compute_score.go:159-174 | Every compute score is in 0..100 and the final clamp never changes the total |
| `Scores.ComputeScoreOrderFree` | server/compute_score.go:74-99 | The compute score is unchanged by reordering the samples |
| `Scores.FailedSampleNeverHelps` | server/compute_score.go:135-138 | Appending a failed sample never raises the score |
| `Scores.ThrottledSampleNeverHelps` | server/compute_score.go:166-168 | Marking any sample as throttled never raises the score |
| `Scores.NetworkScoreMonotone` | server/network_score.go:27-83 | Every network score is in 0..100, unclamped, and improving any of the seven inputs never lowers it |
| `Scores.CalculateNetworkScore` | server/network_score.go:27-83 | The accumulated score is the specified sum of points, 0 without any IP connectivity |
| `Scores.DecreasingAntitone` | server/network_score.go:85-94 | A larger value never earns more linear points |
| `ScoresAnswers.PromptScale` | server/compute_score.go:114-120 | 20 points exactly from a median of 1000 tokens a second on, none exactly at 0, in proportion between |
| `ScoresAnswers.GenerationScale` | server/compute_score.go:121-127 | 40 points exactly from 100 tokens a second on, none exactly at 0, in proportion between |
| `ScoresAnswers.TtftScale` | server/compute_score.go:128-134 | 15 points exactly up to 100 ms, none exactly from 5 s on, linear between |
| `ScoresAnswers.StabilityScale` | server/compute_score.go:149-157 | Only with three successes: 15 points exactly up to a mean variation of 0.05, none exactly from 0.30 on, linear between |
| `ScoresAnswers.SuccessScale` | server/compute_score.go:135-138 | Ten points in the proportion of successful samples, all ten exactly when every sample succeeded |
| `ScoresAnswers.ScoreIsSum` | server/compute_score.go:159-174 | The score is the nearest integer to the five components, times 0.9 if any sample was throttled; 0 without a success |
| `ScoresAnswers.FullMarksIff` | server/compute_score.go:159-174 | 100 points before rounding if and only if all five components are full and no sample is throttled |
| `ScoresAnswers.FasterIsNeverWorse` | server/compute_score.go:105-134 | Raising rates of successful samples never lowers their points, raising times to the first token never raises theirs |
| `ScoresAnswers.SteadierIsNeverWorse` | server/compute_score.go:149-157 | More variation never earns more stability points |
| `ScoresAnswers.NetworkScale` | server/network_score.go:27-83 | The seven inputs on their literal scales, the quadratic loss penalty included; the score is the nearest integer |
| `Validation.ValidateComputeBenchmarkSubmission` | server/compute_benchmark_auth.go:58-197 | No error if and only if envelope, timestamps, header and all samples are acceptable; which of the two errors otherwise |
| `Validation.ValidateSamples` | server/compute_benchmark_auth.go:138-193 | The loop accepts if and only if every sample is acceptable and run numbers are distinct |
| `Validation.SkewAcceptedIff` | server/compute_benchmark_auth.go:73-97 | The skew check accepts exactly instants at most five minutes apart, and pairs whose difference saturates below |
| `Validation.FreshIffNoSaturation` | server/compute_benchmark_auth.go:69-97 | An accepted submission was received within ten minutes of its collection if and only if neither skew saturates |
| `Validation.StaleTimestampsAccepted` | server/compute_benchmark_auth.go:73-80 | Timestamps 2^63 nanoseconds ahead of the server clock pass both skew checks |
| `Validation.SampleLimits` | server/compute_benchmark_auth.go:138-193 | How far each field of an accepted sample can move on its own |
| `Validation.HeaderLimits` | server/compute_benchmark_auth.go:99-137 | The same for each header field |
| `Validation.TimestampLimits` | server/compute_benchmark_auth.go:69-97 | Both timestamps are accepted if and only if they are set and each skew is at most five minutes or saturates below |
| `Validation.RunNumbersDecide` | server/compute_benchmark_auth.go:138-150 | Acceptable samples are accepted together if and only if they have as many run numbers as samples |
| `Submissions.StaleReportIsStored` | server/compute_benchmark_auth.go:73-80 | A run from the empty system, enrollment included, ends with a stored report dated 2^63 nanoseconds after its receipt |
| `Submissions.AcceptedCanBeStored` | server/compute_benchmark.go:92-170 | Whatever submission the validator accepts, under whatever key its signature verifies, some run from the empty system stores it with the server-computed score |
| `Pipeline.FinalizeComputeBenchmarkRuns` | agent/compute_benchmark_finalize.go:31-340 | The loop accepts exactly the inputs with a complete header, five acceptable runs and one metadata, and builds the specified payload |
| `Pipeline.FinalizedShape` | agent/compute_benchmark_finalize.go:112-336 | A finalized payload has five samples numbered 1 to 5, sample i successful if and only if run i reported no error, each acceptable to the server unless its temperature is out of range |
| `PipelineAnswers.FinalizedCarries` | agent/compute_benchmark_finalize.go:81-336 | A finalized payload carries its input field by field: header constants and texts, and in each sample both rates, both token counts, the time to the first token, memory, temperature and throttling of its own run, or for a failed run the standard workload, no rates and the trimmed error |
| `PipelineAnswers.FinalizeAcceptsIff` | agent/compute_benchmark_finalize.go:31-290 | Finalize accepts if and only if the header is complete, there are five runs, each is fine by itself and any two successful ones report one runtime |
| `Pipeline.FinalizedPassesValidator` | agent/compute_benchmark_finalize.go:81-105 | A finalized payload in a valid timely envelope passes the whole validator if and only if its texts are short enough, its model name is not blank and its temperatures are in range |
| `Pipeline.PathsAgree` | agent/compute_benchmark_assemble.go:36-193 | On error-free runs finalize accepts if and only if combine then assemble does and finalize's stricter checks hold (header, descriptions, matching model name); then both give the identical benchmark if and only if trimming changes neither the runtime version nor the base name of the model file |
| `Pipeline.PathsDifferExample` | agent/compute_benchmark_assemble.go:75-90 | Five clean runs whose runtime version starts with a space: both paths accept, with different benchmarks |
| `PipelineAnswers.SecondPathCarries` | agent/compute_benchmark_assemble.go:105-192 | Combine then assemble carries the same measurements into the same fields |
| `PipelineAnswers.SecondPathAcceptsIff` | agent/compute_benchmark_runs.go:25-165 | Combine then assemble accepts if and only if there are five measured runs of one runtime with the names it needs |
| `Pipeline.CombineComputeBenchmarkRuns` | agent/compute_benchmark_runs.go:25-165 | The loop combines exactly five complete runs with one metadata, rates listed run by run |
| `Pipeline.AssembleComputeBenchmark` | agent/compute_benchmark_assemble.go:36-193 | Validation and loop build the specified samples or fail |
| `Pipeline.OrchestratedShape` | agent/compute_benchmark_orchestrate.go:47-149 | For every behaviour of the two collectors: an error, or five samples 1 to 5 with sample i successful if and only if both its collectors returned no error |
| `PipelineAnswers.OrchestratedCarries` | agent/compute_benchmark_orchestrate.go:71-149 | Orchestration fails on any cancellation and otherwise finalizes; each sample carries its attempt field by field, a positive measured TTFT replacing the telemetry's, the collectors' errors in the failed ones |
| `Pipeline.OrchestrateComputeBenchmarkRuns` | agent/compute_benchmark_orchestrate.go:71-149 | Five repetitions with three cancellation checks each, then finalize |
| `Pipeline.FailureBlankIffNone` | agent/compute_benchmark_orchestrate.go:151-191 | The failure text is blank if and only if both errors are nil, even when error texts are blank |
| `Pipeline.ComputeBenchmarkRunFailure` | agent/compute_benchmark_orchestrate.go:151-191 | The labelled failures joined with "; " |
| `Submissions.StoredReportsAreSigned` | server/compute_benchmark.go:92-170 | Over a losing, duplicating, reordering network and any enrollment activity, every stored report carries the payload of an accepted submission and the server-computed score, and its signature verifies under the key pinned now |
| `Submissions.ConfirmedIsStored` | agent/compute_benchmark_transport.go:142-202 | An agent that returned success has its own benchmark stored, under its node, with the server-computed score |
| `Submissions.CreatedOncePerReport` | server/compute_benchmark_postgres.go:21-63 | One report ID, in whatever letter case, is created at most once: every Created answer comes from one handler, and no other handler ever gives one for that report value, even if inserts may be committed and answered with 500 |
| `Submissions.StoredReportsAreFresh` | server/compute_benchmark.go:92-104 | A stored report was received within ten minutes of its collection if and only if no skew saturated |
| `Submissions.RunKeepsInv` | server/compute_benchmark.go:80-202 | Every run keeps all of the above, and stored rows never change |
| `Submissions.InsertKeepsInv` | database/migrations/000008_compute_benchmark_m9.up.sql:6-38 | The insert of one handler keeps the invariant and every earlier row |
| `Submissions.PinnedKeyStays` | server/inventory_postgres.go:17-41 | The key the handler looks up is the same in every later state |
| `Submissions.RequestIsAnswered` | server/compute_benchmark.go:75-202 | An uninterrupted request is answered 400, 401, 409 or Created exactly as validation, the signature under the pinned key and the stored reports decide, and stores its own benchmark, server score and receipt time exactly when nothing is refused |
| `Submissions.SignedMeans` | server/inventory_postgres.go:17-41 | A signature counts only under the key pinned on an existing node |
| `Submissions.AgentConfirmsIff` | agent/compute_benchmark_transport.go:142-202 | The agent reports success exactly on a Created reply with the ID it expects |
| `Submissions.NothingFromNowhere` | agent/compute_benchmark_transport.go:85-145 | Only what was sent is handled, and only the server's own replies reach the agent |
| `Migrations.LoadMigrations` | database/migrate.py:25-46 | Loading succeeds if and only if every name, decoding and text is acceptable and the versions are exactly 1..n; the result is each file's version, name, hash and body |
| `MigrationAnswers.LoadedCarries` | database/migrate.py:42 | A loaded migration carries its file's number, name, the hash of all its bytes and the body of its text |
| `MigrationAnswers.NameForm` | database/migrate.py:28-30 | A name is valid if and only if it is six digits, an underscore, a stem and the suffix |
| `MigrationAnswers.VersionIsDecimal` | database/migrate.py:42 | The version is the decimal number of the six digits |
| `MigrationText.NoControlAtLineStart` | database/migrate.py:32-42 | At no line start of an accepted body does psql read, after spaces and blank lines, a psql command, COMMIT, ROLLBACK or START TRANSACTION, for all line boundaries of splitlines |
| `MigrationText.OneLineAccepted` | database/migrate.py:32-42 | A file with a one-line body is accepted if and only if that line starts with neither a psql command nor one of the three keywords |
| `MigrationText.LinesAccepted` | database/migrate.py:31-42 | A file around any lines is accepted if and only if none of them is a psql command and no line start reads a control keyword; its body is then all of these lines |
| `MigrationText.AcceptedIsRejoined` | database/migrate.py:32-35 | Every accepted text is its first line, its body and its last line, which strip to BEGIN; and COMMIT; |
| `MigrationText.KeywordIsControl` | database/migrate.py:40 | COMMIT and ROLLBACK in any case are control exactly up to a word boundary |
| `MigrationText.KeywordLineIsRejected` | database/migrate.py:38-41 | A line that starts with COMMIT or ROLLBACK, in any case and after spaces, gets the whole file rejected, wherever it stands |
| `MigrationText.CommandIff` | database/migrate.py:36 | A line is a psql command if and only if its first solid character is a backslash |
| `MigrationText.StartTransactionIsControl` | database/migrate.py:40 | So are START and TRANSACTION with spaces or breaks between |
| `MigrationText.AcceptedControl` | database/migrate.py:36-41 | END, a COMMIT, a ROLLBACK and a psql command in the middle of a line are all accepted |
| `Migrations.SessionRefines` | database/migrate.py:103-116 | An apply session, statement by statement, succeeds if and only if all pending bodies run to their end inside the script's own transaction, and then leaves exactly what they and their rows make of the database |
| `MigrationContainment.FailureLeavesNothing` | database/migrate.py:103-116 | When every pending body is contained, an apply run does all of its work or leaves the database as it was |
| `MigrationContainment.SafeIffContained` | database/migrate.py:38-41 | A body is safe (no failing apply run changes any database under any engine, the other bodies being contained) if and only if, read as a list of statements, it commits nothing from inside the transaction and ends inside one |
| `MigrationContainment.EndingBodyNeverSucceeds` | database/migrate.py:138-141 | A pending body with COMMIT or ROLLBACK makes every apply run fail |
| `MigrationContainment.RollbackLeavesGap` | database/migrate.py:103-116 | A run in which a ROLLBACK undoes the first migration and the second is recorded alone |
| `MigrationContainment.GapIsFinal` | database/migrate.py:93-100 | Once the history has a gap, no run of any command with any files changes the database |
| `MigrationHistory.RunAllKeepsInv` | database/migrate.py:57-145 | Over every sequence of runs whose pending bodies are contained the history is 1..k under matching names; the executed migrations are once each, ascending, the unadopted rows, each recorded under its own name and hash |
| `MigrationHistory.AfterKeepsRows` | database/migrate.py:85-101 | Whatever the bodies do to the transaction, a run keeps every recorded row and executed migration, and rows and executed migrations still correspond, ascending, under their own names and hashes |
| `MigrationHistory.SchemaIsReplayed` | database/migrate.py:109-116 | Over every sequence of runs whose pending bodies are contained the schema is the initial one after exactly the executed bodies |
| `MigrationHistory.LaterFilesAgree` | database/migrate.py:85-101 | Recorded history cannot be edited, whatever the bodies do: unless two given files collide under the hash, every file set a later run accepts contains exactly the executed migrations, bodies included |
| `MigrationHistory.FreshApplyRebuilds` | database/migrate.py:103-116 | When nothing was adopted and all bodies were contained, applying the current files to a fresh database ends in the same schema with the same bodies run |
| `MigrationHistory.AfterKeepsInv` | database/migrate.py:85-145 | One run with contained pending bodies only extends history and executions and keeps 1..k; a status run or a failing run changes nothing; a successful one leaves its specified outcome |
| `MigrationHistory.ApplyRecordsAll` | database/migrate.py:103-116 | After a successful apply the history lists exactly the given files, name by name and hash by hash |
| `MigrationAnswers.ApplyRunsPending` | database/migrate.py:87-116 | An apply run succeeds if and only if the recorded rows are those of the first files, an untracked database has no tables, and the remaining bodies execute one after another; it records exactly these and leaves the schema they make |
| `MigrationAnswers.StatusAnswer` | database/migrate.py:73-102 | A status run succeeds if and only if the files load and the database is untracked or its rows are those of the first files; it leaves the database |
| `MigrationAnswers.AdoptAnswer` | database/migrate.py:117-136 | Adoption succeeds if and only if it is the test database with the two tested files, on a matching history or thirteen empty tables that pass the core tests; it records both as adopted and executes nothing |
| `MigrationHistory.ApplyTwice` | database/migrate.py:103-116 | Applying the same files again succeeds and changes nothing |
| `MigrationHistory.ApplyIncrementally` | database/migrate.py:103-116 | Applying an early file set and then an extension of it has the outcome, schema and history of applying the extension at once |
| `MigrationHistory.NamesNeverCollide` | database/migrate.py:79-83 | The UNIQUE constraint on filename never fires: a name carries its version |
| `Migrations.Target.ApplyMigrations` | database/migrate.py:103-116 | The script statement by statement, for bodies that may end the transaction too: it succeeds if and only if the specification has an outcome, which it then leaves; otherwise it leaves what its session had committed |
| `BenchmarkServer.StoppedMeans` | agent/compute_benchmark_server_linux.go:407-440 | A returned Stop sent one interrupt and at most one kill, the kill only past the deadline; without it the process has exited; if the health poll took the exit message, Stop ends by killing |
| `BenchmarkServer.ReaperNeverBlocks` | agent/compute_benchmark_server_linux.go:269-277 | The reaper finds its channel slot free for its only send |
| `BenchmarkServer.NextKeepsInv` | agent/compute_benchmark_server_linux.go:313-440 | Every event in every order keeps the process, channel and phase invariant |
| `BenchmarkServer.PollEnds` | agent/compute_benchmark_server_linux.go:340-405 | The health wait ends by a 200, by the exit message or by its deadline, and in no other way |
| `BenchmarkServer.StopReturns` | agent/compute_benchmark_server_linux.go:429-439 | In every run in which the deadline of a begun Stop fires and the deadline branch gets its turn later, Stop has returned, whatever else happens before, between and after |
| `BenchmarkServer.KilledIffPollTookExit` | agent/compute_benchmark_server_linux.go:375-400 | An exited, reaped server can be stopped without a kill if and only if the health poll did not take its exit message; if it did, every returned Stop waited out its deadline and killed |
| `BenchmarkServer.PollTakesExit` | agent/compute_benchmark_server_linux.go:375-400 | A run in which an early exit costs the deadline and a kill |
| `BenchmarkServer.PollGivesUpFirst` | agent/compute_benchmark_server_linux.go:375-400 | A run in which the same early exit costs neither |
| `LinuxSession.SessionStopsItsServer` | agent/compute_benchmark_session_linux.go:159-233 | Under every interleaving a session that started a server returns only after one interrupt and at most one kill; a session without error leaves no process behind |
| `LinuxSession.SessionFailsIff` | agent/compute_benchmark_session_linux.go:159-233 | A returning session failed if and only if its workload did not succeed or its Stop had to kill |
| `LinuxSession.SessionCanSucceed` | agent/compute_benchmark_session_linux.go:159-233 | A run in which the server becomes healthy, serves, exits on its interrupt, and the session returns without error |
| `DarwinSession.OneServerAtATime` | agent/compute_benchmark_orchestrate_darwin.go:146-240 | No server is un-stopped while llama-bench runs, never two at once, at most one per repetition; a process still alive then has been killed past its deadline |
| `DarwinSession.EveryServerInterruptedOnce` | agent/compute_benchmark_orchestrate_darwin.go:184-238 | By the end every started server got exactly one interrupt and at most one kill |
| `DarwinSession.FiveRepetitions` | agent/compute_benchmark_orchestrate_darwin.go:146-240 | A run through five repetitions, a server of its own in each, all stopped on their interrupts |
| `DarwinSession.MishapAnswer` | agent/compute_benchmark_orchestrate.go:100-135 | A server that cannot be started costs its repetition only; a cancellation between collectors ends the orchestration |
| `DarwinSession.OneModelIffNoKill` | agent/compute_benchmark_orchestrate_darwin.go:52-64 | All runs with at most k kills hold one model process at a time, llama-bench and servers counted, if and only if k is 0 |
| `DarwinSession.KillMayOverlap` | agent/compute_benchmark_orchestrate_darwin.go:146-240 | From every state in which a killed server of any but the last repetition is still alive, two steps lead to an overlap |
| `DarwinSession.KilledServerMayOverlap` | agent/compute_benchmark_orchestrate_darwin.go:52-64 | A run with one kill in which a killed server is alive while the next llama-bench runs |

## Left out

- The web client, HTTP routing, sessions and cookies, JSON encoding and hardware inventory: plumbing around the modelled cores.
- Provider controls and node ratings: threshold comparisons that one branch settles.
- Table privileges, SECURITY DEFINER and superuser actions: only the modelled statements occur.
- Multi-row statements and multi-statement application transactions on the ledger tables: a statement touches one row; longer ones are sequences of these. The columns of users other than the id, and the model, pricing, inventory, benchmark and status tables with their foreign keys, are not part of the ledger model; they can only refuse further statements.
- Deadlock detection and lock timeouts in enrollment: a blocked transaction may be aborted at any point, which covers them.
- The surrogate ids of node and token rows: rows are named by their unique, immutable node_key and token_hash.
- Migrations.Target.ApplyMigrations: psql commands inside a body. The loader accepts them in the middle of a line (MigrationText.AcceptedControl); they can switch databases or error handling, so bodies that hold one are outside the model. PREPARE TRANSACTION and savepoints are not modelled either, nor bodies that touch the runner's own tables.
- Concurrent runs of the migration tool: they are serialized by its advisory lock. The class \w of Unicode word characters is an arbitrary predicate.
- Floating-point rounding, NaN and infinities: the validator rejects non-finite values.
- Text that is not valid UTF-8, and paths with other separators than a slash.
- The kill that exec.CommandContext sends on cancellation is an exit of the process like any other.
- Validation.StaleTimestampsAccepted: one family of accepted future timestamps; the exact condition for all is FreshIffNoSaturation.
- BenchmarkServer.StopReturns: that the runtime eventually runs the deadline branch is the hypothesis, not the conclusion.
