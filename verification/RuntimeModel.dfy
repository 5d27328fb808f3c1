/** Runtime traces and the history entries built from them (execution/models.py, execution/runtime_store.py). */
module RuntimeModel {
  import opened Collections

  datatype TraceStatus = Succeeded | Failed | Skipped

  /** `finished_at` as text: either a point in time or something that does not parse. */
  datatype Timestamp = At(instant: int) | Unparsable(text: string)

  datatype FailureKind = Routing | Dispatch | Execution | Timeout | Backpressure | Canceled | Contract

  datatype IdempotencyKey = KeyOf(runId: string, planId: string, nodeId: string) | GivenKey(text: string)

  /** The hash of an attempt's identity, injective in its three parts. */
  datatype AttemptId = AttemptIdOf(key: IdempotencyKey, bindingId: string, attemptNumber: nat)

  /** The `execution_control` entry of a trace's metadata. */
  datatype ControlNote = ControlNote(
    attemptId: AttemptId, key: IdempotencyKey, attemptNumber: nat, bindingAttemptNumber: nat, fallbackIndex: nat,
    timeoutMs: int, failureKind: Option<FailureKind>, placementEligible: bool)

  datatype Trace = Trace(
    traceId: string, spanId: string, runId: string, planId: Option<string>, nodeId: string, cellId: string,
    formulaVersion: string, status: TraceStatus, finishedAt: Timestamp, durationMs: real,
    implementationId: Option<string>, serviceId: Option<string>, runtime: Option<string>,
    retryCount: int, error: Option<string>, control: Option<ControlNote>)
  {
    predicate Valid() {
      durationMs >= 0.0 && retryCount >= 0
    }
  }

  /** What traces are grouped by. */
  datatype GroupKey = GroupKey(
    cellId: string, formulaVersion: string, implementationId: Option<string>, serviceId: Option<string>, runtime: Option<string>)

  datatype SummaryEntry = SummaryEntry(
    key: GroupKey, traceCount: nat, runCount: nat, succeededCount: nat, failedCount: nat, skippedCount: nat,
    retriedTraceCount: nat, failureRate: real, retryRate: real, averageDuration: real, maxDuration: real,
    minDuration: real, p50: real, p95: real, p99: real, errorCount: nat, retryCount: int,
    latestStatus: TraceStatus, latestFinishedAt: Timestamp)
}
