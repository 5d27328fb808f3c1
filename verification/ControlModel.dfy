/** Execution outcomes, attempts and control records with the checks they make (execution/executor.py, execution/models.py). */
module ControlModel {
  import opened Collections
  import opened PlanModel
  import opened RuntimeModel

  /** The exception classes that the classifier tells apart; `Foreign` is anything outside the executor's own hierarchy. */
  datatype ErrorKind =
    | RouteNotFound | DispatchFailure | TimedOutError | BackpressureError | CanceledError
    | BindingRejected | ResultContract | TraceMismatch | ControlFailure | OtherExecution | Foreign

  datatype ExecutionError = ExecutionError(kind: ErrorKind, text: string)

  datatype Classification = Classification(kind: FailureKind, retryable: bool, allowsFallback: bool)

  type Classifier = ExecutionError -> Classification

  function DefaultClassifier(e: ExecutionError): Classification {
    match e.kind
    case RouteNotFound => Classification(Routing, false, true)
    case DispatchFailure => Classification(Dispatch, true, true)
    case TimedOutError => Classification(Timeout, true, true)
    case BackpressureError => Classification(Backpressure, false, true)
    case CanceledError => Classification(Canceled, false, false)
    case BindingRejected => Classification(Contract, false, false)
    case ResultContract => Classification(Contract, false, false)
    case TraceMismatch => Classification(Contract, false, false)
    case ControlFailure => Classification(Execution, false, false)
    case OtherExecution => Classification(Execution, false, false)
    case Foreign => Classification(Execution, false, false)
  }

  const IDEMPOTENT_EXECUTION := "idempotent_execution"

  predicate RepeatIsSafe(b: ServiceBinding) {
    !b.hints.stateful || IDEMPOTENT_EXECUTION in b.capabilities
  }

  /** A dispatch or timeout failure on a binding that must not run twice ends the run. */
  function EffectiveClassification(c: Classification, b: ServiceBinding): Classification {
    if RepeatIsSafe(b) || !(c.kind == Dispatch || c.kind == Timeout) then c
    else Classification(c.kind, false, false)
  }

  // ----- Attempts -----

  datatype AttemptStatus = AttemptSucceeded | AttemptFailed | AttemptTimedOut | AttemptBackpressured | AttemptCanceled

  datatype Attempt = Attempt(
    attemptId: AttemptId, key: IdempotencyKey, attemptNumber: nat, bindingAttemptNumber: nat, fallbackIndex: nat,
    bindingId: string, isRetry: bool, status: AttemptStatus, failureKind: Option<FailureKind>, retryable: bool,
    durationMs: real, spanId: string, error: Option<string>, timeoutMs: int, allowsFallback: bool)
  {
    /** The checks an attempt makes when it is constructed. */
    predicate Admissible() {
      && attemptNumber >= 1
      && bindingAttemptNumber >= 1
      && durationMs >= 0.0
      && isRetry == (bindingAttemptNumber > 1)
      && (if status == AttemptSucceeded then failureKind.None? && error.None? && !retryable
          else failureKind.Some? && error.Some?)
      && (status == AttemptTimedOut ==> failureKind == Some(Timeout))
      && (status == AttemptBackpressured ==> failureKind == Some(Backpressure))
      && (status == AttemptCanceled ==> failureKind == Some(Canceled))
      && (status == AttemptFailed ==> failureKind !in {Some(Timeout), Some(Backpressure), Some(Canceled)})
    }
  }

  function StatusFor(c: Option<Classification>): AttemptStatus {
    match c
    case None => AttemptSucceeded
    case Some(cl) =>
      match cl.kind
      case Timeout => AttemptTimedOut
      case Backpressure => AttemptBackpressured
      case Canceled => AttemptCanceled
      case _ => AttemptFailed
  }

  // ----- Control records -----

  datatype ControlStatus = ControlSucceeded | ControlFailed | ControlCanceled

  datatype ControlRecord = ControlRecord(
    controlKey: IdempotencyKey, key: IdempotencyKey, runId: string, planId: string, nodeId: string,
    primaryBindingId: string, fallbackBindingIds: seq<string>, status: ControlStatus, attempts: seq<Attempt>,
    retryCount: int, fallbackCount: int, finalBindingId: string, finalFailureKind: Option<FailureKind>)

  function CountRetries(attempts: seq<Attempt>): nat {
    if attempts == [] then 0
    else CountRetries(attempts[..|attempts| - 1]) + (if attempts[|attempts| - 1].isRetry then 1 else 0)
  }

  function MaxFallback(attempts: seq<Attempt>): (m: nat)
    requires attempts != []
    ensures forall i :: 0 <= i < |attempts| ==> attempts[i].fallbackIndex <= m
    ensures exists i :: 0 <= i < |attempts| && attempts[i].fallbackIndex == m
  {
    var last := attempts[|attempts| - 1].fallbackIndex;
    if |attempts| == 1 then last
    else
      var m := MaxFallback(attempts[..|attempts| - 1]);
      if m < last then last else m
  }

  /** How many of the attempts used the binding at `index`. */
  function AttemptsAt(attempts: seq<Attempt>, index: nat): nat {
    if attempts == [] then 0
    else AttemptsAt(attempts[..|attempts| - 1], index) + (if attempts[|attempts| - 1].fallbackIndex == index then 1 else 0)
  }

  function ControlStatusFor(a: AttemptStatus): ControlStatus {
    if a == AttemptSucceeded then ControlSucceeded else if a == AttemptCanceled then ControlCanceled else ControlFailed
  }

  /** The position of attempt `i` among the configured bindings and its predecessors. */
  ghost predicate AttemptInOrder(r: ControlRecord, i: nat)
    requires i < |r.attempts|
  {
    var ids := [r.primaryBindingId] + r.fallbackBindingIds;
    var a := r.attempts[i];
    var previous := if i == 0 then 0 else r.attempts[i - 1].fallbackIndex;
    && a.fallbackIndex < |ids|
    && a.bindingId == ids[a.fallbackIndex]
    && previous <= a.fallbackIndex <= previous + 1
    && a.bindingAttemptNumber == AttemptsAt(r.attempts[..i + 1], a.fallbackIndex)
  }

  /** What a control record promises about its attempts. */
  ghost predicate RecordAdmissible(r: ControlRecord) {
    && r.attempts != []
    && (forall i :: 0 <= i < |r.attempts| ==> r.attempts[i].attemptNumber == i + 1)
    && (forall i, j :: 0 <= i < j < |r.attempts| ==> r.attempts[i].attemptId != r.attempts[j].attemptId)
    && (forall i :: 0 <= i < |r.attempts| ==> r.attempts[i].key == r.key)
    && Distinct([r.primaryBindingId] + r.fallbackBindingIds)
    && r.attempts[0].fallbackIndex == 0
    && (forall i :: 0 <= i < |r.attempts| ==> AttemptInOrder(r, i))
    && r.retryCount == CountRetries(r.attempts)
    && r.fallbackCount == MaxFallback(r.attempts)
    && r.finalBindingId == r.attempts[|r.attempts| - 1].bindingId
    && r.finalFailureKind == r.attempts[|r.attempts| - 1].failureKind
    && r.status == ControlStatusFor(r.attempts[|r.attempts| - 1].status)
  }

  function AttemptIds(attempts: seq<Attempt>): seq<AttemptId> {
    Map((a: Attempt) => a.attemptId, attempts)
  }

  /** The loop of the record's constructor: fallback order and contiguous numbering per binding. */
  method CheckAttemptOrder(r: ControlRecord) returns (ok: bool)
    requires r.attempts != []
    ensures ok <==> forall i :: 0 <= i < |r.attempts| ==> AttemptInOrder(r, i)
  {
    var ids := [r.primaryBindingId] + r.fallbackBindingIds;
    var previous := 0;
    var counts: map<nat, nat> := map[];
    for i := 0 to |r.attempts|
      invariant forall j :: 0 <= j < i ==> AttemptInOrder(r, j)
      invariant previous == if i == 0 then 0 else r.attempts[i - 1].fallbackIndex
      invariant forall k: nat :: (if k in counts then counts[k] else 0) == AttemptsAt(r.attempts[..i], k)
    {
      var a := r.attempts[i];
      assert r.attempts[..i + 1][..i] == r.attempts[..i];
      if a.fallbackIndex >= |ids| || a.bindingId != ids[a.fallbackIndex] {
        assert !AttemptInOrder(r, i);
        return false;
      }
      if a.fallbackIndex != previous && a.fallbackIndex != previous + 1 {
        assert !AttemptInOrder(r, i);
        return false;
      }
      counts := counts[a.fallbackIndex := (if a.fallbackIndex in counts then counts[a.fallbackIndex] else 0) + 1];
      if a.bindingAttemptNumber != counts[a.fallbackIndex] {
        assert !AttemptInOrder(r, i);
        return false;
      }
      previous := a.fallbackIndex;
    }
    return true;
  }

  lemma AttemptIdsDiffer(attempts: seq<Attempt>)
    ensures |AttemptIds(attempts)| == |attempts|
    ensures Distinct(AttemptIds(attempts)) <==> forall i, j :: 0 <= i < j < |attempts| ==> attempts[i].attemptId != attempts[j].attemptId
  {
    hide Map;
    assert forall i :: 0 <= i < |attempts| ==> AttemptIds(attempts)[i] == attempts[i].attemptId;
  }

  /** Every check that constructing a control record runs. */
  method CheckControlRecord(r: ControlRecord) returns (ok: bool)
    ensures ok <==> RecordAdmissible(r)
  {
    hide AttemptInOrder, CountRetries, MaxFallback, Distinct, AttemptIds;
    if r.attempts == [] {
      return false;
    }
    DistinctIffSetSize(AttemptIds(r.attempts));
    DistinctIffSetSize([r.primaryBindingId] + r.fallbackBindingIds);
    var numbered := forall i | 0 <= i < |r.attempts| :: r.attempts[i].attemptNumber == i + 1;
    var sharedKey := forall i | 0 <= i < |r.attempts| :: r.attempts[i].key == r.key;
    var ids := [r.primaryBindingId] + r.fallbackBindingIds;
    AttemptIdsDiffer(r.attempts);
    if !numbered || |Elements(AttemptIds(r.attempts))| != |r.attempts| || !sharedKey || |ids| != |Elements(ids)|
       || r.attempts[0].fallbackIndex != 0 {
      return false;
    }
    var ordered := CheckAttemptOrder(r);
    var last := r.attempts[|r.attempts| - 1];
    return ordered
        && r.retryCount == CountRetries(r.attempts)
        && r.fallbackCount == MaxFallback(r.attempts)
        && r.finalBindingId == last.bindingId
        && r.finalFailureKind == last.failureKind
        && r.status == ControlStatusFor(last.status);
  }

  // ----- Outcomes -----

  /** A cell result, as far as execution looks at it. */
  datatype CellResult = CellResult(cellId: string, target: string, horizon: string, body: string)

  datatype Outcome = Outcome(
    trace: Trace, result: Option<CellResult>, error: Option<ExecutionError>, priorTraces: seq<Trace>, record: Option<ControlRecord>)
  {
    function RuntimeTraces(): seq<Trace> {
      priorTraces + [trace]
    }

    /** The checks an outcome makes when it is constructed. */
    predicate Admissible() {
      && (result.Some? <==> error.None?)
      && trace.status == (if error.None? then TraceStatus.Succeeded else TraceStatus.Failed)
      && Distinct(SpanIds(RuntimeTraces()))
    }

    /** An admissible outcome whose traces are themselves valid. */
    predicate Valid() {
      Admissible() && forall t :: t in RuntimeTraces() ==> t.Valid()
    }
  }

  function SpanIds(traces: seq<Trace>): seq<string> {
    Map((t: Trace) => t.spanId, traces)
  }
}
