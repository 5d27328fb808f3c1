/** The failure-controlled executor: retry inside fallback around an arbitrary delegate (execution/control.py). */
module Control {
  import opened Collections
  import opened PlanModel
  import opened RuntimeModel
  import opened ControlModel
  import opened ControlRuns

  // ----- The environment -----

  datatype AdmissionReply = Refused | AdmissionRaises(text: string) | Granted(releaseFails: Option<string>)

  datatype DelegateReply = Returns(outcome: Outcome) | Raises(error: ExecutionError) | ReturnsOther(typeName: string)

  /**
   * What the outside world answers when consulted as the k-th event of a run. Indexing by position lets an
   * answer depend on everything that happened before.
   */
  datatype Script = Script(
    canceled: nat -> bool, admission: nat -> AdmissionReply, delegate: nat -> DelegateReply,
    elapsedMs: nat -> real, uuid: nat -> string, now: nat -> Timestamp)
  {
    /** Clocks do not run backwards and a returned outcome has passed its own constructor. */
    ghost predicate Lawful() {
      && (forall k :: elapsedMs(k) >= 0.0)
      && (forall k :: delegate(k).Returns? ==> delegate(k).outcome.Valid())
    }

    /** A cancellation request is never withdrawn. */
    ghost predicate Monotone() {
      forall j, k :: j <= k && canceled(j) ==> canceled(k)
    }

    /** The span ids that can appear when event `k` happens. */
    function SpansAt(k: nat): seq<string> {
      [uuid(k)] + (if delegate(k).Returns? then SpanIds(delegate(k).outcome.RuntimeTraces()) else [])
    }

    /** No span id is ever issued twice. */
    ghost predicate FreshSpans() {
      && (forall k :: Distinct(SpansAt(k)))
      && (forall j, k :: j < k ==> Elements(SpansAt(j)) !! Elements(SpansAt(k)))
    }
  }

  datatype Event = CancelCheck(atStart: bool, answer: bool) | Admission(reply: AdmissionReply) | DelegateCall(bindingId: string) | LeaseRelease

  class Environment {
    const script: Script
    var log: seq<Event>

    constructor (script: Script)
      ensures this.script == script && log == []
    {
      this.script := script;
      log := [];
    }

    method IsCanceled(atStart: bool) returns (answer: bool)
      modifies this
      ensures answer == script.canceled(|old(log)|) && log == old(log) + [CancelCheck(atStart, answer)]
    {
      answer := script.canceled(|log|);
      log := log + [CancelCheck(atStart, answer)];
    }

    method TryAcquire() returns (reply: AdmissionReply)
      modifies this
      ensures reply == script.admission(|old(log)|) && log == old(log) + [Admission(reply)]
    {
      reply := script.admission(|log|);
      log := log + [Admission(reply)];
    }

    method CallDelegate(bindingId: string) returns (reply: DelegateReply)
      modifies this
      ensures reply == script.delegate(|old(log)|) && log == old(log) + [DelegateCall(bindingId)]
    {
      reply := script.delegate(|log|);
      log := log + [DelegateCall(bindingId)];
    }

    method Release()
      modifies this
      ensures log == old(log) + [LeaseRelease]
    {
      log := log + [LeaseRelease];
    }
  }

  /** The planned context of one node execution. */
  datatype Context = Context(
    runId: string, traceId: string, cell: Manifest, planId: Option<string>, node: Option<ExecutionNode>,
    binding: Option<ServiceBinding>, fallbacks: seq<ServiceBinding>, key: Option<IdempotencyKey>)
  {
    predicate Planned() {
      planId.Some? && node.Some? && binding.Some?
    }

    function Key(): IdempotencyKey
      requires Planned()
    {
      if key.Some? && key.value != GivenKey("") then key.value else KeyOf(runId, planId.value, node.value.nodeId)
    }

    function Settings(classifier: Classifier): ControlRuns.Settings
      requires Planned()
    {
      ControlRuns.Settings(node.value, [binding.value] + fallbacks, Key(), classifier)
    }
  }

  // ----- One attempt -----

  const CANCELED_BEFORE := ExecutionError(CanceledError, "canceled before attempt")
  const CANCELED_DURING := ExecutionError(CanceledError, "canceled during attempt")
  const FULL := ExecutionError(BackpressureError, "max_concurrency reached")
  const NO_OUTCOME := ExecutionError(DispatchFailure, "raised before returning an outcome")
  const EXPIRED := ExecutionError(TimedOutError, "deadline expired")

  function BoundaryTrace(ctx: Context, spanId: string, now: Timestamp, error: string): Trace
    requires ctx.Planned()
  {
    Trace(ctx.traceId, spanId, ctx.runId, ctx.planId, ctx.node.value.nodeId, ctx.cell.cellId, ctx.cell.formulaVersion,
          TraceStatus.Failed, now, 0.0, None, None, None, 0, Some(error), None)
  }

  function BoundaryFailure(ctx: Context, error: ExecutionError, spanId: string, now: Timestamp): (o: Outcome)
    requires ctx.Planned()
    ensures o.Valid() && o.error == Some(error) && o.priorTraces == [] && o.result.None? && o.record.None?
  {
    Outcome(BoundaryTrace(ctx, spanId, now, error.text), None, Some(error), [], None)
  }

  /** Two traces of the same span that may differ in how the attempt was judged and annotated. */
  predicate SameSpan(t: Trace, u: Trace) {
    t.(status := u.status, retryCount := u.retryCount, error := u.error, control := u.control) == u
  }

  function ReplaceError(o: Outcome, error: ExecutionError): (r: Outcome)
    requires o.Valid()
    ensures r.Valid() && r.error == Some(error) && r.priorTraces == o.priorTraces && SameSpan(r.trace, o.trace)
  {
    var r := Outcome(o.trace.(status := TraceStatus.Failed, error := Some(error.text)), None, Some(error), o.priorTraces, None);
    assert SpanIds(r.RuntimeTraces()) == SpanIds(o.RuntimeTraces());
    assert o.trace in o.RuntimeTraces() && forall t :: t in o.priorTraces ==> t in o.RuntimeTraces();
    r
  }

  /** The longest of the observed time and the traces' own durations. */
  function EffectiveDuration(observed: real, traces: seq<Trace>): (d: real)
    ensures d >= observed && forall t :: t in traces ==> d >= t.durationMs
    ensures d == observed || exists t :: t in traces && d == t.durationMs
  {
    if traces == [] then observed
    else
      var rest := EffectiveDuration(observed, traces[..|traces| - 1]);
      assert traces == traces[..|traces| - 1] + [traces[|traces| - 1]];
      if rest < traces[|traces| - 1].durationMs then traces[|traces| - 1].durationMs else rest
  }

  /** The error in the delegate's reply: its own, or a dispatch failure for anything foreign. */
  function DelegateError(reply: DelegateReply): Option<ExecutionError> {
    match reply
    case Returns(o) => o.error
    case Raises(e) => Some(if e.kind == Foreign then NO_OUTCOME else e)
    case ReturnsOther(_) => Some(NO_OUTCOME)
  }

  /** How long the delegate call made as event `call` took. */
  function AttemptDuration(script: Script, call: nat): real {
    EffectiveDuration(script.elapsedMs(call),
                      if script.delegate(call).Returns? then script.delegate(call).outcome.RuntimeTraces() else [])
  }

  /** Whether the attempt begun at event `k` gets to its delegate, which it then calls as event `k + 2`. */
  predicate Called(script: Script, k: nat) {
    !script.canceled(k) && script.admission(k + 1).Granted?
  }

  function TimeTaken(script: Script, k: nat): real {
    if Called(script, k) then AttemptDuration(script, k + 2) else 0.0
  }

  /**
   * How an attempt begun at event `k` ends: cancellation before it, then admission, then the deadline over
   * everything else, then a failed release, then the delegate's own error, then cancellation after it.
   */
  function Verdict(script: Script, k: nat, timeoutMs: int): Option<ExecutionError> {
    if script.canceled(k) then Some(CANCELED_BEFORE)
    else
      match script.admission(k + 1)
      case Refused => Some(FULL)
      case AdmissionRaises(text) => Some(ExecutionError(ControlFailure, text))
      case Granted(releaseFails) =>
        if AttemptDuration(script, k + 2) > timeoutMs as real then Some(EXPIRED)
        else if releaseFails.Some? then Some(ExecutionError(ControlFailure, releaseFails.value))
        else if DelegateError(script.delegate(k + 2)).Some? then DelegateError(script.delegate(k + 2))
        else if script.canceled(k + 4) then Some(CANCELED_DURING)
        else None
  }

  /** The events of one attempt begun at event `k`. */
  function AttemptLog(script: Script, k: nat, bindingId: string, timeoutMs: int): seq<Event> {
    if script.canceled(k) then [CancelCheck(true, true)]
    else
      [CancelCheck(true, false), Admission(script.admission(k + 1))]
      + if !script.admission(k + 1).Granted? then []
        else [DelegateCall(bindingId), LeaseRelease]
             + if AttemptDuration(script, k + 2) > timeoutMs as real then [] else [CancelCheck(false, script.canceled(k + 4))]
  }

  /** The event that issued the attempt's span: the delegate call, or whatever stopped the attempt before it. */
  function IssuedAt(script: Script, k: nat): nat {
    if script.canceled(k) then k else if script.admission(k + 1).Granted? then k + 2 else k + 1
  }

  /** The trace the attempt ends with, before it is judged: the delegate's, or one made at the boundary. */
  function BaseTrace(script: Script, ctx: Context, k: nat): Trace
    requires ctx.Planned()
  {
    if Called(script, k) && script.delegate(k + 2).Returns? then script.delegate(k + 2).outcome.trace
    else BoundaryTrace(ctx, script.uuid(IssuedAt(script, k)), script.now(IssuedAt(script, k)), "")
  }

  /** The traces the delegate had already collected. */
  function EarlierTraces(script: Script, k: nat): seq<Trace> {
    if Called(script, k) && script.delegate(k + 2).Returns? then script.delegate(k + 2).outcome.priorTraces else []
  }

  /** Everything one attempt leaves behind. */
  ghost predicate AttemptResult(script: Script, ctx: Context, k: nat, events: seq<Event>, bindingId: string, timeoutMs: int, o: Outcome, durationMs: real) {
    && ctx.Planned() && o.Valid()
    && events == AttemptLog(script, k, bindingId, timeoutMs)
    && durationMs == TimeTaken(script, k) >= 0.0
    && o.error == Verdict(script, k, timeoutMs)
    && (o.error.None? ==> script.delegate(k + 2).Returns? && o.result == script.delegate(k + 2).outcome.result)
    && SameSpan(o.trace, BaseTrace(script, ctx, k))
    && o.priorTraces == EarlierTraces(script, k)
  }

  /** Calls the delegate under a lease and releases the lease, whatever the delegate does. */
  method Invoke(env: Environment, ctx: Context, bindingId: string) returns (o: Outcome, durationMs: real)
    requires env.script.Lawful() && ctx.Planned()
    modifies env
    ensures env.log == old(env.log) + [DelegateCall(bindingId), LeaseRelease]
    ensures o.Valid() && durationMs == AttemptDuration(env.script, |old(env.log)|) >= 0.0
    ensures var reply := env.script.delegate(|old(env.log)|);
      && o.error == DelegateError(reply)
      && if reply.Returns? then o == reply.outcome
         else o.priorTraces == [] && SameSpan(o.trace, BoundaryTrace(ctx, env.script.uuid(|old(env.log)|), env.script.now(|old(env.log)|), ""))
  {
    hide Distinct, Map;
    var reply := env.CallDelegate(bindingId);
    var observed := env.script.elapsedMs(|env.log| - 1);
    if reply.Returns? {
      o := reply.outcome;
    } else {
      var error := if reply.Raises? && reply.error.kind != Foreign then reply.error else NO_OUTCOME;
      o := BoundaryFailure(ctx, error, env.script.uuid(|env.log| - 1), env.script.now(|env.log| - 1));
    }
    env.Release();
    durationMs := EffectiveDuration(observed, o.RuntimeTraces());
    BoundaryDuration(observed, o);
  }

  /** The checks after the delegate: a failed release, the deadline, then a cancellation seen meanwhile. */
  method Settle(env: Environment, before: Outcome, durationMs: real, releaseFails: Option<string>, timeoutMs: int) returns (o: Outcome)
    requires before.Valid()
    modifies env
    ensures o.Valid() && o.priorTraces == before.priorTraces && SameSpan(o.trace, before.trace)
    ensures env.log == old(env.log) +
      (if durationMs > timeoutMs as real then [] else [CancelCheck(false, env.script.canceled(|old(env.log)|))])
    ensures o.error.None? ==> o.result == before.result
    ensures o.error ==
      if durationMs > timeoutMs as real then Some(EXPIRED)
      else if releaseFails.Some? then Some(ExecutionError(ControlFailure, releaseFails.value))
      else if before.error.Some? then before.error
      else if env.script.canceled(|old(env.log)|) then Some(CANCELED_DURING)
      else None
  {
    hide Distinct, Map;
    o := before;
    if releaseFails.Some? {
      o := ReplaceError(o, ExecutionError(ControlFailure, releaseFails.value));
    }
    if durationMs > timeoutMs as real {
      o := ReplaceError(o, EXPIRED);
    } else {
      var late := env.IsCanceled(false);
      if late && o.error.None? {
        o := ReplaceError(o, CANCELED_DURING);
      }
    }
  }

  method ExecuteAttempt(env: Environment, ctx: Context, bindingId: string, timeoutMs: int) returns (o: Outcome, durationMs: real)
    requires env.script.Lawful() && ctx.Planned()
    modifies env
    ensures |env.log| > |old(env.log)| && env.log[..|old(env.log)|] == old(env.log)
    ensures AttemptResult(env.script, ctx, |old(env.log)|, env.log[|old(env.log)|..], bindingId, timeoutMs, o, durationMs)
  {
    hide *;
    ghost var k := |env.log|;
    var canceled := env.IsCanceled(true);
    if canceled {
      o, durationMs := BoundaryFailure(ctx, CANCELED_BEFORE, env.script.uuid(|env.log| - 1), env.script.now(|env.log| - 1)), 0.0;
      assert env.log[k..] == [CancelCheck(true, true)];
      NotCalled(env.script, ctx, k, env.log[k..], bindingId, timeoutMs, CANCELED_BEFORE, o);
      return;
    }
    var admission := env.TryAcquire();
    if !admission.Granted? {
      var error := if admission.Refused? then FULL else ExecutionError(ControlFailure, admission.text);
      o, durationMs := BoundaryFailure(ctx, error, env.script.uuid(|env.log| - 1), env.script.now(|env.log| - 1)), 0.0;
      assert env.log[k..] == [CancelCheck(true, false), Admission(admission)];
      NotCalled(env.script, ctx, k, env.log[k..], bindingId, timeoutMs, error, o);
      return;
    }
    var called;
    called, durationMs := Invoke(env, ctx, bindingId);
    o := Settle(env, called, durationMs, admission.releaseFails, timeoutMs);
    assert env.log[k..] == [CancelCheck(true, false), Admission(admission), DelegateCall(bindingId), LeaseRelease] +
      (if durationMs > timeoutMs as real then [] else [CancelCheck(false, env.script.canceled(k + 4))]);
    AttemptSettled(env.script, ctx, k, env.log[k..], bindingId, timeoutMs, called, o, durationMs);
  }

  /** An attempt that ends before its delegate is called. */
  lemma NotCalled(script: Script, ctx: Context, k: nat, events: seq<Event>, bindingId: string, timeoutMs: int, error: ExecutionError, o: Outcome)
    requires ctx.Planned() && (script.canceled(k) || !script.admission(k + 1).Granted?)
    requires events == if script.canceled(k) then [CancelCheck(true, true)] else [CancelCheck(true, false), Admission(script.admission(k + 1))]
    requires error == if script.canceled(k) then CANCELED_BEFORE else if script.admission(k + 1).Refused? then FULL
                      else ExecutionError(ControlFailure, script.admission(k + 1).text)
    requires o == BoundaryFailure(ctx, error, script.uuid(k + |events| - 1), script.now(k + |events| - 1))
    ensures AttemptResult(script, ctx, k, events, bindingId, timeoutMs, o, 0.0)
  {
    hide Outcome.Valid, AttemptDuration, DelegateError;
  }

  lemma AttemptSettled(script: Script, ctx: Context, k: nat, events: seq<Event>, bindingId: string, timeoutMs: int, called: Outcome, o: Outcome, durationMs: real)
    requires ctx.Planned() && !script.canceled(k) && script.admission(k + 1).Granted? && o.Valid()
    requires events == [CancelCheck(true, false), Admission(script.admission(k + 1)), DelegateCall(bindingId), LeaseRelease] +
      (if durationMs > timeoutMs as real then [] else [CancelCheck(false, script.canceled(k + 4))])
    requires durationMs == AttemptDuration(script, k + 2) >= 0.0
    requires var reply := script.delegate(k + 2);
      && called.error == DelegateError(reply)
      && if reply.Returns? then called == reply.outcome
         else called.priorTraces == [] && SameSpan(called.trace, BoundaryTrace(ctx, script.uuid(k + 2), script.now(k + 2), ""))
    requires o.error.None? ==> o.result == called.result
    requires o.priorTraces == called.priorTraces && SameSpan(o.trace, called.trace)
    requires o.error ==
      if durationMs > timeoutMs as real then Some(EXPIRED)
      else if script.admission(k + 1).releaseFails.Some? then Some(ExecutionError(ControlFailure, script.admission(k + 1).releaseFails.value))
      else if called.error.Some? then called.error
      else if script.canceled(k + 4) then Some(CANCELED_DURING)
      else None
    ensures AttemptResult(script, ctx, k, events, bindingId, timeoutMs, o, durationMs)
  {
    hide Outcome.Valid, AttemptDuration;
  }

  /** A failure made at the boundary adds no duration of its own. */
  lemma BoundaryDuration(observed: real, o: Outcome)
    requires observed >= 0.0
    ensures o.RuntimeTraces() == [o.trace] && o.trace.durationMs == 0.0 ==> EffectiveDuration(observed, o.RuntimeTraces()) == observed
    ensures EffectiveDuration(observed, []) == observed
  {
  }

  // ----- The run -----

  function Annotate(o: Outcome, note: ControlNote): (r: Outcome)
    requires o.Valid()
    ensures r.Valid() && r.result == o.result && r.error == o.error && r.priorTraces == o.priorTraces && SameSpan(r.trace, o.trace)
    ensures r.record.None? && r.trace.control == Some(note) && r.trace.retryCount == if note.bindingAttemptNumber > 1 then 1 else 0
  {
    var r := Outcome(o.trace.(retryCount := if note.bindingAttemptNumber > 1 then 1 else 0, control := Some(note)),
                     o.result, o.error, o.priorTraces, None);
    assert SpanIds(r.RuntimeTraces()) == SpanIds(o.RuntimeTraces());
    assert o.trace in o.RuntimeTraces() && forall t :: t in o.priorTraces ==> t in o.RuntimeTraces();
    r
  }

  function AttemptRecord(o: Outcome, note: ControlNote, bindingId: string, durationMs: real, c: Option<Classification>): Attempt {
    Attempt(note.attemptId, note.key, note.attemptNumber, note.bindingAttemptNumber, note.fallbackIndex, bindingId,
            note.bindingAttemptNumber > 1, StatusFor(c), if c.Some? then Some(c.value.kind) else None,
            c.Some? && c.value.retryable, durationMs, o.trace.spanId,
            if o.error.Some? then Some(o.error.value.text) else None, note.timeoutMs, c.Some? && c.value.allowsFallback)
  }

  /** What is written down about an attempt with outcome `o`: its classified error, and the note on its last trace. */
  ghost predicate Noted(s: Settings, a: Attempt, o: Outcome) {
    && a.fallbackIndex < |s.candidates|
    && a.spanId == o.trace.spanId
    && o.trace.retryCount == (if a.isRetry then 1 else 0)
    && o.trace.control == Some(ControlNote(a.attemptId, a.key, a.attemptNumber, a.bindingAttemptNumber, a.fallbackIndex, a.timeoutMs,
                                           a.failureKind, a.status != AttemptCanceled))
    && match o.error
       case None => a.status == AttemptSucceeded
       case Some(e) =>
         var c := EffectiveClassification(s.classifier(e), s.candidates[a.fallbackIndex]);
         && a.error == Some(e.text) && a.status == StatusFor(Some(c))
         && a.failureKind == Some(c.kind) && a.retryable == c.retryable && a.allowsFallback == c.allowsFallback
  }

  /** Attempt `a` with outcome `o` is what happened between events `k` and `next`. */
  ghost predicate Happened(script: Script, log: seq<Event>, ctx: Context, s: Settings, a: Attempt, o: Outcome, k: nat, next: nat) {
    && k < next <= |log|
    && AttemptResult(script, ctx, k, log[k..next], a.bindingId, a.timeoutMs, o, a.durationMs)
    && Noted(s, a, o)
  }

  /** Runs one attempt on the binding at `index` and records it. */
  method RecordAttempt(env: Environment, ctx: Context, s: Settings, index: nat, number: nat, bindingNumber: nat)
    returns (o: Outcome, a: Attempt)
    requires env.script.Lawful() && ctx.Planned() && s.Valid() && index < |s.candidates|
    requires number >= 1 && 1 <= bindingNumber <= s.MaxAttempts(index)
    modifies env
    ensures |env.log| > |old(env.log)| && env.log[..|old(env.log)|] == old(env.log)
    ensures AttemptFits(s, a, number - 1) && a.fallbackIndex == index && a.bindingAttemptNumber == bindingNumber
    ensures Happened(env.script, env.log, ctx, s, a, o, |old(env.log)|, |env.log|)
  {
    hide AttemptResult, Verdict, Outcome.Valid, Outcome.RuntimeTraces, Script.Lawful, AttemptDuration, Distinct, Map, RepeatIsSafe;
    var binding := s.candidates[index];
    var timeoutMs := s.TimeoutFor(index);
    var bare, durationMs := ExecuteAttempt(env, ctx, binding.Id(), timeoutMs);
    ResultFacts(env.script, ctx, |old(env.log)|, env.log[|old(env.log)|..], binding.Id(), timeoutMs, bare, durationMs);
    var c := if bare.error.None? then None else Some(EffectiveClassification(s.classifier(bare.error.value), binding));
    var note := ControlNote(AttemptIdOf(s.key, binding.Id(), number), s.key, number, bindingNumber, index, timeoutMs,
                            if c.Some? then Some(c.value.kind) else None, c.None? || c.value.kind != Canceled);
    o := Annotate(bare, note);
    a := AttemptRecord(o, note, binding.Id(), durationMs, c);
    assert a.status != AttemptSucceeded ==> Classified(s, a);
    AnnotatedResult(env.script, ctx, |old(env.log)|, env.log[|old(env.log)|..], binding.Id(), timeoutMs, bare, o, durationMs);
    assert env.log[|old(env.log)|..|env.log|] == env.log[|old(env.log)|..];
  }

  lemma ResultFacts(script: Script, ctx: Context, k: nat, events: seq<Event>, bindingId: string, timeoutMs: int, o: Outcome, durationMs: real)
    requires AttemptResult(script, ctx, k, events, bindingId, timeoutMs, o, durationMs)
    ensures o.Valid() && durationMs >= 0.0 && (o.error.None? ==> durationMs <= timeoutMs as real)
  {
    hide Outcome.Valid, AttemptDuration, DelegateError, BaseTrace, EarlierTraces;
  }

  lemma AnnotatedResult(script: Script, ctx: Context, k: nat, events: seq<Event>, bindingId: string, timeoutMs: int, o: Outcome, o': Outcome, durationMs: real)
    requires AttemptResult(script, ctx, k, events, bindingId, timeoutMs, o, durationMs)
    requires o'.Valid() && o'.result == o.result && o'.error == o.error && o'.priorTraces == o.priorTraces && SameSpan(o'.trace, o.trace)
    ensures AttemptResult(script, ctx, k, events, bindingId, timeoutMs, o', durationMs)
  {
    hide Outcome.Valid, AttemptLog, Verdict, TimeTaken, BaseTrace, EarlierTraces;
  }

  // ----- What the event log shows -----

  datatype LeasePhase = Idle | Held | Used | Broken

  /** Leases follow acquire, one delegate call, release, with nothing else in between. */
  function Phase(log: seq<Event>): LeasePhase {
    if log == [] then Idle
    else
      match (Phase(log[..|log| - 1]), log[|log| - 1])
      case (Idle, Admission(reply)) => if reply.Granted? then Held else Idle
      case (Held, DelegateCall(_)) => Used
      case (Used, LeaseRelease) => Idle
      case (Idle, CancelCheck(_, _)) => Idle
      case _ => Broken
  }

  /** Every recorded answer is what the signal said at that point. */
  ghost predicate HonestChecks(script: Script, log: seq<Event>, from: nat) {
    forall j :: from <= j < |log| && log[j].CancelCheck? ==> log[j].answer == script.canceled(j)
  }

  /** Every delegate call follows a negative cancellation check and an admission. */
  ghost predicate CheckedCalls(log: seq<Event>, from: nat) {
    forall j :: from <= j < |log| && log[j].DelegateCall? ==>
      from <= j - 2 && log[j - 2] == CancelCheck(true, false) && log[j - 1].Admission?
  }

  /** The part of the log from `from` on: honest cancellation answers, checked delegate calls, and no lease left open. */
  ghost predicate LogOk(script: Script, log: seq<Event>, from: nat) {
    && from <= |log|
    && HonestChecks(script, log, from)
    && CheckedCalls(log, from)
    && Phase(log[from..]) == Idle
  }

  lemma PhaseStep(log: seq<Event>, e: Event)
    ensures Phase(log + [e]) ==
      match (Phase(log), e)
      case (Idle, Admission(reply)) => if reply.Granted? then Held else Idle
      case (Held, DelegateCall(_)) => Used
      case (Used, LeaseRelease) => Idle
      case (Idle, CancelCheck(_, _)) => Idle
      case _ => Broken
  {
    assert (log + [e])[..|log|] == log;
  }

  lemma {:induction false} PhaseAppend(log: seq<Event>, events: seq<Event>)
    requires Phase(log) == Idle
    ensures Phase(log + events) == Phase(events)
  {
    if events == [] {
      assert log + events == log;
    } else {
      var n := |events| - 1;
      PhaseAppend(log, events[..n]);
      assert events == events[..n] + [events[n]];
      assert log + events == (log + events[..n]) + [events[n]];
      PhaseStep(log + events[..n], events[n]);
      PhaseStep(events[..n], events[n]);
    }
  }

  lemma AttemptPhase(script: Script, k: nat, bindingId: string, timeoutMs: int)
    ensures Phase(AttemptLog(script, k, bindingId, timeoutMs)) == Idle
  {
    hide AttemptDuration;
    var events := AttemptLog(script, k, bindingId, timeoutMs);
    assert |events| == 1 || |events| == 2 || |events| == 4 || |events| == 5;
    PhaseStep([], events[0]);
    assert [] + [events[0]] == events[..1] && Phase(events[..1]) == Idle;
    if |events| >= 2 { PhaseAt(events, 1); }
    if |events| >= 4 {
      PhaseAt(events, 2);
      PhaseAt(events, 3);
    }
    if |events| == 5 { PhaseAt(events, 4); }
    assert events[..|events|] == events;
  }

  lemma PhaseAt(log: seq<Event>, i: nat)
    requires i < |log|
    ensures Phase(log[..i + 1]) ==
      match (Phase(log[..i]), log[i])
      case (Idle, Admission(reply)) => if reply.Granted? then Held else Idle
      case (Held, DelegateCall(_)) => Used
      case (Used, LeaseRelease) => Idle
      case (Idle, CancelCheck(_, _)) => Idle
      case _ => Broken
  {
    assert log[..i + 1] == log[..i] + [log[i]];
    PhaseStep(log[..i], log[i]);
  }

  /** The facts about single events, for the events of one attempt. */
  lemma AttemptEventFacts(script: Script, k: nat, bindingId: string, timeoutMs: int, j: nat)
    requires j < |AttemptLog(script, k, bindingId, timeoutMs)|
    ensures var events := AttemptLog(script, k, bindingId, timeoutMs);
      && events[0] == CancelCheck(true, script.canceled(k))
      && (events[j].CancelCheck? ==> events[j].answer == script.canceled(k + j))
      && (events[j].DelegateCall? ==>
            j == 2 && Called(script, k) && events[j] == DelegateCall(bindingId) && events[0] == CancelCheck(true, false) && events[1].Admission?)
      && (events[0] == CancelCheck(true, true) ==> |events| == 1)
      && (j > 0 ==> events[j] != CancelCheck(true, true))
      && (Called(script, k) ==> |events| > 2 && events[2] == DelegateCall(bindingId))
  {
    hide AttemptDuration;
    if j == 0 {
    } else if j == 1 {
    } else if j == 2 {
    } else if j == 3 {
    } else {
      assert j == 4;
    }
  }

  lemma HonestStays(script: Script, log: seq<Event>, from: nat, bindingId: string, timeoutMs: int)
    requires HonestChecks(script, log, from)
    ensures HonestChecks(script, log + AttemptLog(script, |log|, bindingId, timeoutMs), from)
  {
    hide AttemptLog;
    var after := log + AttemptLog(script, |log|, bindingId, timeoutMs);
    forall j | from <= j < |after| && after[j].CancelCheck? ensures after[j].answer == script.canceled(j) {
      if j >= |log| { AttemptEventFacts(script, |log|, bindingId, timeoutMs, j - |log|); }
    }
  }

  lemma CallsStayChecked(script: Script, log: seq<Event>, from: nat, bindingId: string, timeoutMs: int)
    requires from <= |log| && CheckedCalls(log, from)
    ensures CheckedCalls(log + AttemptLog(script, |log|, bindingId, timeoutMs), from)
  {
    hide AttemptLog;
    var events := AttemptLog(script, |log|, bindingId, timeoutMs);
    var after := log + events;
    forall j | from <= j < |after| && after[j].DelegateCall?
      ensures from <= j - 2 && after[j - 2] == CancelCheck(true, false) && after[j - 1].Admission?
    {
      if j >= |log| {
        AttemptEventFacts(script, |log|, bindingId, timeoutMs, j - |log|);
        assert after[|log|] == events[0] && after[|log| + 1] == events[1];
      }
    }
  }

  lemma AttemptKeepsLog(script: Script, log: seq<Event>, from: nat, bindingId: string, timeoutMs: int)
    requires LogOk(script, log, from)
    ensures LogOk(script, log + AttemptLog(script, |log|, bindingId, timeoutMs), from)
  {
    hide AttemptLog, Phase, HonestChecks, CheckedCalls;
    var events := AttemptLog(script, |log|, bindingId, timeoutMs);
    AttemptPhase(script, |log|, bindingId, timeoutMs);
    PhaseAppend(log[from..], events);
    assert (log + events)[from..] == log[from..] + events;
    HonestStays(script, log, from, bindingId, timeoutMs);
    CallsStayChecked(script, log, from, bindingId, timeoutMs);
  }

  /** With a cancellation that is never withdrawn, no delegate call starts once any check has answered yes. */
  lemma NoCallAfterCancellation(script: Script, log: seq<Event>, from: nat, j: nat)
    requires LogOk(script, log, from) && script.Monotone()
    requires from <= j < |log| && log[j].DelegateCall?
    ensures forall i :: from <= i < j && log[i].CancelCheck? ==> !log[i].answer
  {
    assert log[j - 2] == CancelCheck(true, false) && log[j - 1].Admission? && !script.canceled(j - 2);
  }

  ghost function EventsOf(log: seq<Event>, isGrant: bool): nat {
    if log == [] then 0
    else
      var last := log[|log| - 1];
      EventsOf(log[..|log| - 1], isGrant)
      + (if (isGrant && last.Admission? && last.reply.Granted?) || (!isGrant && last.LeaseRelease?) then 1 else 0)
  }

  /** Over a log that ends idle, every granted lease was released exactly once. */
  lemma {:induction false} LeasesBalance(log: seq<Event>)
    requires Phase(log) != Broken
    ensures EventsOf(log, true) == EventsOf(log, false) + (if Phase(log) == Idle then 0 else 1)
  {
    if log != [] {
      LeasesBalance(log[..|log| - 1]);
    }
  }

  // ----- The whole execution -----

  /** The attempt at binding `index`, try `k`, is what the rules call for next. */
  ghost predicate Next(s: Settings, attempts: seq<Attempt>, index: nat, k: nat) {
    && index < |s.candidates| && 1 <= k <= s.MaxAttempts(index)
    && if attempts == [] then index == 0 && k == 1
       else
         && IsRun(s, attempts)
         && var last := attempts[|attempts| - 1];
            last.fallbackIndex < |s.candidates| && last.status != AttemptSucceeded
            && if MayRetry(s, last) then index == last.fallbackIndex && k == last.bindingAttemptNumber + 1
               else last.allowsFallback && index == last.fallbackIndex + 1 && k == 1
  }

  lemma NextExtendsRun(s: Settings, attempts: seq<Attempt>, index: nat, k: nat, a: Attempt)
    requires Next(s, attempts, index, k) && AttemptFits(s, a, |attempts|)
    requires a.fallbackIndex == index && a.bindingAttemptNumber == k
    ensures IsRun(s, attempts + [a])
  {
    var more := attempts + [a];
    forall i | 0 <= i < |more| ensures AttemptFits(s, more[i], i) {
      if i < |attempts| { assert more[i] == attempts[i]; }
    }
    forall i | 0 <= i < |more| - 1 ensures Follows(s, more[i], more[i + 1]) {
      if i < |attempts| - 1 { assert Follows(s, attempts[i], attempts[i + 1]); }
    }
  }

  /** Attempts and traces belong together: each attempt's span is among the traces, the last one's is the last. */
  ghost predicate Traced(attempts: seq<Attempt>, traces: seq<Trace>) {
    && (forall a :: a in attempts ==> a.spanId in SpanIds(traces))
    && (attempts == [] <==> traces == [])
    && (attempts != [] ==> attempts[|attempts| - 1].spanId == traces[|traces| - 1].spanId)
  }

  lemma TracedStep(attempts: seq<Attempt>, traces: seq<Trace>, a: Attempt, o: Outcome)
    requires Traced(attempts, traces) && a.spanId == o.trace.spanId
    ensures Traced(attempts + [a], traces + o.RuntimeTraces())
  {
    var all := traces + o.RuntimeTraces();
    assert SpanIds(all)[|all| - 1] == o.trace.spanId;
    forall x | x in attempts + [a] ensures x.spanId in SpanIds(all) {
      if x in attempts {
        var i :| 0 <= i < |traces| && SpanIds(traces)[i] == x.spanId;
        assert SpanIds(all)[i] == x.spanId;
      }
    }
  }

  /** What a run of attempts left: each attempt with its outcome, and the log positions where they began and the last one ended. */
  datatype Trail = Trail(attempts: seq<Attempt>, outcomes: seq<Outcome>, starts: seq<nat>) {
    function Traces(): seq<Trace> {
      FlatMap((o: Outcome) => o.RuntimeTraces(), outcomes)
    }
  }

  /** The run's attempts are exactly what happened from event `from` to the end of the log, one after the other. */
  ghost predicate Trailed(script: Script, log: seq<Event>, from: nat, ctx: Context, s: Settings, t: Trail) {
    && |t.outcomes| == |t.attempts| && |t.starts| == |t.attempts| + 1
    && t.starts[0] == from && t.starts[|t.attempts|] == |log|
    && forall i :: 0 <= i < |t.attempts| ==>
         Happened(script, log, ctx, s, t.attempts[i], t.outcomes[i], t.starts[i], t.starts[i + 1])
  }

  function Longer(t: Trail, a: Attempt, o: Outcome, end: nat): Trail {
    Trail(t.attempts + [a], t.outcomes + [o], t.starts + [end])
  }

  lemma TrailStep(script: Script, before: seq<Event>, log: seq<Event>, from: nat, ctx: Context, s: Settings, t: Trail, a: Attempt, o: Outcome)
    requires Trailed(script, before, from, ctx, s, t) && |before| < |log| && log[..|before|] == before
    requires Happened(script, log, ctx, s, a, o, |before|, |log|)
    ensures Trailed(script, log, from, ctx, s, Longer(t, a, o, |log|))
    ensures Longer(t, a, o, |log|).Traces() == t.Traces() + o.RuntimeTraces()
  {
    hide AttemptResult, Noted;
    var n, more := |t.attempts|, Longer(t, a, o, |log|);
    assert more.outcomes[..n] == t.outcomes;
    forall i | 0 <= i < n + 1 ensures Happened(script, log, ctx, s, more.attempts[i], more.outcomes[i], more.starts[i], more.starts[i + 1]) {
      if i < n {
        assert Happened(script, before, ctx, s, t.attempts[i], t.outcomes[i], t.starts[i], t.starts[i + 1]);
        SliceStays(before, log, t.starts[i], t.starts[i + 1]);
      }
    }
  }

  lemma SliceStays(before: seq<Event>, log: seq<Event>, i: nat, j: nat)
    requires i <= j <= |before| <= |log| && log[..|before|] == before
    ensures log[i..j] == before[i..j]
  {
    forall k | i <= k < j ensures log[k] == before[k] { assert log[..|before|][k] == before[k]; }
  }

  /** Fresh span ids never collide: those issued so far come from events before `to`. */
  ghost predicate SpansIssued(script: Script, traces: seq<Trace>, to: nat) {
    && (forall x :: x in SpanIds(traces) ==> exists k :: 0 <= k < to && x in script.SpansAt(k))
    && (script.FreshSpans() ==> Distinct(SpanIds(traces)))
  }

  /** The spans of an attempt are those of the event that issued them: a fresh one, or the delegate's. */
  lemma SpansOfAttempt(script: Script, ctx: Context, k: nat, events: seq<Event>, bindingId: string, timeoutMs: int, o: Outcome, durationMs: real)
    requires AttemptResult(script, ctx, k, events, bindingId, timeoutMs, o, durationMs)
    ensures var j := IssuedAt(script, k);
      && k <= j < k + |events|
      && (|| SpanIds(o.RuntimeTraces()) == [script.uuid(j)]
          || (script.delegate(j).Returns? && SpanIds(o.RuntimeTraces()) == SpanIds(script.delegate(j).outcome.RuntimeTraces())))
  {
    hide Outcome.Valid, AttemptDuration, Verdict;
    var base := BaseTrace(script, ctx, k);
    assert o.trace.spanId == base.spanId;
    assert SpanIds(o.RuntimeTraces()) == SpanIds(EarlierTraces(script, k)) + [base.spanId];
    if Called(script, k) && script.delegate(k + 2).Returns? {
      var d := script.delegate(k + 2).outcome;
      assert SpanIds(d.RuntimeTraces()) == SpanIds(d.priorTraces) + [d.trace.spanId];
    }
  }

  lemma SpansStep(script: Script, traces: seq<Trace>, o: Outcome, from: nat, j: nat, to: nat)
    requires SpansIssued(script, traces, from) && from <= j < to
    requires SpanIds(o.RuntimeTraces()) == [script.uuid(j)]
          || (script.delegate(j).Returns? && SpanIds(o.RuntimeTraces()) == SpanIds(script.delegate(j).outcome.RuntimeTraces()))
    ensures SpansIssued(script, traces + o.RuntimeTraces(), to)
  {
    hide Outcome.RuntimeTraces, Distinct, Script.FreshSpans, Map;
    var before, added := SpanIds(traces), SpanIds(o.RuntimeTraces());
    SpanIdsParts(traces, o.RuntimeTraces());
    assert forall x :: x in added ==> x in script.SpansAt(j);
    if script.FreshSpans() {
      FreshPart(script, j, added);
      forall x | x in Elements(before) ensures x !in Elements(added) {
        var k :| 0 <= k < from && x in script.SpansAt(k);
        FreshApart(script, k, j, x);
      }
      DistinctParts(before, added);
    }
  }

  lemma SpanIdsParts(a: seq<Trace>, b: seq<Trace>)
    ensures SpanIds(a + b) == SpanIds(a) + SpanIds(b)
  {
  }

  lemma FreshPart(script: Script, j: nat, spans: seq<string>)
    requires script.FreshSpans()
    requires spans == [script.uuid(j)] || (script.delegate(j).Returns? && spans == SpanIds(script.delegate(j).outcome.RuntimeTraces()))
    ensures Distinct(spans)
  {
    hide Map, Outcome.RuntimeTraces;
    assert Distinct(script.SpansAt(j));
    if spans != [script.uuid(j)] {
      DistinctParts([script.uuid(j)], spans);
    }
  }

  lemma FreshApart(script: Script, k: nat, j: nat, x: string)
    requires script.FreshSpans() && k < j && x in script.SpansAt(k)
    ensures x !in script.SpansAt(j)
  {
    hide Script.SpansAt;
    assert Elements(script.SpansAt(k)) !! Elements(script.SpansAt(j));
    assert x in Elements(script.SpansAt(k)) && x !in Elements(script.SpansAt(j));
  }

  /** An attempt begun after a cancellation is marked canceled and is final, under the default classifier. */
  ghost predicate CanceledIsLast(log: seq<Event>, from: nat, attempts: seq<Attempt>) {
    forall j :: from <= j < |log| && log[j] == CancelCheck(true, true) ==>
      j == |log| - 1 && attempts != [] && attempts[|attempts| - 1].status == AttemptCanceled
  }

  /** `_finalize_outcome`: constructing the record and the outcome runs their checks. */
  method Finalize(ctx: Context, s: Settings, attempts: seq<Attempt>, traces: seq<Trace>, o: Outcome) returns (r: Result<Outcome, ExecutionError>)
    requires ctx.Planned() && s.candidates != [] && attempts != [] && IsRun(s, attempts) && Traced(attempts, traces)
    requires o.Valid() && traces[|traces| - 1] == o.trace
    ensures r.Ok? <==> Distinct(Map(BindingKey, s.candidates)) && Distinct(SpanIds(traces))
    ensures r.Ok? ==>
      && r.value.Admissible() && r.value.RuntimeTraces() == traces && r.value.result == o.result && r.value.error == o.error
      && r.value.record == Some(RecordFor(s, ctx.runId, ctx.planId.value, attempts))
      && RecordAdmissible(r.value.record.value)
      && RecordMatches(r.value.record.value, s, ctx.runId, ctx.planId.value, traces)
  {
    hide IsRun, CountRetries, MaxFallback;
    var record := RecordFor(s, ctx.runId, ctx.planId.value, attempts);
    RunRecordAdmissible(s, ctx.runId, ctx.planId.value, attempts);
    var ok := CheckControlRecord(record);
    if !ok {
      return Err(ExecutionError(Foreign, "execution control record is inconsistent"));
    }
    var final := Outcome(traces[|traces| - 1], o.result, o.error, traces[..|traces| - 1], Some(record));
    assert final.RuntimeTraces() == traces;
    if !final.Admissible() {
      return Err(ExecutionError(Foreign, "execution outcome trace span_id values must be unique"));
    }
    RunMatches(s, ctx.runId, ctx.planId.value, attempts, traces);
    return Ok(final);
  }

  lemma RunMatches(s: Settings, runId: string, planId: string, attempts: seq<Attempt>, traces: seq<Trace>)
    requires s.candidates != [] && IsRun(s, attempts) && Traced(attempts, traces)
    ensures RecordMatches(RecordFor(s, runId, planId, attempts), s, runId, planId, traces)
  {
    forall a | a in attempts ensures a.attemptId == AttemptIdOf(s.key, a.bindingId, a.attemptNumber) {
      var i :| 0 <= i < |attempts| && attempts[i] == a;
      AttemptFacts(s, a, i);
    }
  }

  /** The state between attempts, relative to the log position where the execution began. */
  ghost predicate Between(env: Environment, from: nat, ctx: Context, s: Settings, t: Trail)
    reads env
  {
    && from <= |env.log|
    && Trailed(env.script, env.log, from, ctx, s, t)
    && Traced(t.attempts, t.Traces())
    && LogOk(env.script, env.log, from)
    && SpansIssued(env.script, t.Traces(), |env.log|)
    && (s.UsesDefaultClassifier() ==> CanceledIsLast(env.log, from, t.attempts))
  }

  /** Under the default classifier a canceled attempt allows nothing after it. */
  lemma CanceledStops(s: Settings, a: Attempt, i: nat)
    requires s.UsesDefaultClassifier() && AttemptFits(s, a, i) && a.failureKind == Some(Canceled)
    ensures a.status == AttemptCanceled && !a.retryable && !a.allowsFallback
  {
  }

  /** An attempt begun after cancellation fails as canceled, and the default classifier keeps that verdict. */
  lemma CanceledKind(script: Script, ctx: Context, s: Settings, k: nat, events: seq<Event>, a: Attempt, o: Outcome)
    requires s.UsesDefaultClassifier() && Noted(s, a, o)
    requires AttemptResult(script, ctx, k, events, a.bindingId, a.timeoutMs, o, a.durationMs)
    ensures script.canceled(k) ==> a.failureKind == Some(Canceled)
  {
    hide Outcome.Valid, AttemptDuration, BaseTrace, EarlierTraces, SameSpan, AttemptLog, TimeTaken;
  }

  lemma NoCancellationBefore(s: Settings, before: seq<Event>, from: nat, attempts: seq<Attempt>, index: nat, k: nat)
    requires s.UsesDefaultClassifier() && Next(s, attempts, index, k) && CanceledIsLast(before, from, attempts)
    ensures forall j :: from <= j < |before| ==> before[j] != CancelCheck(true, true)
  {
    if attempts != [] {
      var last := attempts[|attempts| - 1];
      assert AttemptFits(s, last, |attempts| - 1);
      if last.status == AttemptCanceled {
        CanceledStops(s, last, |attempts| - 1);
        assert false;
      }
    }
  }

  lemma CancellationStep(script: Script, s: Settings, before: seq<Event>, from: nat, attempts: seq<Attempt>, a: Attempt, index: nat, k: nat)
    requires s.UsesDefaultClassifier() && Next(s, attempts, index, k) && CanceledIsLast(before, from, attempts) && from <= |before|
    requires AttemptFits(s, a, |attempts|)
    requires script.canceled(|before|) ==> a.failureKind == Some(Canceled)
    ensures CanceledIsLast(before + AttemptLog(script, |before|, a.bindingId, a.timeoutMs), from, attempts + [a])
  {
    hide Next, AttemptLog, AttemptFits;
    NoCancellationBefore(s, before, from, attempts, index, k);
    var events := AttemptLog(script, |before|, a.bindingId, a.timeoutMs);
    var after := before + events;
    if a.failureKind == Some(Canceled) { CanceledStops(s, a, |attempts|); }
    forall j | from <= j < |after| && after[j] == CancelCheck(true, true) ensures j == |after| - 1 && a.status == AttemptCanceled {
      assert j >= |before|;
      AttemptEventFacts(script, |before|, a.bindingId, a.timeoutMs, j - |before|);
    }
  }

  /** What one attempt does to everything kept between attempts. */
  lemma BetweenStep(script: Script, before: seq<Event>, log: seq<Event>, from: nat, ctx: Context, s: Settings, t: Trail,
                    a: Attempt, o: Outcome, index: nat, k: nat)
    requires from <= |before| < |log| && log[..|before|] == before
    requires Next(s, t.attempts, index, k) && AttemptFits(s, a, |t.attempts|) && Happened(script, log, ctx, s, a, o, |before|, |log|)
    requires Trailed(script, before, from, ctx, s, t) && Traced(t.attempts, t.Traces()) && LogOk(script, before, from)
    requires SpansIssued(script, t.Traces(), |before|) && (s.UsesDefaultClassifier() ==> CanceledIsLast(before, from, t.attempts))
    ensures var more := Longer(t, a, o, |log|);
      && Trailed(script, log, from, ctx, s, more) && Traced(more.attempts, more.Traces()) && LogOk(script, log, from)
      && SpansIssued(script, more.Traces(), |log|) && (s.UsesDefaultClassifier() ==> CanceledIsLast(log, from, more.attempts))
      && more.Traces() == t.Traces() + o.RuntimeTraces()
  {
    hide Trailed, Traced, LogOk, SpansIssued, CanceledIsLast, AttemptResult, AttemptLog, Next, AttemptFits, Trail.Traces, Outcome.RuntimeTraces;
    TrailStep(script, before, log, from, ctx, s, t, a, o);
    TracedStep(t.attempts, t.Traces(), a, o);
    assert log[|before|..|log|] == log[|before|..];
    LogOfResult(script, ctx, |before|, log[|before|..], a.bindingId, a.timeoutMs, o, a.durationMs);
    assert log == before + log[|before|..];
    AttemptKeepsLog(script, before, from, a.bindingId, a.timeoutMs);
    SpansOfAttempt(script, ctx, |before|, log[|before|..], a.bindingId, a.timeoutMs, o, a.durationMs);
    SpansStep(script, t.Traces(), o, |before|, IssuedAt(script, |before|), |log|);
    if s.UsesDefaultClassifier() {
      CanceledKind(script, ctx, s, |before|, log[|before|..], a, o);
      CancellationStep(script, s, before, from, t.attempts, a, index, k);
    }
  }

  lemma LogOfResult(script: Script, ctx: Context, k: nat, events: seq<Event>, bindingId: string, timeoutMs: int, o: Outcome, durationMs: real)
    requires AttemptResult(script, ctx, k, events, bindingId, timeoutMs, o, durationMs)
    ensures o.Valid() && events == AttemptLog(script, k, bindingId, timeoutMs)
  {
  }

  /** Runs the attempt that is due and adds it to the run. */
  method NextAttempt(env: Environment, ctx: Context, s: Settings, ghost from: nat, index: nat, k: nat,
                     attempts: seq<Attempt>, traces: seq<Trace>, ghost t: Trail)
    returns (o: Outcome, attempts': seq<Attempt>, traces': seq<Trace>, ghost t': Trail)
    requires env.script.Lawful() && ctx.Planned() && s.Valid() && Next(s, attempts, index, k)
    requires Between(env, from, ctx, s, t) && t.attempts == attempts && t.Traces() == traces
    modifies env
    ensures |attempts'| == |attempts| + 1 && attempts'[..|attempts|] == attempts && IsRun(s, attempts')
    ensures var a := attempts'[|attempts|]; a.fallbackIndex == index && a.bindingAttemptNumber == k && Noted(s, a, o)
    ensures |env.log| > |old(env.log)| && env.log[..|old(env.log)|] == old(env.log)
    ensures Between(env, from, ctx, s, t') && t'.attempts == attempts' && t'.Traces() == traces'
    ensures t'.outcomes == t.outcomes + [o]
    ensures o.Valid() && traces' != [] && traces'[|traces'| - 1] == o.trace
  {
    hide AttemptFits, IsRun, LogOk, SpansIssued, Traced, Trailed, AttemptResult, Noted, Verdict, Script.Lawful, Next, CanceledIsLast, Trail.Traces;
    ghost var before := env.log;
    NextBounds(s, attempts, index, k);
    var a;
    o, a := RecordAttempt(env, ctx, s, index, |attempts| + 1, k);
    NextExtendsRun(s, attempts, index, k, a);
    BetweenStep(env.script, before, env.log, from, ctx, s, t, a, o, index, k);
    LogOfResult(env.script, ctx, |before|, env.log[|before|..|env.log|], a.bindingId, a.timeoutMs, o, a.durationMs);
    attempts', traces', t' := attempts + [a], traces + o.RuntimeTraces(), Longer(t, a, o, |env.log|);
  }

  /** The two loops: attempts on one binding, and bindings one after the other. */
  method RunAttempts(env: Environment, ctx: Context, s: Settings) returns (r: Result<Outcome, ExecutionError>, ghost t: Trail)
    requires env.script.Lawful() && ctx.Planned() && s.Valid()
    modifies env
    ensures |old(env.log)| <= |env.log| && env.log[..|old(env.log)|] == old(env.log)
    ensures Concluded(env.script, env.log, |old(env.log)|, ctx, s, t)
    ensures r.Ok? <==> Distinct(Map(BindingKey, s.candidates)) && Distinct(SpanIds(t.Traces()))
    ensures r.Ok? ==> Finalized(ctx, s, t, r.value)
  {
    hide *;
    ghost var from := |env.log|;
    var attempts: seq<Attempt> := [];
    var allTraces: seq<Trace> := [];
    var index := 0;
    t := Trail([], [], [from]);
    EmptyBetween(env, from, ctx, s);
    FirstIsNext(s);
    while index < |s.candidates|
      invariant Next(s, attempts, index, 1)
      invariant Between(env, from, ctx, s, t) && t.attempts == attempts && t.Traces() == allTraces
      invariant |env.log| >= from && env.log[..from] == old(env.log)
      decreases |s.candidates| - index
    {
      var maxAttempts := s.MaxAttempts(index);
      NextBounds(s, attempts, index, 1);
      var k := 1;
      var o: Outcome;
      while true
        invariant 1 <= k <= maxAttempts && Next(s, attempts, index, k)
        invariant Between(env, from, ctx, s, t) && t.attempts == attempts && t.Traces() == allTraces
        invariant |env.log| >= from && env.log[..from] == old(env.log)
        decreases maxAttempts - k
      {
        ghost var outcomes := t.outcomes;
        o, attempts, allTraces, t := NextAttempt(env, ctx, s, from, index, k, attempts, allTraces, t);
        var a := attempts[|attempts| - 1];
        NotedFacts(s, a, o);
        if o.error.None? {
          SuccessIsFinal(s, a);
          r := Conclude(env, ctx, s, from, attempts, allTraces, t, o);
          return r, t;
        }
        AfterFailure(s, attempts, index, k, EffectiveClassification(s.classifier(o.error.value), s.candidates[index]));
        if a.retryable && k < maxAttempts {
          k := k + 1;
          continue;
        }
        break;
      }
      var c := EffectiveClassification(s.classifier(o.error.value), s.candidates[index]);
      if c.allowsFallback && index + 1 < |s.candidates| {
        index := index + 1;
        continue;
      }
      r := Conclude(env, ctx, s, from, attempts, allTraces, t, o);
      return r, t;
    }
    NextBounds(s, attempts, index, 1);
    assert false;
  }

  lemma NotedFacts(s: Settings, a: Attempt, o: Outcome)
    requires Noted(s, a, o)
    ensures a.fallbackIndex < |s.candidates| && (a.status == AttemptSucceeded <==> o.error.None?)
    ensures o.error.Some? ==>
      a.allowsFallback == EffectiveClassification(s.classifier(o.error.value), s.candidates[a.fallbackIndex]).allowsFallback
  {
  }

  lemma SuccessIsFinal(s: Settings, a: Attempt)
    requires a.fallbackIndex < |s.candidates| && a.status == AttemptSucceeded
    ensures Final(s, a)
  {
  }

  lemma FirstIsNext(s: Settings)
    requires s.Valid()
    ensures Next(s, [], 0, 1)
    ensures forall i: nat :: i < |s.candidates| ==> s.MaxAttempts(i) >= 1
  {
    assert forall i :: 0 <= i < |s.candidates| ==> s.candidates[i].Valid();
  }

  /** After a failed attempt exactly one of three things happens: a retry, the next binding, or the end. */
  lemma AfterFailure(s: Settings, attempts: seq<Attempt>, index: nat, k: nat, c: Classification)
    requires s.Valid() && attempts != [] && IsRun(s, attempts) && index < |s.candidates|
    requires var a := attempts[|attempts| - 1];
      a.fallbackIndex == index && a.bindingAttemptNumber == k && a.status != AttemptSucceeded && a.allowsFallback == c.allowsFallback
    ensures attempts[|attempts| - 1].retryable && k < s.MaxAttempts(index) ==> Next(s, attempts, index, k + 1)
    ensures !(attempts[|attempts| - 1].retryable && k < s.MaxAttempts(index)) ==>
      && (c.allowsFallback && index + 1 < |s.candidates| ==> Next(s, attempts, index + 1, 1))
      && (!(c.allowsFallback && index + 1 < |s.candidates|) ==> Final(s, attempts[|attempts| - 1]))
  {
    FirstIsNext(s);
  }

  lemma NextBounds(s: Settings, attempts: seq<Attempt>, index: nat, k: nat)
    requires Next(s, attempts, index, k)
    ensures index < |s.candidates| && 1 <= k <= s.MaxAttempts(index)
  {
  }

  /** Closes the run: the outcome is finalized and everything promised about it is collected. */
  method Conclude(env: Environment, ctx: Context, s: Settings, ghost from: nat, attempts: seq<Attempt>, traces: seq<Trace>, ghost t: Trail, o: Outcome)
    returns (r: Result<Outcome, ExecutionError>)
    requires ctx.Planned() && s.candidates != [] && attempts != [] && IsRun(s, attempts)
    requires Between(env, from, ctx, s, t) && t.attempts == attempts && t.Traces() == traces
    requires t.outcomes != [] && t.outcomes[|t.outcomes| - 1] == o
    requires o.Valid() && traces != [] && traces[|traces| - 1] == o.trace
    requires attempts[|attempts| - 1].fallbackIndex < |s.candidates| && Final(s, attempts[|attempts| - 1])
    ensures Concluded(env.script, env.log, from, ctx, s, t)
    ensures r.Ok? <==> Distinct(Map(BindingKey, s.candidates)) && Distinct(SpanIds(t.Traces()))
    ensures r.Ok? ==> Finalized(ctx, s, t, r.value)
  {
    hide IsRun, Final, LogOk, Traced, Trailed, RecordFor, RecordAdmissible, RecordMatches, CanceledIsLast, Distinct, Map, Outcome.Valid, Outcome.Admissible,
      Trail.Traces, Outcome.RuntimeTraces, Script.FreshSpans;
    r := Finalize(ctx, s, attempts, traces, o);
  }

  /** What every run promises, finalized or not. */
  ghost predicate Concluded(script: Script, log: seq<Event>, from: nat, ctx: Context, s: Settings, t: Trail) {
    && Trailed(script, log, from, ctx, s, t)
    && IsRun(s, t.attempts)
    && t.attempts[|t.attempts| - 1].fallbackIndex < |s.candidates|
    && Final(s, t.attempts[|t.attempts| - 1])
    && Traced(t.attempts, t.Traces())
    && LogOk(script, log, from)
    && (s.UsesDefaultClassifier() ==> CanceledIsLast(log, from, t.attempts))
    && (script.FreshSpans() ==> Distinct(SpanIds(t.Traces())))
  }

  /** The finalized outcome: the last attempt's result or error, every trace of the run, and a record that passes both checks. */
  ghost predicate Finalized(ctx: Context, s: Settings, t: Trail, o: Outcome) {
    && ctx.Planned() && s.candidates != [] && t.attempts != [] && t.outcomes != []
    && o.Admissible() && o.RuntimeTraces() == t.Traces()
    && o.result == t.outcomes[|t.outcomes| - 1].result && o.error == t.outcomes[|t.outcomes| - 1].error
    && o.record == Some(RecordFor(s, ctx.runId, ctx.planId.value, t.attempts))
    && RecordAdmissible(o.record.value)
    && RecordMatches(o.record.value, s, ctx.runId, ctx.planId.value, o.RuntimeTraces())
  }

  lemma EmptyBetween(env: Environment, from: nat, ctx: Context, s: Settings)
    requires from == |env.log|
    ensures Between(env, from, ctx, s, Trail([], [], [from])) && Trail([], [], [from]).Traces() == []
  {
    assert env.log[from..] == [];
  }

  predicate FallbacksGiven(ctx: Context) {
    ctx.Planned() && Map(BindingKey, ctx.fallbacks) == ctx.node.value.fallbackBindingIds
  }

  /**
   * One node under failure control. A call that is not a planned one with its fallback bindings is refused untouched.
   * Otherwise the attempts of the run are what happened in the log, and the outcome is finalized exactly when neither
   * binding ids repeat nor span ids collide.
   */
  method Execute(env: Environment, ctx: Context, classifier: Classifier) returns (r: Result<Outcome, ExecutionError>, ghost t: Trail)
    requires env.script.Lawful()
    requires ctx.Planned() ==> ctx.Settings(classifier).Valid()
    modifies env
    ensures !FallbacksGiven(ctx) ==> r.Err? && env.log == old(env.log)
    ensures FallbacksGiven(ctx) ==>
      var s := ctx.Settings(classifier);
      && |old(env.log)| <= |env.log| && env.log[..|old(env.log)|] == old(env.log)
      && Concluded(env.script, env.log, |old(env.log)|, ctx, s, t)
      && (r.Ok? <==> Distinct(Map(BindingKey, s.candidates)) && Distinct(SpanIds(t.Traces())))
      && (r.Ok? ==> Finalized(ctx, s, t, r.value))
  {
    hide Concluded, Finalized, Map, Distinct, Script.Lawful;
    t := Trail([], [], [|env.log|]);
    if !ctx.Planned() || Map(BindingKey, ctx.fallbacks) != ctx.node.value.fallbackBindingIds {
      return Err(ExecutionError(ControlFailure, "not a planned node with its fallback bindings")), t;
    }
    r, t := RunAttempts(env, ctx, ctx.Settings(classifier));
  }
}
