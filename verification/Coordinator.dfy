/** Running a validated plan node by node (execution/coordinator.py). */
module Coordinator {
  import opened Collections
  import opened Topology
  import opened Issues
  import opened InputModel
  import opened PlanModel
  import opened PlanValidation
  import opened InputComposition
  import opened RuntimeModel
  import opened ControlModel
  import opened ControlRuns
  import Json

  // ----- The executor seen from a run -----

  datatype ExecutorReply = Returned(outcome: Outcome) | Raised(error: ExecutionError)

  /** What one call hands to the executor. */
  datatype NodeCall = NodeCall(
    node: ExecutionNode, binding: ServiceBinding, fallbacks: seq<ServiceBinding>, bundle: CellInputBundle,
    children: Option<seq<CellResult>>)

  class ExecutorPort {
    const script: nat -> ExecutorReply
    var calls: seq<NodeCall>

    constructor (script: nat -> ExecutorReply)
      ensures this.script == script && calls == []
    {
      this.script, calls := script, [];
    }

    method Execute(call: NodeCall) returns (reply: ExecutorReply)
      modifies this
      ensures reply == script(|old(calls)|) && calls == old(calls) + [call]
    {
      reply := script(|calls|);
      calls := calls + [call];
    }
  }

  // ----- What a run is about -----

  /** The plan and the fixed surroundings of a run. `traceAccepted` stands for the trace checks against the plan. */
  datatype Run = Run(plan: ExecutionPlan, runId: string, registry: set<string>, reader: RequestReader, traceAccepted: Trace -> bool)

  type Results = map<string, CellResult>

  datatype NodeError =
    | NotRegistered(cellId: string)
    | Composition(problem: CompositionError)
    | ExecutorFailed(error: ExecutionError)
    | RecordMismatch
    | TraceRejected
    | ResultMismatch
    | RootMissing

  /** The dependencies' results in declared order; no list at all for a node without dependencies. */
  function ChildResults(dependencies: seq<string>, results: Results): Option<seq<CellResult>>
    requires forall d :: d in dependencies ==> d in results
  {
    if dependencies == [] then None
    else Some(seq(|dependencies|, i requires 0 <= i < |dependencies| => results[dependencies[i]]))
  }

  function CallSettings(call: NodeCall, run: Run): Settings {
    Settings(call.node, [call.binding] + call.fallbacks, KeyOf(run.runId, run.plan.planId, call.node.nodeId), DefaultClassifier)
  }

  /**
   * A planned node with its own bindings, its dependencies' stored results, and a checked bundle holding the node's
   * references with the resolver's answers and the request read from them.
   */
  ghost predicate CallFits(call: NodeCall, run: Run, script: ResolverScript, firsts: seq<ReferenceId>, stored: set<string>, results: Results) {
    var refs, ids := PlanReferences(run.plan), call.node.inputReferenceIds;
    && call.node in run.plan.nodes
    && call.node.cellId in run.registry
    && call.binding.Id() == call.node.bindingId && call.binding in run.plan.serviceBindings
    && Map(BindingKey, call.fallbacks) == call.node.fallbackBindingIds
    && Composed(call.node, run.reader, call.bundle) && |call.bundle.inputs| == |ids|
    && (forall i :: 0 <= i < |ids| ==>
          && ids[i] in refs && ids[i] in firsts
          && call.bundle.inputs[i].reference == refs[ids[i]]
          && Answer(refs, script, firsts, ids[i]) == Found(call.bundle.inputs[i].snapshot))
    && (forall d :: d in call.node.dependencies ==> d in stored && d in results)
    && call.children == ChildResults(call.node.dependencies, results)
  }

  /** The executor's answer is accepted: no error, a matching control record if any, traces and result that fit the call. */
  ghost predicate Accepted(call: NodeCall, run: Run, reply: ExecutorReply) {
    && reply.Returned?
    && (reply.outcome.record.Some? ==>
          RecordMatches(reply.outcome.record.value, CallSettings(call, run), run.runId, run.plan.planId, reply.outcome.RuntimeTraces()))
    && (forall t :: t in reply.outcome.RuntimeTraces() ==> run.traceAccepted(t))
    && reply.outcome.error.None? && reply.outcome.result.Some?
    && reply.outcome.result.value.cellId == call.node.cellId
    && reply.outcome.result.value.target == call.bundle.request.target
    && reply.outcome.result.value.horizon == call.bundle.request.horizon
  }

  // ----- Checking one answer -----

  /** `validate_execution_control_record`. */
  method CheckRecordMatches(r: ControlRecord, s: Settings, runId: string, planId: string, traces: seq<Trace>) returns (ok: bool)
    requires s.candidates != []
    ensures ok <==> RecordMatches(r, s, runId, planId, traces)
  {
    hide Map;
    if r.controlKey != s.key || r.key != s.key || r.runId != runId || r.planId != planId || r.nodeId != s.node.nodeId
       || r.primaryBindingId != s.candidates[0].Id() || r.fallbackBindingIds != Map(BindingKey, s.candidates[1..])
    {
      return false;
    }
    for i := 0 to |r.attempts|
      invariant forall j :: 0 <= j < i ==>
        r.attempts[j].spanId in SpanIds(traces) &&
        r.attempts[j].attemptId == AttemptIdOf(s.key, r.attempts[j].bindingId, r.attempts[j].attemptNumber)
    {
      var a := r.attempts[i];
      if a.spanId !in SpanIds(traces) || a.attemptId != AttemptIdOf(s.key, a.bindingId, a.attemptNumber) {
        assert a in r.attempts;
        return false;
      }
    }
    return traces != [] && r.attempts != [] && r.attempts[|r.attempts| - 1].spanId == traces[|traces| - 1].spanId;
  }

  /** What is wrong with a reply, if anything: the first check that it fails. */
  ghost function Complaint(call: NodeCall, run: Run, reply: ExecutorReply): Option<NodeError> {
    match reply
    case Raised(e) => Some(ExecutorFailed(e))
    case Returned(o) =>
      if o.record.Some? && !RecordMatches(o.record.value, CallSettings(call, run), run.runId, run.plan.planId, o.RuntimeTraces()) then
        Some(RecordMismatch)
      else if exists t :: t in o.RuntimeTraces() && !run.traceAccepted(t) then Some(TraceRejected)
      else if o.error.Some? then Some(ExecutorFailed(o.error.value))
      else if o.result.None? then Some(ExecutorFailed(NO_RESULT))
      else if o.result.value.cellId != call.node.cellId || o.result.value.target != call.bundle.request.target
              || o.result.value.horizon != call.bundle.request.horizon then Some(ResultMismatch)
      else None
  }

  const NO_RESULT := ExecutionError(OtherExecution, "execution completed without a CellResult")

  lemma ComplaintNoneIff(call: NodeCall, run: Run, reply: ExecutorReply)
    ensures Complaint(call, run, reply).None? <==> Accepted(call, run, reply)
  {
    hide RecordMatches;
  }

  /** The checks on a returned outcome, in the order they are made. */
  method CheckOutcome(call: NodeCall, run: Run, o: Outcome) returns (problem: Option<NodeError>)
    ensures problem == Complaint(call, run, Returned(o))
    ensures problem.None? <==> Accepted(call, run, Returned(o))
  {
    hide RecordMatches;
    ComplaintNoneIff(call, run, Returned(o));
    if o.record.Some? {
      var ok := CheckRecordMatches(o.record.value, CallSettings(call, run), run.runId, run.plan.planId, o.RuntimeTraces());
      if !ok {
        return Some(RecordMismatch);
      }
    }
    var traces := o.RuntimeTraces();
    for i := 0 to |traces|
      invariant forall j :: 0 <= j < i ==> run.traceAccepted(traces[j])
    {
      if !run.traceAccepted(traces[i]) {
        assert traces[i] in traces;
        return Some(TraceRejected);
      }
    }
    if o.error.Some? {
      return Some(ExecutorFailed(o.error.value));
    }
    if o.result.None? {
      return Some(ExecutorFailed(NO_RESULT));
    }
    var result := o.result.value;
    if result.cellId != call.node.cellId || result.target != call.bundle.request.target || result.horizon != call.bundle.request.horizon {
      return Some(ResultMismatch);
    }
    return None;
  }

  // ----- One node -----

  /** What a node leaves behind besides its result. */
  datatype NodeTrail = NodeTrail(traces: seq<Trace>, records: seq<ControlRecord>)

  /** Everything the caches promise between nodes. */
  ghost predicate Caches(run: Run, resolver: ResolverPort, cache: InputCache)
    reads resolver, cache
  {
    && SnapshotsCached(PlanReferences(run.plan), resolver.script, resolver.calls, cache.resolved)
    && RequestsCached(run.reader, cache.resolved, cache.requests, cache.readIds)
    && CallsRecorded(resolver.calls, cache.records)
  }

  lemma NodeBindings(n: ExecutionNode, plan: ExecutionPlan, id: string)
    requires PlanWellFormed(plan) && n in plan.nodes && id in [n.bindingId] + n.fallbackBindingIds
    ensures id in PlanBindings(plan) && PlanBindings(plan)[id].Id() == id && PlanBindings(plan)[id] in plan.serviceBindings
  {
    hide RootedAcyclic, UsedBindings, UsedReferences, KindsAgree;
    assert NodeWellFormed(n, plan);
    assert BindingFits(n, id, PlanBindings(plan));
    assert BindingKey(PlanBindings(plan)[id]) == id;
  }

  /** Everything a node's turn looks up is there. */
  predicate Runnable(n: ExecutionNode, run: Run, firsts: seq<ReferenceId>, results: Results) {
    && (forall id :: id in [n.bindingId] + n.fallbackBindingIds ==> id in PlanBindings(run.plan))
    && (forall id :: id in n.inputReferenceIds ==> id in PlanReferences(run.plan) && id in firsts)
    && (forall d :: d in n.dependencies ==> d in results)
  }

  /** The call made for a node once its bundle is composed. */
  function CallFor(n: ExecutionNode, run: Run, firsts: seq<ReferenceId>, b: CellInputBundle, results: Results): NodeCall
    requires Runnable(n, run, firsts, results)
  {
    var bindings := PlanBindings(run.plan);
    assert n.bindingId in [n.bindingId] + n.fallbackBindingIds;
    assert forall i :: 0 <= i < |n.fallbackBindingIds| ==> n.fallbackBindingIds[i] in [n.bindingId] + n.fallbackBindingIds;
    NodeCall(n, bindings[n.bindingId],
             seq(|n.fallbackBindingIds|, i requires 0 <= i < |n.fallbackBindingIds| => bindings[n.fallbackBindingIds[i]]),
             b, ChildResults(n.dependencies, results))
  }

  /** Why a node's turn fails, if it does: its cell is unknown, its inputs do not compose, or its reply is not accepted. */
  ghost function NodeProblem(n: ExecutionNode, run: Run, script: ResolverScript, firsts: seq<ReferenceId>, results: Results, reply: ExecutorReply): Option<NodeError>
    requires Runnable(n, run, firsts, results)
  {
    if n.cellId !in run.registry then Some(NotRegistered(n.cellId))
    else
      match Composing(n, PlanReferences(run.plan), script, firsts, run.reader)
      case Err(e) => Some(Composition(e))
      case Ok(b) => Complaint(CallFor(n, run, firsts, b, results), run, reply)
  }

  /** The calls a node's turn makes: one if it gets as far as the executor. */
  ghost function NodeCalls(n: ExecutionNode, run: Run, script: ResolverScript, firsts: seq<ReferenceId>, results: Results): seq<NodeCall>
    requires Runnable(n, run, firsts, results)
  {
    if n.cellId !in run.registry then []
    else
      match Composing(n, PlanReferences(run.plan), script, firsts, run.reader)
      case Err(_) => []
      case Ok(b) => [CallFor(n, run, firsts, b, results)]
  }

  /** The references a node's turn asks for. */
  ghost function NodeUses(n: ExecutionNode, run: Run, script: ResolverScript, firsts: seq<ReferenceId>): seq<ReferenceId>
    requires forall id :: id in n.inputReferenceIds ==> id in PlanReferences(run.plan) && id in firsts
  {
    if n.cellId !in run.registry then []
    else Tried(n.inputReferenceIds, Fetch(PlanReferences(run.plan), script, firsts, n.inputReferenceIds))
  }

  /** The result in a reply that has one. */
  function ReplyResult(reply: ExecutorReply): CellResult {
    if reply.Returned? && reply.outcome.result.Some? then reply.outcome.result.value else CellResult("", "", "", "")
  }

  method FallbackBindings(n: ExecutionNode, run: Run, bindings: map<string, ServiceBinding>) returns (r: seq<ServiceBinding>)
    requires forall id :: id in n.fallbackBindingIds ==> id in bindings
    ensures |r| == |n.fallbackBindingIds| && forall i :: 0 <= i < |r| ==> r[i] == bindings[n.fallbackBindingIds[i]]
  {
    r := [];
    for i := 0 to |n.fallbackBindingIds|
      invariant |r| == i && forall j :: 0 <= j < i ==> r[j] == bindings[n.fallbackBindingIds[j]]
    {
      r := r + [bindings[n.fallbackBindingIds[i]]];
    }
  }

  lemma NodeRunnable(n: ExecutionNode, run: Run, firsts: seq<ReferenceId>, results: Results)
    requires PlanWellFormed(run.plan) && n in run.plan.nodes
    requires forall id :: id in n.inputReferenceIds ==> id in firsts
    requires forall d :: d in n.dependencies ==> d in results
    ensures Runnable(n, run, firsts, results)
    ensures n.bindingId in PlanBindings(run.plan) && forall id :: id in n.fallbackBindingIds ==> id in PlanBindings(run.plan)
  {
    hide PlanWellFormed, FirstById, ServiceBinding.Id;
    NodeOfPlan(n, run.plan);
    forall id | id in [n.bindingId] + n.fallbackBindingIds ensures id in PlanBindings(run.plan) { NodeBindings(n, run.plan, id); }
    assert forall id :: id in n.fallbackBindingIds ==> id in [n.bindingId] + n.fallbackBindingIds;
  }

  /** Composes the node's inputs, calls the executor at most once, and accepts or refuses its answer. */
  method RunNode(node: ExecutionNode, run: Run, bindings: map<string, ServiceBinding>, refs: References, results: Results,
                 resolver: ResolverPort, executor: ExecutorPort, cache: InputCache)
    returns (r: Result<CellResult, NodeError>, trail: NodeTrail)
    requires PlanWellFormed(run.plan) && node in run.plan.nodes
    requires bindings == PlanBindings(run.plan) && refs == PlanReferences(run.plan)
    requires forall d :: d in node.dependencies ==> d in results
    requires Caches(run, resolver, cache)
    modifies resolver, executor, cache
    ensures Runnable(node, run, FirstUses(old(Uses(cache.records)) + node.inputReferenceIds), results)
    ensures var firsts, reply := FirstUses(old(Uses(cache.records)) + node.inputReferenceIds), executor.script(|old(executor.calls)|);
      var made := NodeCalls(node, run, resolver.script, firsts, results);
      && r == (match NodeProblem(node, run, resolver.script, firsts, results, reply) case None => Ok(ReplyResult(reply)) case Some(e) => Err(e))
      && executor.calls == old(executor.calls) + made
      && trail == (if made == [] then NodeTrail([], []) else TrailOf(reply))
      && Map(RecordKey, cache.records) == old(Map(RecordKey, cache.records)) + KeysFor(node, NodeUses(node, run, resolver.script, firsts))
      && Uses(cache.records) == old(Uses(cache.records)) + NodeUses(node, run, resolver.script, firsts)
    ensures CallsRecorded(resolver.calls, cache.records)
    ensures r.Ok? ==> Caches(run, resolver, cache)
  {
    hide *;
    ghost var firsts := FirstUses(Uses(cache.records) + node.inputReferenceIds);
    trail := NodeTrail([], []);
    UsesKnown(Uses(cache.records), node.inputReferenceIds);
    NodeRunnable(node, run, firsts, results);
    CachesParts(run, resolver, cache);
    NodeParts(node, run, resolver.script, firsts, results, executor.script(|executor.calls|));
    KeysNothing(node, Map(RecordKey, cache.records), Uses(cache.records));
    if node.cellId !in run.registry {
      return Err(NotRegistered(node.cellId)), trail;
    }
    var composed := ComposeCellInputs(node, run.plan, refs, resolver, cache, run.reader);
    if composed.Err? {
      return Err(Composition(composed.error)), trail;
    }
    CachesParts(run, resolver, cache);
    var fallbacks := FallbackBindings(node, run, bindings);
    var call := NodeCall(node, bindings[node.bindingId], fallbacks, composed.value, ChildResults(node.dependencies, results));
    CallIs(node, run, firsts, composed.value, results, call);
    var reply := executor.Execute(call);
    TrailParts(reply);
    if reply.Raised? {
      return Err(ExecutorFailed(reply.error)), trail;
    }
    trail := TrailOf(reply);
    var problem := CheckOutcome(call, run, reply.outcome);
    if problem.Some? {
      return Err(problem.value), trail;
    }
    AcceptedHasResult(call, run, reply);
    return Ok(reply.outcome.result.value), trail;
  }

  lemma KeysNothing(n: ExecutionNode, keys: seq<(string, ReferenceId)>, uses: seq<ReferenceId>)
    ensures keys + KeysFor(n, []) == keys && uses + [] == uses
  {
  }

  lemma CachesParts(run: Run, resolver: ResolverPort, cache: InputCache)
    ensures Caches(run, resolver, cache) <==>
      && SnapshotsCached(PlanReferences(run.plan), resolver.script, resolver.calls, cache.resolved)
      && RequestsCached(run.reader, cache.resolved, cache.requests, cache.readIds)
      && CallsRecorded(resolver.calls, cache.records)
  {
  }

  /** The definitions for one node, case by case. */
  lemma NodeParts(n: ExecutionNode, run: Run, script: ResolverScript, firsts: seq<ReferenceId>, results: Results, reply: ExecutorReply)
    requires Runnable(n, run, firsts, results)
    ensures forall id :: id in n.inputReferenceIds ==> id in PlanReferences(run.plan) && id in firsts
    ensures forall d :: d in n.dependencies ==> d in results
    ensures NodeUses(n, run, script, firsts) ==
      if n.cellId !in run.registry then [] else Tried(n.inputReferenceIds, Fetch(PlanReferences(run.plan), script, firsts, n.inputReferenceIds))
    ensures var composed := Composing(n, PlanReferences(run.plan), script, firsts, run.reader);
      if n.cellId !in run.registry then
        NodeProblem(n, run, script, firsts, results, reply) == Some(NotRegistered(n.cellId)) && NodeCalls(n, run, script, firsts, results) == []
      else if composed.Err? then
        NodeProblem(n, run, script, firsts, results, reply) == Some(Composition(composed.error)) && NodeCalls(n, run, script, firsts, results) == []
      else
        var call := CallFor(n, run, firsts, composed.value, results);
        && NodeCalls(n, run, script, firsts, results) == [call]
        && NodeProblem(n, run, script, firsts, results, reply) == Complaint(call, run, reply)
        && (reply.Raised? ==> Complaint(call, run, reply) == Some(ExecutorFailed(reply.error)))
  {
    hide Composing, CallFor, Fetch, FirstById, Tried, RecordMatches;
  }

  lemma CallIs(n: ExecutionNode, run: Run, firsts: seq<ReferenceId>, b: CellInputBundle, results: Results, call: NodeCall)
    requires Runnable(n, run, firsts, results)
    requires n.bindingId in PlanBindings(run.plan) && forall id :: id in n.fallbackBindingIds ==> id in PlanBindings(run.plan)
    requires call == NodeCall(n, PlanBindings(run.plan)[n.bindingId], call.fallbacks, b, ChildResults(n.dependencies, results))
    requires |call.fallbacks| == |n.fallbackBindingIds|
    requires forall i :: 0 <= i < |n.fallbackBindingIds| ==> call.fallbacks[i] == PlanBindings(run.plan)[n.fallbackBindingIds[i]]
    ensures call == CallFor(n, run, firsts, b, results)
  {
    hide FirstById, ChildResults;
    assert call.fallbacks == CallFor(n, run, firsts, b, results).fallbacks;
  }

  lemma TrailParts(reply: ExecutorReply)
    ensures reply.Raised? ==> TrailOf(reply) == NodeTrail([], [])
    ensures reply.Returned? && reply.outcome.result.Some? ==> ReplyResult(reply) == reply.outcome.result.value
  {
  }

  function TrailOf(reply: ExecutorReply): NodeTrail {
    if reply.Raised? then NodeTrail([], [])
    else NodeTrail(reply.outcome.RuntimeTraces(), if reply.outcome.record.Some? then [reply.outcome.record.value] else [])
  }

  lemma AcceptedHasResult(call: NodeCall, run: Run, reply: ExecutorReply)
    requires Accepted(call, run, reply)
    ensures reply.Returned? && reply.outcome.result.Some?
  {
  }

  // ----- The whole run -----

  datatype PlanOutcome = PlanOutcome(
    planId: string, rootNodeId: string, results: Results, completed: seq<string>, traces: seq<Trace>,
    controlRecords: seq<ControlRecord>, resolutionRecords: seq<ResolutionRecord>, executionOrder: seq<string>,
    rootResult: Option<CellResult>, failedNodeId: Option<string>, error: Option<NodeError>)
  {
    /** The checks a plan outcome makes when it is constructed. */
    predicate Admissible() {
      if error.None? then rootResult.Some? && failedNodeId.None? && rootNodeId in results
      else rootResult.None? && failedNodeId.Some?
    }
  }

  /** The traces and control records of the first `n` executor calls. */
  function TrailUpTo(script: nat -> ExecutorReply, n: nat): NodeTrail {
    if n == 0 then NodeTrail([], [])
    else
      var before, last := TrailUpTo(script, n - 1), TrailOf(script(n - 1));
      NodeTrail(before.traces + last.traces, before.records + last.records)
  }

  ghost function PlanLevels(plan: ExecutionPlan): seq<seq<string>> {
    Levels(PlanDependencies(PlanNodes(plan)))
  }

  /** When a node's turn comes it is new and all its dependencies are done. */
  lemma NodeReady(plan: ExecutionPlan, i: nat, j: nat, completed: seq<string>)
    requires PlanWellFormed(plan) && i < |PlanLevels(plan)| && j < |PlanLevels(plan)[i]|
    requires completed == Flatten(PlanLevels(plan)[..i]) + PlanLevels(plan)[i][..j]
    ensures var id := PlanLevels(plan)[i][j];
      && id in PlanNodes(plan) && PlanNodes(plan)[id] in plan.nodes && PlanNodes(plan)[id].nodeId == id
      && id !in completed
      && (forall d :: d in PlanNodes(plan)[id].dependencies ==> d in completed)
  {
    hide FirstById, Levels, Flatten, NodeWellFormed, UsedBindings, UsedReferences, RootedAcyclic;
    var g, levels := PlanDependencies(PlanNodes(plan)), PlanLevels(plan);
    var id := levels[i][j];
    LevelElements(g, i);
    assert id in levels[i];
    assert NodeKey(PlanNodes(plan)[id]) == id;
    var n := PlanNodes(plan)[id];
    NodeDependencies(plan, n);
    forall d | d in n.dependencies ensures d in completed {
      assert DependsOn(g, id, d);
      DependenciesComeEarlier(g, i, id, d);
      var m :| 0 <= m < i && d in levels[m];
      FlattenContains(levels[..i], m, d);
    }
    NotYet(g, i, j);
  }

  lemma NodeDependencies(plan: ExecutionPlan, n: ExecutionNode)
    requires PlanWellFormed(plan) && n in plan.nodes
    ensures forall d :: d in n.dependencies ==> d in PlanNodes(plan)
  {
    hide RootedAcyclic, UsedBindings, UsedReferences, KindsAgree, BindingFits;
    assert NodeWellFormed(n, plan);
  }

  lemma {:induction false} FlattenContains(xss: seq<seq<string>>, m: nat, x: string)
    requires m < |xss| && x in xss[m]
    ensures x in Flatten(xss)
  {
    if m < |xss| - 1 { FlattenContains(xss[..|xss| - 1], m, x); }
  }

  /** Nothing is listed twice in the flattened levels. */
  lemma NotYet(g: DependencyMap, i: nat, j: nat)
    requires i < |Levels(g)| && j < |Levels(g)[i]|
    ensures Levels(g)[i][j] !in Flatten(Levels(g)[..i]) + Levels(g)[i][..j]
  {
    hide Levels, Flatten;
    FlattenLevels(g, i + 1);
    FlattenStep(Levels(g), i);
    var before, level := Flatten(Levels(g)[..i]), Levels(g)[i];
    assert (before + level)[..|before| + j] == before + level[..j];
    assert (before + level)[|before| + j] == level[j];
  }

  lemma {:induction false} FlattenPrefix(xss: seq<seq<string>>, i: nat)
    requires i <= |xss|
    ensures Flatten(xss[..i]) <= Flatten(xss)
  {
    if i < |xss| {
      var n := |xss| - 1;
      FlattenPrefix(xss[..n], i);
      assert xss[..n][..i] == xss[..i];
    } else {
      assert xss[..i] == xss;
    }
  }

  lemma OrderPrefix(levels: seq<seq<string>>, i: nat, j: nat)
    requires i < |levels| && j < |levels[i]|
    ensures Flatten(levels[..i]) + levels[i][..j] + [levels[i][j]] <= Flatten(levels)
  {
    hide Flatten;
    FlattenStep(levels, i);
    FlattenPrefix(levels, i + 1);
    assert levels[i][..j] + [levels[i][j]] == levels[i][..j + 1];
    assert Flatten(levels[..i]) + levels[i][..j + 1] <= Flatten(levels[..i]) + levels[i];
  }

  /** A run that never reached its root would be reported as a missing root; a validated plan always reaches it. */
  lemma RootCompleted(plan: ExecutionPlan)
    requires PlanWellFormed(plan)
    ensures plan.rootNodeId in Flatten(PlanLevels(plan))
    ensures Elements(Flatten(PlanLevels(plan))) == PlanNodes(plan).Keys && Distinct(Flatten(PlanLevels(plan)))
    ensures PlanLevels(plan) != [] && PlanLevels(plan)[|PlanLevels(plan)| - 1] == [plan.rootNodeId]
  {
    hide PlanWellFormed, PlanNodes, Levels, Flatten, RootedAcyclic;
    PlanIsRooted(plan);
    RootedAcyclicLevels(PlanDependencies(PlanNodes(plan)), plan.rootNodeId);
    assert plan.rootNodeId in Elements(Flatten(PlanLevels(plan)));
  }

  lemma PlanIsRooted(plan: ExecutionPlan)
    requires PlanWellFormed(plan)
    ensures RootedAcyclic(PlanDependencies(PlanNodes(plan)), plan.rootNodeId) && plan.rootNodeId in PlanNodes(plan)
  {
    hide NodeWellFormed, UsedBindings, UsedReferences, PlanNodes, ReachableFrom, CyclicSet, Distinct, Map;
  }

  // ----- The run as a function of the scripts -----

  ghost function Order(plan: ExecutionPlan): seq<string> {
    Flatten(PlanLevels(plan))
  }

  /** The position in the levels of the j-th node of the order. */
  lemma {:induction false} FlatPosition(xss: seq<seq<string>>, j: nat) returns (i: nat, k: nat)
    requires j < |Flatten(xss)|
    ensures i < |xss| && k < |xss[i]| && xss[i][k] == Flatten(xss)[j]
    ensures Flatten(xss)[..j] == Flatten(xss[..i]) + xss[i][..k]
  {
    var n := |xss| - 1;
    var before := Flatten(xss[..n]);
    if j < |before| {
      i, k := FlatPosition(xss[..n], j);
      assert xss[..n][..i] == xss[..i];
      assert Flatten(xss)[..j] == before[..j];
    } else {
      i, k := n, j - |before|;
      assert Flatten(xss)[..j] == before + xss[n][..k];
    }
  }

  lemma OrderReady(plan: ExecutionPlan, j: nat)
    requires PlanWellFormed(plan) && j < |Order(plan)|
    ensures var id := Order(plan)[j];
      && id in PlanNodes(plan) && PlanNodes(plan)[id] in plan.nodes && PlanNodes(plan)[id].nodeId == id
      && id !in Order(plan)[..j]
      && (forall d :: d in PlanNodes(plan)[id].dependencies ==> d in Order(plan)[..j])
  {
    hide PlanWellFormed, PlanNodes, Levels, Flatten;
    var i, k := FlatPosition(PlanLevels(plan), j);
    NodeReady(plan, i, k, Order(plan)[..j]);
  }

  ghost function NodeAt(plan: ExecutionPlan, j: nat): (n: ExecutionNode)
    requires PlanWellFormed(plan) && j < |Order(plan)|
    ensures n in plan.nodes && n.nodeId == Order(plan)[j]
  {
    OrderReady(plan, j);
    PlanNodes(plan)[Order(plan)[j]]
  }

  /** The references of the first `n` nodes, in order and with repetitions. */
  ghost function UsesUpTo(plan: ExecutionPlan, n: nat): seq<ReferenceId>
    requires PlanWellFormed(plan) && n <= |Order(plan)|
  {
    if n == 0 then [] else UsesUpTo(plan, n - 1) + NodeAt(plan, n - 1).inputReferenceIds
  }

  ghost function KeysUpTo(plan: ExecutionPlan, n: nat): seq<(string, ReferenceId)>
    requires PlanWellFormed(plan) && n <= |Order(plan)|
  {
    if n == 0 then [] else KeysUpTo(plan, n - 1) + KeysFor(NodeAt(plan, n - 1), NodeAt(plan, n - 1).inputReferenceIds)
  }

  /** The order in which a whole run asks for references it has not asked for before. */
  ghost function FetchOrder(plan: ExecutionPlan): seq<ReferenceId>
    requires PlanWellFormed(plan)
  {
    FirstUses(UsesUpTo(plan, |Order(plan)|))
  }

  /** The results of the first `n` nodes, if the first `n` replies are theirs. */
  ghost function StoredUpTo(run: Run, script: nat -> ExecutorReply, n: nat): Results
    requires n <= |Order(run.plan)|
  {
    if n == 0 then map[] else StoredUpTo(run, script, n - 1)[Order(run.plan)[n - 1] := ReplyResult(script(n - 1))]
  }

  lemma {:induction false} StoredKeys(run: Run, script: nat -> ExecutorReply, n: nat)
    requires n <= |Order(run.plan)|
    ensures StoredUpTo(run, script, n).Keys == Elements(Order(run.plan)[..n])
  {
    hide Order;
    if n > 0 {
      StoredKeys(run, script, n - 1);
      assert Order(run.plan)[..n] == Order(run.plan)[..n - 1] + [Order(run.plan)[n - 1]];
    }
  }

  lemma {:induction false} StoredAt(run: Run, script: nat -> ExecutorReply, n: nat, j: nat)
    requires PlanWellFormed(run.plan) && j < n <= |Order(run.plan)|
    ensures Order(run.plan)[j] in StoredUpTo(run, script, n) && StoredUpTo(run, script, n)[Order(run.plan)[j]] == ReplyResult(script(j))
  {
    hide PlanWellFormed, Order, PlanNodes;
    if j < n - 1 {
      StoredAt(run, script, n - 1, j);
      OrderReady(run.plan, n - 1);
      assert Order(run.plan)[j] in Order(run.plan)[..n - 1];
    }
  }

  lemma {:induction false} UsesGrow(plan: ExecutionPlan, n: nat, m: nat)
    requires PlanWellFormed(plan) && n <= m <= |Order(plan)|
    ensures FirstUses(UsesUpTo(plan, n)) <= FirstUses(UsesUpTo(plan, m))
    decreases m
  {
    hide PlanWellFormed, Order, FirstUses;
    if n < m {
      UsesGrow(plan, n, m - 1);
      FirstUsesGrow(UsesUpTo(plan, m - 1), NodeAt(plan, m - 1).inputReferenceIds);
    }
  }

  /** The references of the j-th node are known by its turn, and the whole run asks for them in the same order. */
  lemma TurnUses(plan: ExecutionPlan, j: nat)
    requires PlanWellFormed(plan) && j < |Order(plan)|
    ensures FirstUses(UsesUpTo(plan, j) + NodeAt(plan, j).inputReferenceIds) <= FetchOrder(plan)
    ensures forall id :: id in NodeAt(plan, j).inputReferenceIds ==>
      id in FetchOrder(plan) && id in FirstUses(UsesUpTo(plan, j) + NodeAt(plan, j).inputReferenceIds)
  {
    hide PlanWellFormed, Order, NodeAt, FirstUses;
    var ids := NodeAt(plan, j).inputReferenceIds;
    assert UsesUpTo(plan, j + 1) == UsesUpTo(plan, j) + ids;
    UsesGrow(plan, j + 1, |Order(plan)|);
    UsesKnown(UsesUpTo(plan, j), ids);
  }

  lemma TurnDependencies(run: Run, script: nat -> ExecutorReply, j: nat)
    requires PlanWellFormed(run.plan) && j < |Order(run.plan)|
    ensures forall d :: d in NodeAt(run.plan, j).dependencies ==> d in StoredUpTo(run, script, j)
  {
    hide PlanWellFormed, Order, PlanNodes, StoredUpTo;
    StoredKeys(run, script, j);
    OrderReady(run.plan, j);
    forall d | d in NodeAt(run.plan, j).dependencies ensures d in StoredUpTo(run, script, j) {
      assert d in Elements(Order(run.plan)[..j]);
    }
  }

  /** When its turn comes, everything the j-th node looks up is there. */
  lemma TurnRunnable(run: Run, script: nat -> ExecutorReply, j: nat)
    requires PlanWellFormed(run.plan) && j < |Order(run.plan)|
    ensures FirstUses(UsesUpTo(run.plan, j) + NodeAt(run.plan, j).inputReferenceIds) <= FetchOrder(run.plan)
    ensures forall id :: id in NodeAt(run.plan, j).inputReferenceIds ==>
      id in FetchOrder(run.plan) && id in FirstUses(UsesUpTo(run.plan, j) + NodeAt(run.plan, j).inputReferenceIds)
    ensures Runnable(NodeAt(run.plan, j), run, FetchOrder(run.plan), StoredUpTo(run, script, j))
    ensures Runnable(NodeAt(run.plan, j), run, FirstUses(UsesUpTo(run.plan, j) + NodeAt(run.plan, j).inputReferenceIds), StoredUpTo(run, script, j))
  {
    hide *;
    var n := NodeAt(run.plan, j);
    TurnUses(run.plan, j);
    TurnDependencies(run, script, j);
    NodeRunnable(n, run, FetchOrder(run.plan), StoredUpTo(run, script, j));
    NodeRunnable(n, run, FirstUses(UsesUpTo(run.plan, j) + n.inputReferenceIds), StoredUpTo(run, script, j));
  }

  /** Why the j-th node fails when all before it succeeded. */
  ghost function Problem(run: Run, replies: ResolverScript, script: nat -> ExecutorReply, j: nat): Option<NodeError>
    requires PlanWellFormed(run.plan) && j < |Order(run.plan)|
  {
    TurnRunnable(run, script, j);
    NodeProblem(NodeAt(run.plan, j), run, replies, FetchOrder(run.plan), StoredUpTo(run, script, j), script(j))
  }

  /** The calls made for the j-th node when all before it succeeded. */
  ghost function CallsAt(run: Run, replies: ResolverScript, script: nat -> ExecutorReply, j: nat): seq<NodeCall>
    requires PlanWellFormed(run.plan) && j < |Order(run.plan)|
  {
    TurnRunnable(run, script, j);
    NodeCalls(NodeAt(run.plan, j), run, replies, FetchOrder(run.plan), StoredUpTo(run, script, j))
  }

  ghost function UsesAt(run: Run, replies: ResolverScript, script: nat -> ExecutorReply, j: nat): seq<ReferenceId>
    requires PlanWellFormed(run.plan) && j < |Order(run.plan)|
  {
    TurnRunnable(run, script, j);
    NodeUses(NodeAt(run.plan, j), run, replies, FetchOrder(run.plan))
  }

  /** The definitions of the j-th turn. */
  lemma TurnParts(run: Run, replies: ResolverScript, script: nat -> ExecutorReply, j: nat)
    requires PlanWellFormed(run.plan) && j < |Order(run.plan)|
    ensures var n, firsts, stored := NodeAt(run.plan, j), FetchOrder(run.plan), StoredUpTo(run, script, j);
      && Runnable(n, run, firsts, stored)
      && (forall id :: id in n.inputReferenceIds ==> id in PlanReferences(run.plan) && id in firsts)
      && Problem(run, replies, script, j) == NodeProblem(n, run, replies, firsts, stored, script(j))
      && CallsAt(run, replies, script, j) == NodeCalls(n, run, replies, firsts, stored)
      && UsesAt(run, replies, script, j) == NodeUses(n, run, replies, firsts)
  {
    hide PlanWellFormed, Order, NodeAt, FirstUses, UsesUpTo, StoredUpTo, FetchOrder, NodeProblem, NodeCalls, NodeUses;
    TurnRunnable(run, script, j);
  }

  /** One more node in each of the lists. */
  lemma UpToStep(run: Run, script: nat -> ExecutorReply, n: nat)
    requires PlanWellFormed(run.plan) && n < |Order(run.plan)|
    ensures Order(run.plan)[..n + 1] == Order(run.plan)[..n] + [Order(run.plan)[n]]
    ensures StoredUpTo(run, script, n + 1) == StoredUpTo(run, script, n)[Order(run.plan)[n] := ReplyResult(script(n))]
    ensures UsesUpTo(run.plan, n + 1) == UsesUpTo(run.plan, n) + NodeAt(run.plan, n).inputReferenceIds
    ensures KeysUpTo(run.plan, n + 1) == KeysUpTo(run.plan, n) + KeysFor(NodeAt(run.plan, n), NodeAt(run.plan, n).inputReferenceIds)
    ensures TrailUpTo(script, n + 1) ==
      NodeTrail(TrailUpTo(script, n).traces + TrailOf(script(n)).traces, TrailUpTo(script, n).records + TrailOf(script(n)).records)
  {
    hide PlanWellFormed, Order, NodeAt, KeysFor, TrailOf, ReplyResult;
  }

  /** What has been learnt by the j-th turn is enough to answer for its references. */
  lemma TurnIsLocal(run: Run, replies: ResolverScript, script: nat -> ExecutorReply, j: nat)
    requires PlanWellFormed(run.plan) && j < |Order(run.plan)|
    ensures var n, firsts, stored := NodeAt(run.plan, j), FirstUses(UsesUpTo(run.plan, j) + NodeAt(run.plan, j).inputReferenceIds), StoredUpTo(run, script, j);
      && Runnable(n, run, firsts, stored)
      && NodeProblem(n, run, replies, firsts, stored, script(j)) == Problem(run, replies, script, j)
      && NodeCalls(n, run, replies, firsts, stored) == CallsAt(run, replies, script, j)
      && NodeUses(n, run, replies, firsts) == UsesAt(run, replies, script, j)
  {
    var n, firsts, stored := NodeAt(run.plan, j), FirstUses(UsesUpTo(run.plan, j) + NodeAt(run.plan, j).inputReferenceIds), StoredUpTo(run, script, j);
    hide PlanWellFormed, Order, NodeAt, FirstUses, UsesUpTo, StoredUpTo, Runnable, FetchOrder, Complaint, CallFor, Fetch;
    TurnRunnable(run, script, j);
    NodeParts(n, run, replies, firsts, stored, script(j));
    NodeParts(n, run, replies, FetchOrder(run.plan), stored, script(j));
    FetchStays(PlanReferences(run.plan), replies, firsts, FetchOrder(run.plan), n.inputReferenceIds);
    forall b ensures CallFor(n, run, firsts, b, stored) == CallFor(n, run, FetchOrder(run.plan), b, stored) {
      SameCall(n, run, firsts, FetchOrder(run.plan), b, stored);
    }
  }

  lemma SameCall(n: ExecutionNode, run: Run, firsts: seq<ReferenceId>, firsts': seq<ReferenceId>, b: CellInputBundle, results: Results)
    requires Runnable(n, run, firsts, results) && Runnable(n, run, firsts', results)
    ensures CallFor(n, run, firsts, b, results) == CallFor(n, run, firsts', b, results)
  {
    hide FirstById;
    assert CallFor(n, run, firsts, b, results).fallbacks == CallFor(n, run, firsts', b, results).fallbacks;
  }

  /** The first `n` nodes completed: each without a problem, each with its call made and its result stored. */
  ghost predicate Progress(run: Run, replies: ResolverScript, script: nat -> ExecutorReply, calls: seq<NodeCall>, records: seq<ResolutionRecord>,
                           completed: seq<string>, results: Results, trail: NodeTrail)
    requires PlanWellFormed(run.plan)
  {
    var n := |completed|;
    && n <= |Order(run.plan)| && completed == Order(run.plan)[..n]
    && results == StoredUpTo(run, script, n)
    && |calls| == n
    && (forall j :: 0 <= j < n ==> Problem(run, replies, script, j).None? && CallsAt(run, replies, script, j) == [calls[j]])
    && trail == TrailUpTo(script, n)
    && Uses(records) == UsesUpTo(run.plan, n) && Map(RecordKey, records) == KeysUpTo(run.plan, n)
  }

  /**
   * What a finished run is: the nodes before the first one with a problem are completed, in the order of the levels, and
   * that problem is the error; without any, all nodes are completed. Calls, results, traces, records and fetches are
   * those of the nodes that had their turn.
   */
  ghost predicate Finished(run: Run, replies: ResolverScript, script: nat -> ExecutorReply, calls: seq<NodeCall>, fetched: seq<ReferenceId>, o: PlanOutcome)
    requires PlanWellFormed(run.plan)
  {
    var order, n := Order(run.plan), |o.completed|;
    && o.Admissible() && o.planId == run.plan.planId && o.rootNodeId == run.plan.rootNodeId
    && n <= |order| && o.completed == order[..n] && o.results == StoredUpTo(run, script, n)
    && n <= |calls| && (forall j :: 0 <= j < n ==> Problem(run, replies, script, j).None? && CallsAt(run, replies, script, j) == [calls[j]])
    && NodeTrail(o.traces, o.controlRecords) == TrailUpTo(script, |calls|)
    && CallsRecorded(fetched, o.resolutionRecords)
    && if n == |order| then
         && o.error.None? && o.executionOrder == order && |calls| == n
         && run.plan.rootNodeId in o.results && o.rootResult == Some(o.results[run.plan.rootNodeId])
         && Map(RecordKey, o.resolutionRecords) == KeysUpTo(run.plan, n)
       else
         && o.error.Some? && o.error == Problem(run, replies, script, n)
         && o.failedNodeId == Some(order[n]) && o.executionOrder == order[..n + 1]
         && calls[n..] == CallsAt(run, replies, script, n)
         && Map(RecordKey, o.resolutionRecords) == KeysUpTo(run.plan, n) + KeysFor(NodeAt(run.plan, n), UsesAt(run, replies, script, n))
  }

  // ----- What finishing means -----

  /**
   * A run succeeds exactly when no node has a problem. Otherwise it ends at the first node that has one, with that
   * problem, after all the nodes before it; in particular it never ends for want of the root.
   */
  lemma SucceedsIff(run: Run, replies: ResolverScript, script: nat -> ExecutorReply, calls: seq<NodeCall>, fetched: seq<ReferenceId>, o: PlanOutcome)
    requires PlanWellFormed(run.plan) && Finished(run, replies, script, calls, fetched, o)
    ensures o.error.None? <==> forall j :: 0 <= j < |Order(run.plan)| ==> Problem(run, replies, script, j).None?
    ensures o.error.Some? ==> !o.error.value.RootMissing?
  {
    hide PlanWellFormed, Problem, CallsAt, UsesAt, StoredUpTo, KeysUpTo, TrailUpTo, NodeAt, Order, CallsRecorded;
    if o.error.Some? {
      ProblemIsNotRoot(run, replies, script, |o.completed|);
    }
  }

  lemma ProblemIsNotRoot(run: Run, replies: ResolverScript, script: nat -> ExecutorReply, j: nat)
    requires PlanWellFormed(run.plan) && j < |Order(run.plan)|
    ensures Problem(run, replies, script, j) != Some(RootMissing)
  {
    hide PlanWellFormed, RecordMatches, Composing, Order, StoredUpTo, FetchOrder, NodeAt;
  }

  /**
   * Without a problem exactly when the cell is registered, every reference is found, the inputs make an admissible
   * bundle with a readable request, and the executor's reply to that call is accepted.
   */
  lemma ProblemNoneIff(run: Run, replies: ResolverScript, script: nat -> ExecutorReply, j: nat)
    requires PlanWellFormed(run.plan) && j < |Order(run.plan)|
    ensures var n := NodeAt(run.plan, j);
      && (forall id :: id in n.inputReferenceIds ==> id in PlanReferences(run.plan) && id in FetchOrder(run.plan))
      && Runnable(n, run, FetchOrder(run.plan), StoredUpTo(run, script, j))
      && var composed := Composing(n, PlanReferences(run.plan), replies, FetchOrder(run.plan), run.reader);
         Problem(run, replies, script, j).None? <==>
           && n.cellId in run.registry && composed.Ok?
           && Accepted(CallFor(n, run, FetchOrder(run.plan), composed.value, StoredUpTo(run, script, j)), run, script(j))
  {
    hide *;
    var n, stored := NodeAt(run.plan, j), StoredUpTo(run, script, j);
    TurnParts(run, replies, script, j);
    NodeParts(n, run, replies, FetchOrder(run.plan), stored, script(j));
    var composed := Composing(n, PlanReferences(run.plan), replies, FetchOrder(run.plan), run.reader);
    if composed.Ok? {
      ComplaintNoneIff(CallFor(n, run, FetchOrder(run.plan), composed.value, stored), run, script(j));
    }
  }

  /** The cell is registered, every reference is found, the request reads, the id is not blank, and the reply is accepted. */
  ghost predicate GoesThrough(n: ExecutionNode, run: Run, replies: ResolverScript, firsts: seq<ReferenceId>, results: Results, reply: ExecutorReply)
    requires Runnable(n, run, firsts, results)
  {
    var fetched := Fetch(PlanReferences(run.plan), replies, firsts, n.inputReferenceIds);
    var composed := Composing(n, PlanReferences(run.plan), replies, firsts, run.reader);
    && n.cellId in run.registry
    && fetched.Ok? && |RequestInputs(fetched.value)| == 1 && run.reader.Read(RequestInputs(fetched.value)[0].snapshot.payload).Some?
    && !Blank(n.nodeId)
    && composed.Ok? && Accepted(CallFor(n, run, firsts, composed.value, results), run, reply)
  }

  /**
   * Under an integrity-checked resolver the bundle adds only two conditions of its own: the request reads, and the node id
   * is not blank.
   */
  lemma CheckedProblemNoneIff(run: Run, replies: ResolverScript, script: nat -> ExecutorReply, j: nat, sizeOf: Json.Value -> int)
    requires PlanWellFormed(run.plan) && j < |Order(run.plan)| && IntegrityChecked(replies, sizeOf)
    ensures Runnable(NodeAt(run.plan, j), run, FetchOrder(run.plan), StoredUpTo(run, script, j))
    ensures Problem(run, replies, script, j).None? <==>
      GoesThrough(NodeAt(run.plan, j), run, replies, FetchOrder(run.plan), StoredUpTo(run, script, j), script(j))
  {
    hide PlanWellFormed, NodeAt, Order, FetchOrder, StoredUpTo, Problem, Runnable, Composing, Fetch, CallFor, Accepted, Blank, RequestInputs,
      RequestReader.Read, IntegrityChecked, FirstById;
    ProblemNoneIff(run, replies, script, j);
    ComposesIff(NodeAt(run.plan, j), run.plan, replies, FetchOrder(run.plan), run.reader, sizeOf);
  }

  /** Composition problems that an integrity-checked resolver leaves possible. */
  lemma CheckedProblems(run: Run, replies: ResolverScript, script: nat -> ExecutorReply, j: nat, sizeOf: Json.Value -> int)
    requires PlanWellFormed(run.plan) && j < |Order(run.plan)| && IntegrityChecked(replies, sizeOf)
    requires Problem(run, replies, script, j).Some? && Problem(run, replies, script, j).value.Composition?
    ensures var n, problem := NodeAt(run.plan, j), Problem(run, replies, script, j).value.problem;
      && (problem.Unresolved? ==>
            && problem.referenceId in n.inputReferenceIds && problem.referenceId in PlanReferences(run.plan)
            && problem.referenceId in FetchOrder(run.plan)
            && Answer(PlanReferences(run.plan), replies, FetchOrder(run.plan), problem.referenceId).Fails?)
      && (problem.Rejected? ==> Blank(n.nodeId))
      && !problem.RequestCount?
  {
    hide *;
    var n, stored := NodeAt(run.plan, j), StoredUpTo(run, script, j);
    TurnParts(run, replies, script, j);
    NodeParts(n, run, replies, FetchOrder(run.plan), stored, script(j));
    ComposesIff(n, run.plan, replies, FetchOrder(run.plan), run.reader, sizeOf);
    FetchMeaning(PlanReferences(run.plan), replies, FetchOrder(run.plan), n.inputReferenceIds);
    ComplaintIsNotComposition(run, script(j));
  }

  lemma ComplaintIsNotComposition(run: Run, reply: ExecutorReply)
    ensures forall call :: Complaint(call, run, reply).Some? ==> !Complaint(call, run, reply).value.Composition?
  {
    hide RecordMatches;
  }

  /** The call made for a node fits it: own bindings, resolver's answers, and only results of nodes completed before. */
  lemma CallsFit(run: Run, replies: ResolverScript, script: nat -> ExecutorReply, j: nat)
    requires PlanWellFormed(run.plan) && j < |Order(run.plan)|
    ensures |CallsAt(run, replies, script, j)| <= 1
    ensures forall call :: call in CallsAt(run, replies, script, j) ==>
      && call.node == NodeAt(run.plan, j)
      && CallFits(call, run, replies, FetchOrder(run.plan), Elements(Order(run.plan)[..j]), StoredUpTo(run, script, j))
      && Problem(run, replies, script, j) == Complaint(call, run, script(j))
  {
    hide *;
    var n, stored, firsts := NodeAt(run.plan, j), StoredUpTo(run, script, j), FetchOrder(run.plan);
    TurnParts(run, replies, script, j);
    NodeParts(n, run, replies, firsts, stored, script(j));
    if n.cellId in run.registry && Composing(n, PlanReferences(run.plan), replies, firsts, run.reader).Ok? {
      ComposingMeaning(n, PlanReferences(run.plan), replies, firsts, run.reader);
      StoredKeys(run, script, j);
      OneCallFits(n, run, replies, firsts, Composing(n, PlanReferences(run.plan), replies, firsts, run.reader).value, Elements(Order(run.plan)[..j]), stored);
    }
  }

  lemma OneCallFits(n: ExecutionNode, run: Run, replies: ResolverScript, firsts: seq<ReferenceId>, b: CellInputBundle, stored: set<string>, results: Results)
    requires PlanWellFormed(run.plan) && n in run.plan.nodes && n.cellId in run.registry && Runnable(n, run, firsts, results)
    requires results.Keys == stored && Composed(n, run.reader, b) && |b.inputs| == |n.inputReferenceIds|
    requires forall i :: 0 <= i < |b.inputs| ==>
      && n.inputReferenceIds[i] in PlanReferences(run.plan) && n.inputReferenceIds[i] in firsts
      && b.inputs[i].reference == PlanReferences(run.plan)[n.inputReferenceIds[i]]
      && Answer(PlanReferences(run.plan), replies, firsts, n.inputReferenceIds[i]) == Found(b.inputs[i].snapshot)
    ensures CallFits(CallFor(n, run, firsts, b, results), run, replies, firsts, stored, results)
    ensures CallFor(n, run, firsts, b, results).node == n
  {
    hide PlanWellFormed, FirstById, Composed, Answer, ServiceBinding.Id;
    var call := CallFor(n, run, firsts, b, results);
    NodeBindings(n, run.plan, n.bindingId);
    forall i | 0 <= i < |n.fallbackBindingIds| ensures BindingKey(call.fallbacks[i]) == n.fallbackBindingIds[i] {
      NodeBindings(n, run.plan, n.fallbackBindingIds[i]);
    }
    assert Map(BindingKey, call.fallbacks) == n.fallbackBindingIds;
  }

  /** An accepted reply is what ends up stored for its node. */
  lemma CompletedIsAccepted(run: Run, replies: ResolverScript, script: nat -> ExecutorReply, calls: seq<NodeCall>, fetched: seq<ReferenceId>,
                            o: PlanOutcome, j: nat)
    requires PlanWellFormed(run.plan) && Finished(run, replies, script, calls, fetched, o) && j < |o.completed|
    ensures |o.completed| <= |Order(run.plan)| && |o.completed| <= |calls|
    ensures calls[j].node == NodeAt(run.plan, j) && o.completed[j] == calls[j].node.nodeId
    ensures CallFits(calls[j], run, replies, FetchOrder(run.plan), Elements(o.completed[..j]), StoredUpTo(run, script, j))
    ensures Accepted(calls[j], run, script(j))
    ensures o.completed[j] in o.results && script(j).outcome.result == Some(o.results[o.completed[j]])
  {
    hide *;
    FinishedFacts(run, replies, script, calls, fetched, o);
    assert calls[j] in CallsAt(run, replies, script, j);
    CallsFit(run, replies, script, j);
    ComplaintNoneIff(calls[j], run, script(j));
    StoredAt(run, script, |o.completed|, j);
    AcceptedHasResult(calls[j], run, script(j));
    TrailParts(script(j));
    assert o.completed[..j] == Order(run.plan)[..j];
  }

  lemma FinishedFacts(run: Run, replies: ResolverScript, script: nat -> ExecutorReply, calls: seq<NodeCall>, fetched: seq<ReferenceId>, o: PlanOutcome)
    requires PlanWellFormed(run.plan) && Finished(run, replies, script, calls, fetched, o)
    ensures |o.completed| <= |Order(run.plan)| && |o.completed| <= |calls|
    ensures o.completed == Order(run.plan)[..|o.completed|] && o.results == StoredUpTo(run, script, |o.completed|)
    ensures forall j :: 0 <= j < |o.completed| ==> Problem(run, replies, script, j).None? && CallsAt(run, replies, script, j) == [calls[j]]
  {
  }

  lemma FailureFacts(run: Run, replies: ResolverScript, script: nat -> ExecutorReply, calls: seq<NodeCall>, fetched: seq<ReferenceId>, o: PlanOutcome)
    requires PlanWellFormed(run.plan) && Finished(run, replies, script, calls, fetched, o) && o.error.Some?
    ensures |o.completed| < |Order(run.plan)| && |o.completed| <= |calls|
    ensures o.error == Problem(run, replies, script, |o.completed|)
    ensures calls[|o.completed|..] == CallsAt(run, replies, script, |o.completed|)
  {
    hide PlanWellFormed, Order, Problem, CallsAt, UsesAt, StoredUpTo, KeysUpTo, TrailUpTo, NodeAt;
  }

  // ----- The run -----

  lemma NoTrailYet(run: Run, replies: ResolverScript, script: nat -> ExecutorReply)
    requires PlanWellFormed(run.plan)
    ensures Progress(run, replies, script, [], [], [], map[], NodeTrail([], []))
  {
  }

  lemma CachesEmpty(run: Run, resolver: ResolverPort, cache: InputCache)
    requires resolver.calls == [] && cache.resolved == map[] && cache.requests == map[] && cache.records == [] && cache.readIds == []
    ensures Caches(run, resolver, cache)
  {
  }

  lemma LevelStart(levels: seq<seq<string>>, i: nat)
    requires i < |levels|
    ensures Flatten(levels[..i]) + levels[i][..0] == Flatten(levels[..i])
    ensures Flatten(levels[..i]) + levels[i][..|levels[i]|] == Flatten(levels[..i + 1])
    ensures Flatten(levels[..0]) == []
  {
    FlattenStep(levels, i);
    assert levels[i][..|levels[i]|] == levels[i];
  }

  lemma LevelNext(levels: seq<seq<string>>, i: nat, j: nat)
    requires i < |levels| && j < |levels[i]|
    ensures Flatten(levels[..i]) + levels[i][..j] + [levels[i][j]] == Flatten(levels[..i]) + levels[i][..j + 1]
  {
    assert levels[i][..j] + [levels[i][j]] == levels[i][..j + 1];
  }

  /** Where the run stands: the next node of the order is due. */
  lemma DueNode(plan: ExecutionPlan, i: nat, j: nat, completed: seq<string>)
    requires PlanWellFormed(plan) && i < |PlanLevels(plan)| && j < |PlanLevels(plan)[i]|
    requires completed == Flatten(PlanLevels(plan)[..i]) + PlanLevels(plan)[i][..j]
    ensures |completed| < |Order(plan)| && completed == Order(plan)[..|completed|]
    ensures Order(plan)[|completed|] == PlanLevels(plan)[i][j]
    ensures PlanLevels(plan)[i][j] in PlanNodes(plan) && PlanNodes(plan)[PlanLevels(plan)[i][j]] == NodeAt(plan, |completed|)
    ensures Order(plan)[..|completed| + 1] == completed + [PlanLevels(plan)[i][j]]
  {
    hide PlanWellFormed, PlanNodes, Levels, Flatten;
    OrderPrefix(PlanLevels(plan), i, j);
    NodeReady(plan, i, j, completed);
  }

  /** Storing one more accepted answer. */
  lemma ProgressStep(run: Run, replies: ResolverScript, script: nat -> ExecutorReply, calls: seq<NodeCall>, calls': seq<NodeCall>,
                     records: seq<ResolutionRecord>, records': seq<ResolutionRecord>, completed: seq<string>, results: Results, trail: NodeTrail)
    requires PlanWellFormed(run.plan) && Progress(run, replies, script, calls, records, completed, results, trail)
    requires |completed| < |Order(run.plan)| && Problem(run, replies, script, |completed|).None?
    requires calls' == calls + CallsAt(run, replies, script, |completed|)
    requires Uses(records') == Uses(records) + UsesAt(run, replies, script, |completed|)
    requires Map(RecordKey, records') == Map(RecordKey, records) + KeysFor(NodeAt(run.plan, |completed|), UsesAt(run, replies, script, |completed|))
    ensures CallsAt(run, replies, script, |completed|) != []
    ensures var id, reply := Order(run.plan)[|completed|], script(|completed|);
      Progress(run, replies, script, calls', records', completed + [id], results[id := ReplyResult(reply)],
               NodeTrail(trail.traces + TrailOf(reply).traces, trail.records + TrailOf(reply).records))
  {
    hide PlanWellFormed, Order, NodeAt, Problem, CallsAt, UsesAt, TrailOf, KeysFor, Uses, Map, StoredUpTo, UsesUpTo, KeysUpTo, TrailUpTo, ReplyResult;
    var n := |completed|;
    TurnDone(run, replies, script, n);
    UpToStep(run, script, n);
    forall j | 0 <= j < n + 1 ensures Problem(run, replies, script, j).None? && CallsAt(run, replies, script, j) == [calls'[j]] {
      if j < n { assert calls'[j] == calls[j]; }
    }
  }

  /** A node without a problem made its one call and asked for all its references. */
  lemma TurnDone(run: Run, replies: ResolverScript, script: nat -> ExecutorReply, j: nat)
    requires PlanWellFormed(run.plan) && j < |Order(run.plan)| && Problem(run, replies, script, j).None?
    ensures |CallsAt(run, replies, script, j)| == 1
    ensures UsesAt(run, replies, script, j) == NodeAt(run.plan, j).inputReferenceIds
  {
    hide *;
    var n, stored, firsts := NodeAt(run.plan, j), StoredUpTo(run, script, j), FetchOrder(run.plan);
    TurnParts(run, replies, script, j);
    NodeParts(n, run, replies, firsts, stored, script(j));
    ComposingParts(n, PlanReferences(run.plan), replies, firsts, run.reader);
    var fetched := Fetch(PlanReferences(run.plan), replies, firsts, n.inputReferenceIds);
    if fetched.Ok? { TriedAll(n.inputReferenceIds, fetched.value); }
  }

  /** A run that stopped at a node with a problem. */
  lemma StoppedRun(run: Run, replies: ResolverScript, script: nat -> ExecutorReply, calls: seq<NodeCall>, calls': seq<NodeCall>,
                   records: seq<ResolutionRecord>, trail: NodeTrail, last: NodeTrail, fetched: seq<ReferenceId>, o: PlanOutcome)
    requires PlanWellFormed(run.plan) && Progress(run, replies, script, calls, records, o.completed, o.results, trail)
    requires |o.completed| < |Order(run.plan)| && o.error == Problem(run, replies, script, |o.completed|) && o.error.Some?
    requires var id := Order(run.plan)[|o.completed|];
      o == PlanOutcome(run.plan.planId, run.plan.rootNodeId, o.results, o.completed, trail.traces + last.traces,
                       trail.records + last.records, o.resolutionRecords, o.completed + [id], None, Some(id), o.error)
    requires calls' == calls + CallsAt(run, replies, script, |o.completed|)
    requires last == if CallsAt(run, replies, script, |o.completed|) == [] then NodeTrail([], []) else TrailOf(script(|o.completed|))
    requires Map(RecordKey, o.resolutionRecords) ==
      Map(RecordKey, records) + KeysFor(NodeAt(run.plan, |o.completed|), UsesAt(run, replies, script, |o.completed|))
    requires CallsRecorded(fetched, o.resolutionRecords)
    ensures Finished(run, replies, script, calls', fetched, o)
  {
    hide PlanWellFormed, Order, NodeAt, Problem, CallsAt, UsesAt, TrailOf, KeysFor, Uses, Map, CallsRecorded, CallFits, Complaint, KeysUpTo, UsesUpTo,
      StoredUpTo, TrailUpTo;
    var n := |o.completed|;
    CallsFit(run, replies, script, n);
    UpToStep(run, script, n);
    assert calls'[n..] == CallsAt(run, replies, script, n);
    forall j | 0 <= j < n ensures CallsAt(run, replies, script, j) == [calls'[j]] { assert calls'[j] == calls[j]; }
  }

  /** A run that completed every node. */
  lemma CompletedRun(run: Run, replies: ResolverScript, script: nat -> ExecutorReply, calls: seq<NodeCall>, trail: NodeTrail,
                     fetched: seq<ReferenceId>, o: PlanOutcome)
    requires PlanWellFormed(run.plan) && Progress(run, replies, script, calls, o.resolutionRecords, o.completed, o.results, trail)
    requires o.completed == o.executionOrder == Order(run.plan) && CallsRecorded(fetched, o.resolutionRecords)
    requires run.plan.rootNodeId in o.results
    requires o == PlanOutcome(run.plan.planId, run.plan.rootNodeId, o.results, o.completed, trail.traces, trail.records,
                              o.resolutionRecords, o.executionOrder, Some(o.results[run.plan.rootNodeId]), None, None)
    ensures Finished(run, replies, script, calls, fetched, o)
  {
    hide PlanWellFormed, Order, NodeAt, Problem, CallsAt, UsesAt, KeysFor, Uses, Map, CallsRecorded, UsesUpTo;
  }

  lemma RootStored(run: Run, replies: ResolverScript, script: nat -> ExecutorReply, calls: seq<NodeCall>, records: seq<ResolutionRecord>,
                   completed: seq<string>, results: Results, trail: NodeTrail)
    requires PlanWellFormed(run.plan) && Progress(run, replies, script, calls, records, completed, results, trail)
    requires completed == Order(run.plan)
    ensures run.plan.rootNodeId in results
  {
    hide PlanWellFormed, Flatten, Levels, FirstById, Problem, CallsAt, UsesUpTo, KeysUpTo, StoredUpTo, TrailUpTo;
    RootCompleted(run.plan);
    StoredKeys(run, script, |completed|);
    assert Order(run.plan)[..|completed|] == completed;
  }

  lemma ProgressFacts(run: Run, replies: ResolverScript, script: nat -> ExecutorReply, calls: seq<NodeCall>, records: seq<ResolutionRecord>,
                      completed: seq<string>, results: Results, trail: NodeTrail)
    requires PlanWellFormed(run.plan) && Progress(run, replies, script, calls, records, completed, results, trail)
    requires |completed| < |Order(run.plan)|
    ensures results == StoredUpTo(run, script, |completed|) && |calls| == |completed| && Uses(records) == UsesUpTo(run.plan, |completed|)
    ensures forall d :: d in NodeAt(run.plan, |completed|).dependencies ==> d in results
  {
    hide PlanWellFormed, Order, NodeAt, Problem, CallsAt, KeysUpTo, TrailUpTo, StoredUpTo;
    TurnRunnable(run, script, |completed|);
  }

  lemma PlanTables(plan: ExecutionPlan)
    requires PlanWellFormed(plan)
    ensures LastById(NodeKey, plan.nodes) == PlanNodes(plan)
    ensures LastById(BindingKey, plan.serviceBindings) == PlanBindings(plan)
    ensures LastById(ReferenceKey, plan.inputReferences) == PlanReferences(plan)
  {
    hide NodeWellFormed, RootedAcyclic, UsedBindings, UsedReferences, LastById, FirstById;
    LastByIdIsFirst(NodeKey, plan.nodes);
    LastByIdIsFirst(BindingKey, plan.serviceBindings);
    LastByIdIsFirst(ReferenceKey, plan.inputReferences);
  }

  /**
   * Every run of a validated plan, for every executor and resolver, is the one that its scripts determine: nodes along the
   * flattened levels, up to the first with a problem.
   */
  method Execute(run: Run, levels: seq<seq<string>>, executor: ExecutorPort, resolver: ResolverPort) returns (o: PlanOutcome)
    requires PlanWellFormed(run.plan) && levels == PlanLevels(run.plan)
    requires executor.calls == [] && resolver.calls == []
    modifies executor, resolver
    ensures Finished(run, resolver.script, executor.script, executor.calls, resolver.calls, o)
  {
    hide *;
    var plan := run.plan;
    PlanTables(plan);
    var nodesById := LastById(NodeKey, plan.nodes);
    var bindingsById := LastById(BindingKey, plan.serviceBindings);
    var referencesById := LastById(ReferenceKey, plan.inputReferences);
    var results: Results := map[];
    var completed: seq<string> := [];
    var trail := NodeTrail([], []);
    var cache := new InputCache();
    var executionOrder: seq<string> := [];
    CachesEmpty(run, resolver, cache);
    NoTrailYet(run, resolver.script, executor.script);
    RootCompleted(plan);
    LevelStart(levels, 0);
    for i := 0 to |levels|
      invariant Caches(run, resolver, cache)
      invariant Progress(run, resolver.script, executor.script, executor.calls, cache.records, completed, results, trail)
      invariant executionOrder == completed == Flatten(levels[..i])
    {
      var level := levels[i];
      LevelStart(levels, i);
      for j := 0 to |level|
        invariant Caches(run, resolver, cache)
        invariant Progress(run, resolver.script, executor.script, executor.calls, cache.records, completed, results, trail)
        invariant executionOrder == completed == Flatten(levels[..i]) + level[..j]
      {
        DueNode(plan, i, j, completed);
        LevelNext(levels, i, j);
        ProgressFacts(run, resolver.script, executor.script, executor.calls, cache.records, completed, results, trail);
        TurnIsLocal(run, resolver.script, executor.script, |completed|);
        var node := nodesById[level[j]];
        executionOrder := executionOrder + [node.nodeId];
        ghost var calls, records := executor.calls, cache.records;
        var r, last := RunNode(node, run, bindingsById, referencesById, results, resolver, executor, cache);
        if r.Err? {
          o := PlanOutcome(plan.planId, plan.rootNodeId, results, completed, trail.traces + last.traces, trail.records + last.records,
                           cache.records, executionOrder, None, Some(node.nodeId), Some(r.error));
          StoppedRun(run, resolver.script, executor.script, calls, executor.calls, records, trail, last, resolver.calls, o);
          return;
        }
        ProgressStep(run, resolver.script, executor.script, calls, executor.calls, records, cache.records, completed, results, trail);
        results := results[node.nodeId := r.value];
        completed := completed + [node.nodeId];
        trail := NodeTrail(trail.traces + last.traces, trail.records + last.records);
      }
    }
    assert levels[..|levels|] == levels;
    OrderIs(plan);
    if plan.rootNodeId !in results {
      o := PlanOutcome(plan.planId, plan.rootNodeId, results, completed, trail.traces, trail.records, cache.records,
                       executionOrder, None, Some(plan.rootNodeId), Some(RootMissing));
      RootStored(run, resolver.script, executor.script, executor.calls, cache.records, completed, results, trail);
      assert false;
    } else {
      o := PlanOutcome(plan.planId, plan.rootNodeId, results, completed, trail.traces, trail.records, cache.records,
                       executionOrder, Some(results[plan.rootNodeId]), None, None);
      CachesParts(run, resolver, cache);
      CompletedRun(run, resolver.script, executor.script, executor.calls, trail, resolver.calls, o);
    }
  }

  lemma OrderIs(plan: ExecutionPlan)
    ensures Order(plan) == Flatten(PlanLevels(plan))
  {
  }
}
