/** The pieces put together: a graph compiled and run, and the failure control's records checked a second time. */
module Pipeline {
  import opened Collections
  import opened Topology
  import opened InputModel
  import opened PlanModel
  import opened RuntimeModel
  import opened ControlModel
  import opened ControlRuns
  import opened InputComposition
  import Json
  import GraphValidation
  import PlanValidation
  import Placement
  import Planner
  import Control
  import ControlLaws
  import Coordinator

  // ----- The coordinator over the failure-controlled executor -----

  /** One execution under failure control, with everything the coordinator does not decide. */
  datatype Execution = Execution(
    traceId: string, cell: Manifest, classifier: Classifier, script: Control.Script, log: seq<Control.Event>, from: nat, trail: Control.Trail)

  function ContextFor(call: Coordinator.NodeCall, run: Coordinator.Run, e: Execution): Control.Context {
    Control.Context(run.runId, e.traceId, e.cell, Some(run.plan.planId), Some(call.node), Some(call.binding), call.fallbacks, None)
  }

  /** `o` is what the failure-controlled executor returned for this call. */
  ghost predicate ExecutedAs(e: Execution, call: Coordinator.NodeCall, run: Coordinator.Run, o: Outcome) {
    var ctx := ContextFor(call, run, e);
    && Control.Concluded(e.script, e.log, e.from, ctx, ctx.Settings(e.classifier), e.trail)
    && Control.Finalized(ctx, ctx.Settings(e.classifier), e.trail, o)
  }

  /** Every outcome returned to the coordinator came from the failure-controlled executor, for the call that was made. */
  ghost predicate Controlled(run: Coordinator.Run, script: nat -> Coordinator.ExecutorReply, calls: seq<Coordinator.NodeCall>) {
    forall j :: 0 <= j < |calls| && script(j).Returned? ==> exists e :: ExecutedAs(e, calls[j], run, script(j).outcome)
  }

  /** The coordinator checks every returned control record again, with its own expectations, among them its own classifier. */
  lemma ControlledRecordPasses(e: Execution, call: Coordinator.NodeCall, run: Coordinator.Run, o: Outcome)
    requires ExecutedAs(e, call, run, o)
    ensures o.record.Some?
    ensures RecordMatches(o.record.value, Coordinator.CallSettings(call, run), run.runId, run.plan.planId, o.RuntimeTraces())
  {
    hide IsRun, RecordAdmissible, Final, Outcome.Admissible, RecordFor, Control.Concluded;
    var s := ContextFor(call, run, e).Settings(e.classifier);
    assert RecordMatches(o.record.value, s, run.runId, run.plan.planId, o.RuntimeTraces());
    SameExpectations(o.record.value, s, Coordinator.CallSettings(call, run), run.runId, run.plan.planId, o.RuntimeTraces());
  }

  /**
   * A coordinator run over the failure-controlled executor never fails for a mismatching control record, whatever the
   * delegates, the clock, admission and the signal did, and whichever classifier was used.
   */
  lemma ControlledNeverMismatches(run: Coordinator.Run, replies: ResolverScript, script: nat -> Coordinator.ExecutorReply,
                                  calls: seq<Coordinator.NodeCall>, fetched: seq<ReferenceId>, o: Coordinator.PlanOutcome)
    requires PlanValidation.PlanWellFormed(run.plan) && Coordinator.Finished(run, replies, script, calls, fetched, o)
    requires Controlled(run, script, calls)
    ensures o.error != Some(Coordinator.RecordMismatch)
  {
    hide *;
    if o.error == Some(Coordinator.RecordMismatch) {
      var call := FailedCall(run, replies, script, calls, fetched, o);
      var e := ExecutionOf(run, script, calls, |o.completed|);
      ControlledRecordPasses(e, call, run, script(|o.completed|).outcome);
      assert false;
    }
  }

  /** A record mismatch is about the last call made. */
  lemma FailedCall(run: Coordinator.Run, replies: ResolverScript, script: nat -> Coordinator.ExecutorReply,
                   calls: seq<Coordinator.NodeCall>, fetched: seq<ReferenceId>, o: Coordinator.PlanOutcome) returns (call: Coordinator.NodeCall)
    requires PlanValidation.PlanWellFormed(run.plan) && Coordinator.Finished(run, replies, script, calls, fetched, o)
    requires o.error == Some(Coordinator.RecordMismatch)
    ensures var n := |o.completed|;
      && n < |calls| && call == calls[n] && script(n).Returned? && script(n).outcome.record.Some?
      && !RecordMatches(script(n).outcome.record.value, Coordinator.CallSettings(call, run), run.runId, run.plan.planId, script(n).outcome.RuntimeTraces())
  {
    hide *;
    var n := |o.completed|;
    Coordinator.FailureFacts(run, replies, script, calls, fetched, o);
    Coordinator.CallsFit(run, replies, script, n);
    MismatchWasCalled(run, replies, script, n);
    var made := Coordinator.CallsAt(run, replies, script, n);
    call := made[0];
    assert call in made && calls[n..][0] == call;
    MismatchParts(call, run, script(n));
  }

  lemma MismatchParts(call: Coordinator.NodeCall, run: Coordinator.Run, reply: Coordinator.ExecutorReply)
    requires Coordinator.Complaint(call, run, reply) == Some(Coordinator.RecordMismatch)
    ensures reply.Returned? && reply.outcome.record.Some?
    ensures !RecordMatches(reply.outcome.record.value, Coordinator.CallSettings(call, run), run.runId, run.plan.planId, reply.outcome.RuntimeTraces())
  {
    hide RecordMatches;
  }

  lemma MismatchWasCalled(run: Coordinator.Run, replies: ResolverScript, script: nat -> Coordinator.ExecutorReply, j: nat)
    requires PlanValidation.PlanWellFormed(run.plan) && j < |Coordinator.Order(run.plan)|
    requires Coordinator.Problem(run, replies, script, j) == Some(Coordinator.RecordMismatch)
    ensures Coordinator.CallsAt(run, replies, script, j) != []
  {
    hide *;
    Coordinator.TurnParts(run, replies, script, j);
    Coordinator.NodeParts(Coordinator.NodeAt(run.plan, j), run, replies, Coordinator.FetchOrder(run.plan), Coordinator.StoredUpTo(run, script, j), script(j));
  }

  lemma ExecutionOf(run: Coordinator.Run, script: nat -> Coordinator.ExecutorReply, calls: seq<Coordinator.NodeCall>, j: nat) returns (e: Execution)
    requires Controlled(run, script, calls) && j < |calls| && script(j).Returned?
    ensures ExecutedAs(e, calls[j], run, script(j).outcome)
  {
    hide ExecutedAs;
    e :| ExecutedAs(e, calls[j], run, script(j).outcome);
  }

  /**
   * Every result such a run stores is the one that the last delegate call for that node returned, within the time limits of
   * the node and of the binding that answered.
   */
  lemma StoredIsDelivered(run: Coordinator.Run, replies: ResolverScript, script: nat -> Coordinator.ExecutorReply,
                          calls: seq<Coordinator.NodeCall>, fetched: seq<ReferenceId>, o: Coordinator.PlanOutcome, j: nat) returns (e: Execution)
    requires PlanValidation.PlanWellFormed(run.plan) && Coordinator.Finished(run, replies, script, calls, fetched, o)
    requires Controlled(run, script, calls) && j < |o.completed|
    ensures j < |calls| && script(j).Returned? && ExecutedAs(e, calls[j], run, script(j).outcome)
    ensures o.completed[j] in o.results && script(j).outcome.result == Some(o.results[o.completed[j]])
    ensures e.trail.attempts != [] && |e.trail.starts| == |e.trail.attempts| + 1
    ensures var n := |e.trail.attempts| - 1;
      ControlLaws.DeliveredBy(e.script, e.log, ContextFor(calls[j], run, e).Settings(e.classifier), e.trail.attempts[n], e.trail.starts[n], script(j).outcome)
  {
    hide *;
    Coordinator.CompletedIsAccepted(run, replies, script, calls, fetched, o, j);
    AcceptedParts(calls[j], run, script(j));
    e := ExecutionOf(run, script, calls, j);
    ExecutedParts(e, calls[j], run, script(j).outcome);
    var ctx := ContextFor(calls[j], run, e);
    ControlLaws.SuccessIsTheDelegates(e.script, e.log, e.from, ctx, ctx.Settings(e.classifier), e.trail, script(j).outcome);
  }

  lemma AcceptedParts(call: Coordinator.NodeCall, run: Coordinator.Run, reply: Coordinator.ExecutorReply)
    requires Coordinator.Accepted(call, run, reply)
    ensures reply.Returned? && reply.outcome.error.None?
  {
  }

  lemma ExecutedParts(e: Execution, call: Coordinator.NodeCall, run: Coordinator.Run, o: Outcome)
    requires ExecutedAs(e, call, run, o)
    ensures ContextFor(call, run, e).Planned()
    ensures Control.Concluded(e.script, e.log, e.from, ContextFor(call, run, e), ContextFor(call, run, e).Settings(e.classifier), e.trail)
    ensures Control.Finalized(ContextFor(call, run, e), ContextFor(call, run, e).Settings(e.classifier), e.trail, o)
  {
    hide Control.Concluded, Control.Finalized;
  }

  /** The second check looks at the node, its bindings and the key only. */
  lemma SameExpectations(r: ControlRecord, s: Settings, t: Settings, runId: string, planId: string, traces: seq<Trace>)
    requires s.node == t.node && s.candidates == t.candidates && s.key == t.key
    requires RecordMatches(r, s, runId, planId, traces)
    ensures RecordMatches(r, t, runId, planId, traces)
  {
  }

  // ----- From a graph to a finished run -----

  /** Compiles a graph and runs the plan; nothing is resolved or executed unless the plan was accepted. */
  method CompileAndRun(planId: string, target: string, horizon: string, graph: CellGraph, registry: seq<Manifest>,
                       catalog: Placement.Catalog, policy: Planner.PolicyFunction, given: seq<InputReference>, requestReference: InputReference,
                       runId: string, cells: set<string>, reader: RequestReader, traceAccepted: Trace -> bool,
                       executor: Coordinator.ExecutorPort, resolver: ResolverPort)
    returns (r: Result<Coordinator.PlanOutcome, Planner.PlannerError>, ghost plan: ExecutionPlan)
    requires catalog.Valid() && executor.calls == [] && resolver.calls == []
    modifies executor, resolver
    ensures var s := Planner.SuppliesFor(planId, target, horizon, graph, registry, catalog, policy, if given == [] then [requestReference] else given);
      r.Ok? <==> GraphValidation.GraphWellFormed(graph, Some(s.manifests.Keys)) && Planner.Served(s) && s.ReferencesUsable()
    ensures r.Err? ==> executor.calls == [] && resolver.calls == []
    ensures r.Ok? ==>
      && PlanValidation.PlanWellFormed(plan)
      && Coordinator.Finished(Coordinator.Run(plan, runId, cells, reader, traceAccepted), resolver.script, executor.script, executor.calls, resolver.calls, r.value)
      && Coordinator.PlanLevels(plan) == Levels(GraphDependencies(GraphNodes(graph)))
      && (r.value.error.None? <==>
            forall j :: 0 <= j < |Coordinator.Order(plan)| ==>
              Coordinator.Problem(Coordinator.Run(plan, runId, cells, reader, traceAccepted), resolver.script, executor.script, j).None?)
      && (r.value.error.None? ==> r.value.results.Keys == GraphNodes(graph).Keys)
      && ((forall m :: m in registry ==> m.cellId in cells) ==> !(r.value.error.Some? && r.value.error.value.NotRegistered?))
  {
    hide *;
    ghost var s := Planner.SuppliesFor(planId, target, horizon, graph, registry, catalog, policy, if given == [] then [requestReference] else given);
    var compiled := Planner.Build(planId, target, horizon, graph, registry, catalog, policy, given, requestReference);
    if compiled.Err? {
      plan := ExecutionPlan("", "", "", "", [], [], []);
      return Err(compiled.error), plan;
    }
    plan := compiled.value.plan;
    Planner.SuppliesParts(planId, target, horizon, graph, registry, catalog, policy, if given == [] then [requestReference] else given);
    Planner.AssembledTopology(s, catalog);
    LevelsOfPlan(plan, graph);
    var run := Coordinator.Run(compiled.value.plan, runId, cells, reader, traceAccepted);
    var outcome := Coordinator.Execute(run, compiled.value.levels, executor, resolver);
    Coordinator.SucceedsIff(run, resolver.script, executor.script, executor.calls, resolver.calls, outcome);
    GraphCompleted(run, graph, resolver.script, executor.script, executor.calls, resolver.calls, outcome);
    Planner.AssembledCells(s, catalog);
    Planner.ManifestsRegistered(planId, target, horizon, graph, registry, catalog, policy, if given == [] then [requestReference] else given);
    if forall m :: m in registry ==> m.cellId in cells {
      NeverUnregistered(run, resolver.script, executor.script, executor.calls, resolver.calls, outcome);
    }
    return Ok(outcome), plan;
  }

  lemma LevelsOfPlan(plan: ExecutionPlan, graph: CellGraph)
    requires PlanDependencies(PlanNodes(plan)) == GraphDependencies(GraphNodes(graph))
    ensures Coordinator.PlanLevels(plan) == Levels(GraphDependencies(GraphNodes(graph)))
  {
    hide Levels, PlanNodes, GraphNodes;
  }

  /** A run over a registry that knows every planned cell never fails for want of one. */
  lemma NeverUnregistered(run: Coordinator.Run, replies: ResolverScript, script: nat -> Coordinator.ExecutorReply,
                          calls: seq<Coordinator.NodeCall>, fetched: seq<ReferenceId>, o: Coordinator.PlanOutcome)
    requires PlanValidation.PlanWellFormed(run.plan) && Coordinator.Finished(run, replies, script, calls, fetched, o)
    requires forall n :: n in run.plan.nodes ==> n.cellId in run.registry
    ensures !(o.error.Some? && o.error.value.NotRegistered?)
  {
    hide *;
    if o.error.Some? {
      var n := |o.completed|;
      Coordinator.FailureFacts(run, replies, script, calls, fetched, o);
      Coordinator.TurnParts(run, replies, script, n);
      var node, firsts, stored := Coordinator.NodeAt(run.plan, n), Coordinator.FetchOrder(run.plan), Coordinator.StoredUpTo(run, script, n);
      Coordinator.NodeParts(node, run, replies, firsts, stored, script(n));
      ComplaintIsAboutReply(run, script(n));
    }
  }

  lemma ComplaintIsAboutReply(run: Coordinator.Run, reply: Coordinator.ExecutorReply)
    ensures forall call :: Coordinator.Complaint(call, run, reply).Some? ==> !Coordinator.Complaint(call, run, reply).value.NotRegistered?
  {
    hide RecordMatches;
  }

  /** A run that succeeds has a result for every node of the graph. */
  lemma GraphCompleted(run: Coordinator.Run, graph: CellGraph, replies: ResolverScript, script: nat -> Coordinator.ExecutorReply,
                       calls: seq<Coordinator.NodeCall>, fetched: seq<ReferenceId>, o: Coordinator.PlanOutcome)
    requires PlanValidation.PlanWellFormed(run.plan) && Coordinator.Finished(run, replies, script, calls, fetched, o)
    requires PlanDependencies(PlanNodes(run.plan)) == GraphDependencies(GraphNodes(graph))
    ensures o.error.None? ==> o.results.Keys == GraphNodes(graph).Keys
  {
    hide *;
    if o.error.None? {
      Coordinator.FinishedFacts(run, replies, script, calls, fetched, o);
      FinishedAll(run, replies, script, calls, fetched, o);
      Coordinator.StoredKeys(run, script, |o.completed|);
      Coordinator.RootCompleted(run.plan);
      Coordinator.OrderIs(run.plan);
      SameNodes(run.plan, graph);
    }
  }

  lemma SameNodes(plan: ExecutionPlan, graph: CellGraph)
    requires PlanDependencies(PlanNodes(plan)) == GraphDependencies(GraphNodes(graph))
    ensures PlanNodes(plan).Keys == GraphNodes(graph).Keys
  {
    hide PlanNodes, GraphNodes;
    assert PlanDependencies(PlanNodes(plan)).Keys == PlanNodes(plan).Keys;
    assert GraphDependencies(GraphNodes(graph)).Keys == GraphNodes(graph).Keys;
  }

  lemma FinishedAll(run: Coordinator.Run, replies: ResolverScript, script: nat -> Coordinator.ExecutorReply,
                    calls: seq<Coordinator.NodeCall>, fetched: seq<ReferenceId>, o: Coordinator.PlanOutcome)
    requires PlanValidation.PlanWellFormed(run.plan) && Coordinator.Finished(run, replies, script, calls, fetched, o) && o.error.None?
    ensures |o.completed| == |Coordinator.Order(run.plan)| && Coordinator.Order(run.plan)[..|o.completed|] == Coordinator.Order(run.plan)
  {
    hide PlanValidation.PlanWellFormed, Coordinator.Order, Coordinator.Problem, Coordinator.CallsAt;
  }
}
