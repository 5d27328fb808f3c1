/** Graph definitions, service bindings and execution plans (graph/models.py, execution/models.py). */
module PlanModel {
  import opened Collections
  import opened Ordering
  import opened Topology
  import opened Issues
  import opened InputModel

  datatype Role = Leaf | Aggregator | Root

  datatype CellGraphNode = CellGraphNode(nodeId: string, cellId: string, role: Role, dependencies: seq<string>)

  datatype CellOrgan = CellOrgan(organId: string, nodeIds: seq<string>, outputNodeIds: seq<string>)

  datatype CellGraph = CellGraph(rootNodeId: string, nodes: seq<CellGraphNode>, organs: seq<CellOrgan>)

  datatype Manifest = Manifest(cellId: string, formulaVersion: string, requiredInputKinds: seq<string>)

  datatype ResourceHints = ResourceHints(stateful: bool, expectedTimeoutMs: int, maxRetries: int) {
    predicate Valid() {
      expectedTimeoutMs >= 1 && maxRetries >= 0
    }
  }

  datatype ServiceBinding = ServiceBinding(
    implementationId: string, cellId: string, serviceId: string, runtime: string, formulaVersion: string,
    priority: int, capabilities: seq<string>, maxConcurrency: Option<int>, hints: ResourceHints)
  {
    function Id(): string {
      "binding:" + serviceId + ":" + implementationId
    }

    predicate Valid() {
      && hints.Valid()
      && priority >= 0
      && (maxConcurrency.Some? ==> maxConcurrency.value >= 1)
    }
  }

  datatype ExecutionNode = ExecutionNode(
    nodeId: string, cellId: string, formulaVersion: string, role: Role, bindingId: string,
    fallbackBindingIds: seq<string>, dependencies: seq<string>, inputReferenceIds: seq<ReferenceId>,
    requiredInputKinds: seq<string>, hints: ResourceHints)

  datatype ExecutionPlan = ExecutionPlan(
    planId: string, target: string, horizon: string, rootNodeId: string, nodes: seq<ExecutionNode>,
    inputReferences: seq<InputReference>, serviceBindings: seq<ServiceBinding>)

  datatype ValidatedPlan = ValidatedPlan(plan: ExecutionPlan, levels: seq<seq<string>>)

  // ----- Lookup tables -----

  function NodeKey(n: ExecutionNode): string { n.nodeId }

  function GraphNodeKey(n: CellGraphNode): string { n.nodeId }

  function BindingKey(b: ServiceBinding): string { b.Id() }

  function ReferenceKey(r: InputReference): ReferenceId { r.referenceId }

  function PlanNodes(plan: ExecutionPlan): map<string, ExecutionNode> { FirstById(NodeKey, plan.nodes) }

  function PlanBindings(plan: ExecutionPlan): map<string, ServiceBinding> { FirstById(BindingKey, plan.serviceBindings) }

  function PlanReferences(plan: ExecutionPlan): map<ReferenceId, InputReference> { FirstById(ReferenceKey, plan.inputReferences) }

  function GraphNodes(graph: CellGraph): map<string, CellGraphNode> { FirstById(GraphNodeKey, graph.nodes) }

  function PlanDependencies(byId: map<string, ExecutionNode>): DependencyMap {
    map id | id in byId :: byId[id].dependencies
  }

  function GraphDependencies(byId: map<string, CellGraphNode>): DependencyMap {
    map id | id in byId :: byId[id].dependencies
  }
}
