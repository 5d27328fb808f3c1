/** Validation of cell graph definitions (graph/validation.py). */
module GraphValidation {
  import opened Collections
  import opened Ordering
  import opened Topology
  import opened Issues
  import opened PlanModel

  datatype GraphIssue =
    | DuplicateNodeId(nodeId: string)
    | MissingRoot(nodeId: string)
    | InvalidRootRole(nodeId: string)
    | UnexpectedRootRole(nodeId: string)
    | MissingDependency(nodeId: string, dependencyId: string)
    | DuplicateDependency(nodeId: string)
    | SelfDependency(nodeId: string, dependencyId: string)
    | LeafHasDependencies(nodeId: string)
    | CycleDetected(nodeIds: seq<string>)
    | UnreachableNode(nodeId: string)
    | MissingCellImplementation(nodeId: string, cellId: string)
    | DuplicateOrganId(organId: string)
    | DuplicateOrganNode(organId: string)
    | DuplicateOrganOutput(organId: string)
    | OrganHasNoOutputs(organId: string)
    | MissingOrganNode(organId: string, nodeId: string)
    | OrganOutputNotMember(organId: string, nodeId: string)
    | OrganDependencyOutside(organId: string, nodeId: string, dependencyId: string)
    | OrganUnreachableNode(organId: string, nodeId: string)

  // ----- When an issue is true of a graph -----

  /** What one node can be blamed for, dependencies and role. */
  ghost predicate NodeBlamed(n: CellGraphNode, ids: set<string>, x: GraphIssue) {
    match x
    case LeafHasDependencies(id) => id == n.nodeId && n.role == Leaf && n.dependencies != []
    case DuplicateDependency(id) => id == n.nodeId && !Distinct(n.dependencies)
    case SelfDependency(id, d) => id == n.nodeId == d && d in n.dependencies
    case MissingDependency(id, d) => id == n.nodeId && d in n.dependencies && d != id && d !in ids
    case _ => false
  }

  ghost predicate RoleBlamed(n: CellGraphNode, root: string, x: GraphIssue) {
    x.UnexpectedRootRole? && x.nodeId == n.nodeId && n.role == Root && n.nodeId != root
  }

  ghost predicate CellBlamed(n: CellGraphNode, cells: set<string>, x: GraphIssue) {
    x == MissingCellImplementation(n.nodeId, n.cellId) && n.cellId !in cells
  }

  /** The part of the dependency map that lies inside an organ. */
  function OrganDependencies(organ: CellOrgan, g: DependencyMap): DependencyMap {
    map id | id in g && id in organ.nodeIds :: g[id]
  }

  function ValidOutputs(organ: CellOrgan, g: DependencyMap): seq<string> {
    Filter(id => id in OrganDependencies(organ, g), organ.outputNodeIds)
  }

  ghost predicate OrganBlamed(o: CellOrgan, g: DependencyMap, x: GraphIssue) {
    match x
    case DuplicateOrganNode(id) => id == o.organId && !Distinct(o.nodeIds)
    case DuplicateOrganOutput(id) => id == o.organId && !Distinct(o.outputNodeIds)
    case OrganHasNoOutputs(id) => id == o.organId && o.outputNodeIds == []
    case MissingOrganNode(id, n) => id == o.organId && n in o.nodeIds && n !in g
    case OrganOutputNotMember(id, n) => id == o.organId && n in o.outputNodeIds && n !in o.nodeIds
    case OrganDependencyOutside(id, n, d) =>
      id == o.organId && n in o.nodeIds && DependsOn(g, n, d) && d !in o.nodeIds
    case OrganUnreachableNode(id, n) =>
      && id == o.organId && n in o.nodeIds && n in g && ValidOutputs(o, g) != []
      && n !in ReachableFrom(OrganDependencies(o, g), ValidOutputs(o, g))
    case _ => false
  }

  ghost predicate RootBlamed(graph: CellGraph, x: GraphIssue) {
    match x
    case MissingRoot(id) => id == graph.rootNodeId && id !in GraphNodes(graph)
    case InvalidRootRole(id) =>
      id == graph.rootNodeId && id in GraphNodes(graph) && GraphNodes(graph)[id].role != Root
    case _ => exists n :: n in graph.nodes && RoleBlamed(n, graph.rootNodeId, x)
  }

  ghost predicate TopologyBlamed(g: DependencyMap, root: string, x: GraphIssue) {
    match x
    case CycleDetected(ids) => ids == SortedSet(CyclicSet(g)) && CyclicSet(g) != {}
    case UnreachableNode(id) => root in g && id in g && id !in ReachableFrom(g, [root])
    case _ => false
  }

  ghost predicate NodesBlamed(graph: CellGraph, x: GraphIssue) {
    exists n :: n in graph.nodes && NodeBlamed(n, GraphNodes(graph).Keys, x)
  }

  ghost predicate CellsBlamed(graph: CellGraph, cells: Option<set<string>>, x: GraphIssue) {
    cells.Some? && exists n :: n in graph.nodes && CellBlamed(n, cells.value, x)
  }

  function OrganKey(o: CellOrgan): string { o.organId }

  ghost predicate AnyOrganBlamed(organs: seq<CellOrgan>, g: DependencyMap, x: GraphIssue) {
    exists o :: o in organs && OrganBlamed(o, g, x)
  }

  ghost predicate OrgansBlamed(graph: CellGraph, x: GraphIssue) {
    || (x.DuplicateOrganId? && x.organId in Repeats(Map(OrganKey, graph.organs)))
    || AnyOrganBlamed(graph.organs, GraphDependencies(GraphNodes(graph)), x)
  }

  /** The issue is a true statement about the graph. */
  ghost predicate Holds(graph: CellGraph, cells: Option<set<string>>, x: GraphIssue) {
    || (x.DuplicateNodeId? && x.nodeId in Repeats(Map(GraphNodeKey, graph.nodes)))
    || RootBlamed(graph, x)
    || NodesBlamed(graph, x)
    || CellsBlamed(graph, cells, x)
    || OrgansBlamed(graph, x)
    || TopologyBlamed(GraphDependencies(GraphNodes(graph)), graph.rootNodeId, x)
  }

  // ----- The issues in the order in which they are found -----

  function RootIssues(graph: CellGraph): seq<GraphIssue> {
    var byId, root := GraphNodes(graph), graph.rootNodeId;
    (if root !in byId then [MissingRoot(root)] else One(byId[root].role != Root, InvalidRootRole(root)))
    + FlatMap((n: CellGraphNode) => One(n.role == Root && n.nodeId != root, UnexpectedRootRole(n.nodeId)), graph.nodes)
  }

  function DependencyIssue(n: CellGraphNode, d: string, ids: set<string>): seq<GraphIssue> {
    if d == n.nodeId then [SelfDependency(n.nodeId, d)] else One(d !in ids, MissingDependency(n.nodeId, d))
  }

  function NodeIssues(n: CellGraphNode, ids: set<string>): seq<GraphIssue> {
    One(n.role == Leaf && n.dependencies != [], LeafHasDependencies(n.nodeId))
    + One(!Distinct(n.dependencies), DuplicateDependency(n.nodeId))
    + FlatMap(d => DependencyIssue(n, d, ids), n.dependencies)
  }

  function NodesIssues(graph: CellGraph): seq<GraphIssue> {
    var ids := GraphNodes(graph).Keys;
    FlatMap((n: CellGraphNode) => NodeIssues(n, ids), graph.nodes)
  }

  function CellIssues(graph: CellGraph, cells: Option<set<string>>): seq<GraphIssue> {
    if cells.None? then []
    else FlatMap((n: CellGraphNode) => One(n.cellId !in cells.value, MissingCellImplementation(n.nodeId, n.cellId)), graph.nodes)
  }

  function OrganShapeIssues(o: CellOrgan, g: DependencyMap): seq<GraphIssue> {
    One(!Distinct(o.nodeIds), DuplicateOrganNode(o.organId))
    + One(!Distinct(o.outputNodeIds), DuplicateOrganOutput(o.organId))
    + One(o.outputNodeIds == [], OrganHasNoOutputs(o.organId))
    + FlatMap(n => One(n !in g, MissingOrganNode(o.organId, n)), o.nodeIds)
    + FlatMap(n => One(n !in o.nodeIds, OrganOutputNotMember(o.organId, n)), o.outputNodeIds)
  }

  function OutsideIssue(o: CellOrgan, g: DependencyMap, n: string, d: string): seq<GraphIssue> {
    One(d in g && d !in o.nodeIds, OrganDependencyOutside(o.organId, n, d))
  }

  /** The dependencies of one member that leave the organ. */
  function MemberIssues(o: CellOrgan, g: DependencyMap, n: string): seq<GraphIssue> {
    if n in g then FlatMap(d => OutsideIssue(o, g, n, d), g[n]) else []
  }

  /** The members present in the graph are visited in the order of a set, which may be any. */
  function BoundaryIssues(o: CellOrgan, g: DependencyMap, visited: seq<string>): seq<GraphIssue> {
    FlatMap(n => MemberIssues(o, g, n), visited)
  }

  ghost function OrganReachIssues(o: CellOrgan, g: DependencyMap): seq<GraphIssue> {
    var inner := OrganDependencies(o, g);
    if ValidOutputs(o, g) == [] then []
    else Map(n => OrganUnreachableNode(o.organId, n), SortedSet(inner.Keys - ReachableFrom(inner, ValidOutputs(o, g))))
  }

  ghost function OrganIssues(o: CellOrgan, g: DependencyMap, visited: seq<string>): seq<GraphIssue> {
    OrganShapeIssues(o, g) + BoundaryIssues(o, g, visited) + OrganReachIssues(o, g)
  }

  /** `visited` lists the members of the organ that are in the graph, each once. */
  ghost predicate Visits(o: CellOrgan, g: DependencyMap, visited: seq<string>) {
    Distinct(visited) && forall n :: n in visited <==> n in o.nodeIds && n in g
  }

  /** The issues of the organs, given the order in which the members of each were visited. */
  ghost function OrgansIssues(organs: seq<CellOrgan>, g: DependencyMap, visits: seq<seq<string>>): seq<GraphIssue>
    requires |visits| == |organs|
  {
    if organs == [] then []
    else
      var n := |organs| - 1;
      OrgansIssues(organs[..n], g, visits[..n])
      + One(organs[n].organId in Map(OrganKey, organs[..n]), DuplicateOrganId(organs[n].organId))
      + OrganIssues(organs[n], g, visits[n])
  }

  ghost predicate AllVisit(organs: seq<CellOrgan>, g: DependencyMap, visits: seq<seq<string>>) {
    |visits| == |organs| && forall i :: 0 <= i < |organs| ==> Visits(organs[i], g, visits[i])
  }

  ghost function TopologyIssues(g: DependencyMap, root: string): seq<GraphIssue> {
    One(CyclicSet(g) != {}, CycleDetected(SortedSet(CyclicSet(g))))
    + (if root !in g then [] else Map(id => UnreachableNode(id), SortedSet(g.Keys - ReachableFrom(g, [root]))))
  }

  /** Every issue of a graph, in order and with repetitions. */
  ghost function GraphIssues(graph: CellGraph, cells: Option<set<string>>, visits: seq<seq<string>>): seq<GraphIssue>
    requires |visits| == |graph.organs|
  {
    var g := GraphDependencies(GraphNodes(graph));
    Map(id => DuplicateNodeId(id), Repeats(Map(GraphNodeKey, graph.nodes)))
    + RootIssues(graph) + NodesIssues(graph) + CellIssues(graph, cells) + OrgansIssues(graph.organs, g, visits)
    + TopologyIssues(g, graph.rootNodeId)
  }

  // ----- An issue is listed exactly when it is true -----

  lemma OneIn<T>(condition: bool, issue: T, x: T)
    ensures x in One(condition, issue) <==> condition && x == issue
  {
  }

  lemma MapIn<T>(f: T -> GraphIssue, xs: seq<T>, x: GraphIssue)
    ensures x in Map(f, xs) <==> exists id :: id in xs && f(id) == x
  {
    if x in Map(f, xs) {
      var i :| 0 <= i < |Map(f, xs)| && Map(f, xs)[i] == x;
      assert xs[i] in xs;
    }
    if id :| id in xs && f(id) == x {
      var i :| 0 <= i < |xs| && xs[i] == id;
      assert Map(f, xs)[i] == x;
    }
  }

  lemma RootIssuesIn(graph: CellGraph, x: GraphIssue)
    ensures x in RootIssues(graph) <==> RootBlamed(graph, x)
  {
    hide FirstById, FlatMap;
    FlatMapIn((n: CellGraphNode) => One(n.role == Root && n.nodeId != graph.rootNodeId, UnexpectedRootRole(n.nodeId)), graph.nodes, x);
  }

  lemma NodeIssuesIn(n: CellGraphNode, ids: set<string>, x: GraphIssue)
    ensures x in NodeIssues(n, ids) <==> NodeBlamed(n, ids, x)
  {
    hide FlatMap, Distinct;
    var f := d => DependencyIssue(n, d, ids);
    FlatMapIn(f, n.dependencies, x);
    assert x in FlatMap(f, n.dependencies) <==>
      exists d :: d in n.dependencies && (if d == n.nodeId then x == SelfDependency(n.nodeId, d) else d !in ids && x == MissingDependency(n.nodeId, d)) by {
      forall d ensures x in f(d) <==> if d == n.nodeId then x == SelfDependency(n.nodeId, d) else d !in ids && x == MissingDependency(n.nodeId, d) {}
    }
  }

  lemma NodesIssuesIn(graph: CellGraph, x: GraphIssue)
    ensures x in NodesIssues(graph) <==> NodesBlamed(graph, x)
  {
    hide FlatMap, NodeIssues, NodeBlamed, FirstById;
    var ids := GraphNodes(graph).Keys;
    FlatMapIn((n: CellGraphNode) => NodeIssues(n, ids), graph.nodes, x);
    forall n | n in graph.nodes ensures x in NodeIssues(n, ids) <==> NodeBlamed(n, ids, x) { NodeIssuesIn(n, ids, x); }
  }

  lemma CellIssuesIn(graph: CellGraph, cells: Option<set<string>>, x: GraphIssue)
    ensures x in CellIssues(graph, cells) <==> CellsBlamed(graph, cells, x)
  {
    hide FlatMap;
    if cells.Some? {
      FlatMapIn((n: CellGraphNode) => One(n.cellId !in cells.value, MissingCellImplementation(n.nodeId, n.cellId)), graph.nodes, x);
    }
  }

  lemma OrganShapeIn(o: CellOrgan, g: DependencyMap, x: GraphIssue)
    ensures x in OrganShapeIssues(o, g) <==> OrganBlamed(o, g, x) && !x.OrganDependencyOutside? && !x.OrganUnreachableNode?
  {
    hide FlatMap, Distinct, DependsOn, ReachableFrom, Filter;
    FlatMapIn(n => One(n !in g, MissingOrganNode(o.organId, n)), o.nodeIds, x);
    FlatMapIn(n => One(n !in o.nodeIds, OrganOutputNotMember(o.organId, n)), o.outputNodeIds, x);
  }

  lemma MemberIssuesIn(o: CellOrgan, g: DependencyMap, n: string, x: GraphIssue)
    requires n in o.nodeIds && n in g
    ensures x in MemberIssues(o, g, n) <==> x.OrganDependencyOutside? && x.nodeId == n && OrganBlamed(o, g, x)
  {
    hide FlatMap, Distinct, ReachableFrom, Filter;
    FlatMapIn(d => OutsideIssue(o, g, n, d), g[n], x);
    assert DependsOn(g, n, if x.OrganDependencyOutside? then x.dependencyId else "") <==>
      n in g && (if x.OrganDependencyOutside? then x.dependencyId else "") in g[n] && (if x.OrganDependencyOutside? then x.dependencyId else "") in g;
  }

  lemma BoundaryIn(o: CellOrgan, g: DependencyMap, visited: seq<string>, x: GraphIssue)
    requires Visits(o, g, visited)
    ensures x in BoundaryIssues(o, g, visited) <==> OrganBlamed(o, g, x) && x.OrganDependencyOutside?
  {
    hide FlatMap, Distinct, ReachableFrom, Filter;
    FlatMapIn(n => MemberIssues(o, g, n), visited, x);
    forall n | n in visited
      ensures x in MemberIssues(o, g, n) <==> x.OrganDependencyOutside? && x.nodeId == n && OrganBlamed(o, g, x)
    {
      MemberIssuesIn(o, g, n, x);
    }
  }

  lemma OrganReachIn(o: CellOrgan, g: DependencyMap, x: GraphIssue)
    ensures x in OrganReachIssues(o, g) <==> OrganBlamed(o, g, x) && x.OrganUnreachableNode?
  {
    hide ReachableFrom, Filter, DependsOn, Distinct, Map;
    var inner := OrganDependencies(o, g);
    var unreachable := inner.Keys - ReachableFrom(inner, ValidOutputs(o, g));
    MapIn(n => OrganUnreachableNode(o.organId, n), SortedSet(unreachable), x);
    assert forall n :: n in SortedSet(unreachable) <==> n in Elements(SortedSet(unreachable));
    assert x in Map(n => OrganUnreachableNode(o.organId, n), SortedSet(unreachable)) <==>
      x.OrganUnreachableNode? && x.organId == o.organId && x.nodeId in unreachable;
    assert forall n :: n in inner <==> n in o.nodeIds && n in g;
  }

  lemma OrganIssuesIn(o: CellOrgan, g: DependencyMap, visited: seq<string>, x: GraphIssue)
    requires Visits(o, g, visited)
    ensures x in OrganIssues(o, g, visited) <==> OrganBlamed(o, g, x)
  {
    hide OrganBlamed, OrganShapeIssues, BoundaryIssues, OrganReachIssues;
    OrganShapeIn(o, g, x);
    BoundaryIn(o, g, visited, x);
    OrganReachIn(o, g, x);
  }

  lemma {:induction false} OrgansIssuesIn(organs: seq<CellOrgan>, g: DependencyMap, visits: seq<seq<string>>, x: GraphIssue)
    requires AllVisit(organs, g, visits)
    ensures x in OrgansIssues(organs, g, visits) <==>
      (x.DuplicateOrganId? && x.organId in Repeats(Map(OrganKey, organs))) || AnyOrganBlamed(organs, g, x)
  {
    hide OrganBlamed, OrganIssues, Visits, Map;
    if organs == [] {
      NothingRepeats(Map(OrganKey, organs));
    } else {
      var n := |organs| - 1;
      OrgansIssuesIn(organs[..n], g, visits[..n], x);
      OrganIssuesIn(organs[n], g, visits[n], x);
      MapAppend(OrganKey, organs[..n], organs[n]);
      RepeatsAppend(Map(OrganKey, organs[..n]), organs[n].organId);
      assert organs == organs[..n] + [organs[n]];
      assert AnyOrganBlamed(organs, g, x) <==> AnyOrganBlamed(organs[..n], g, x) || OrganBlamed(organs[n], g, x);
    }
  }

  lemma NothingRepeats(ids: seq<string>)
    requires ids == []
    ensures Repeats(ids) == []
  {
  }

  lemma TopologyIssuesIn(g: DependencyMap, root: string, x: GraphIssue)
    ensures x in TopologyIssues(g, root) <==> TopologyBlamed(g, root, x)
  {
    hide ReachableFrom, CyclicSet, Map;
    var unreachable := g.Keys - ReachableFrom(g, [root]);
    OneIn(CyclicSet(g) != {}, CycleDetected(SortedSet(CyclicSet(g))), x);
    MapIn(id => UnreachableNode(id), SortedSet(unreachable), x);
    assert forall n :: n in SortedSet(unreachable) <==> n in Elements(SortedSet(unreachable));
    assert x in Map(id => UnreachableNode(id), SortedSet(unreachable)) <==> x.UnreachableNode? && x.nodeId in unreachable;
  }

  /** The list holds exactly the issues that are true of the graph, in whatever order members were visited. */
  lemma GraphIssuesIn(graph: CellGraph, cells: Option<set<string>>, visits: seq<seq<string>>, x: GraphIssue)
    requires AllVisit(graph.organs, GraphDependencies(GraphNodes(graph)), visits)
    ensures x in GraphIssues(graph, cells, visits) <==> Holds(graph, cells, x)
  {
    hide RootBlamed, NodesBlamed, CellsBlamed, AnyOrganBlamed, TopologyBlamed, RootIssues, NodesIssues, CellIssues, OrgansIssues, TopologyIssues,
      Visits, Map, Repeats, FirstById;
    MapIn(id => DuplicateNodeId(id), Repeats(Map(GraphNodeKey, graph.nodes)), x);
    RootIssuesIn(graph, x);
    NodesIssuesIn(graph, x);
    CellIssuesIn(graph, cells, x);
    OrgansIssuesIn(graph.organs, GraphDependencies(GraphNodes(graph)), visits, x);
    TopologyIssuesIn(GraphDependencies(GraphNodes(graph)), graph.rootNodeId, x);
  }

  /** So the list is empty exactly for a well-formed graph. */
  lemma GraphIssuesEmptyIff(graph: CellGraph, cells: Option<set<string>>, visits: seq<seq<string>>)
    requires AllVisit(graph.organs, GraphDependencies(GraphNodes(graph)), visits)
    ensures GraphIssues(graph, cells, visits) == [] <==> GraphWellFormed(graph, cells)
  {
    hide Holds, GraphWellFormed, GraphIssues, Visits;
    NoIssueIffWellFormed(graph, cells);
    forall x ensures x in GraphIssues(graph, cells, visits) <==> Holds(graph, cells, x) { GraphIssuesIn(graph, cells, visits, x); }
    if GraphIssues(graph, cells, visits) != [] { assert GraphIssues(graph, cells, visits)[0] in GraphIssues(graph, cells, visits); }
  }

  // ----- What an accepted graph is -----

  ghost predicate OrganWellFormed(o: CellOrgan, g: DependencyMap) {
    && Distinct(o.nodeIds) && Distinct(o.outputNodeIds) && o.outputNodeIds != []
    && (forall n :: n in o.nodeIds ==> n in g)
    && (forall n :: n in o.outputNodeIds ==> n in o.nodeIds)
    && (forall n, d :: n in o.nodeIds && DependsOn(g, n, d) ==> d in o.nodeIds)
    && ReachableFrom(OrganDependencies(o, g), o.outputNodeIds) == Elements(o.nodeIds)
  }

  ghost predicate GraphNodeWellFormed(n: CellGraphNode, ids: set<string>) {
    && (n.role == Leaf ==> n.dependencies == [])
    && Distinct(n.dependencies)
    && forall d :: d in n.dependencies ==> d != n.nodeId && d in ids
  }

  ghost predicate GraphWellFormed(graph: CellGraph, cells: Option<set<string>>) {
    var g := GraphDependencies(GraphNodes(graph));
    && Distinct(Map(GraphNodeKey, graph.nodes))
    && (forall n :: n in graph.nodes ==> (n.role == Root <==> n.nodeId == graph.rootNodeId))
    && (forall n :: n in graph.nodes ==> GraphNodeWellFormed(n, g.Keys))
    && (cells.Some? ==> forall n :: n in graph.nodes ==> n.cellId in cells.value)
    && Distinct(Map(OrganKey, graph.organs))
    && (forall o :: o in graph.organs ==> OrganWellFormed(o, g))
    && RootedAcyclic(g, graph.rootNodeId)
  }

  // ----- No true issue means well formed -----

  lemma NodeUnblamed(n: CellGraphNode, ids: set<string>)
    ensures (forall x :: !NodeBlamed(n, ids, x)) <==> GraphNodeWellFormed(n, ids)
  {
    if !GraphNodeWellFormed(n, ids) {
      if n.role == Leaf && n.dependencies != [] {
        assert NodeBlamed(n, ids, LeafHasDependencies(n.nodeId));
      } else if !Distinct(n.dependencies) {
        assert NodeBlamed(n, ids, DuplicateDependency(n.nodeId));
      } else {
        var d :| d in n.dependencies && !(d != n.nodeId && d in ids);
        assert NodeBlamed(n, ids, if d == n.nodeId then SelfDependency(n.nodeId, d) else MissingDependency(n.nodeId, d));
      }
    }
  }

  lemma ValidOutputsAll(o: CellOrgan, g: DependencyMap)
    requires forall n :: n in o.outputNodeIds ==> n in OrganDependencies(o, g)
    ensures ValidOutputs(o, g) == o.outputNodeIds
  {
    FilterAll(id => id in OrganDependencies(o, g), o.outputNodeIds);
  }

  lemma OrganUnblamed(o: CellOrgan, g: DependencyMap)
    ensures (forall x :: !OrganBlamed(o, g, x)) <==> OrganWellFormed(o, g)
  {
    hide ReachableFrom, Filter;
    var inner := OrganDependencies(o, g);
    if forall x :: !OrganBlamed(o, g, x) {
      assert !OrganBlamed(o, g, DuplicateOrganNode(o.organId));
      assert !OrganBlamed(o, g, DuplicateOrganOutput(o.organId));
      assert !OrganBlamed(o, g, OrganHasNoOutputs(o.organId));
      forall n | n in o.nodeIds ensures n in g { assert !OrganBlamed(o, g, MissingOrganNode(o.organId, n)); }
      forall n | n in o.outputNodeIds ensures n in o.nodeIds {
        assert !OrganBlamed(o, g, OrganOutputNotMember(o.organId, n));
      }
      forall n, d | n in o.nodeIds && DependsOn(g, n, d) ensures d in o.nodeIds {
        assert !OrganBlamed(o, g, OrganDependencyOutside(o.organId, n, d));
      }
      ValidOutputsAll(o, g);
      forall n | n in o.nodeIds ensures n in ReachableFrom(inner, o.outputNodeIds) {
        assert !OrganBlamed(o, g, OrganUnreachableNode(o.organId, n));
      }
      ReachableInside(inner, o.outputNodeIds);
      assert ReachableFrom(inner, o.outputNodeIds) == Elements(o.nodeIds);
    }
    if OrganWellFormed(o, g) {
      ValidOutputsAll(o, g);
      forall x ensures !OrganBlamed(o, g, x) {
        if x.OrganUnreachableNode? && x.nodeId in o.nodeIds {
          assert x.nodeId in Elements(o.nodeIds);
        }
      }
    }
  }

  lemma ReachableInside(g: DependencyMap, roots: seq<string>)
    ensures ReachableFrom(g, roots) <= g.Keys
  {
  }

  lemma RootUnblamed(graph: CellGraph)
    requires Distinct(Map(GraphNodeKey, graph.nodes))
    ensures (forall x :: !RootBlamed(graph, x)) <==>
      (&& graph.rootNodeId in GraphNodes(graph)
       && forall n :: n in graph.nodes ==> (n.role == Root <==> n.nodeId == graph.rootNodeId))
  {
    hide FirstById, Map, Distinct;
    var root := graph.rootNodeId;
    forall n | n in graph.nodes ensures n.nodeId in GraphNodes(graph) && GraphNodes(graph)[n.nodeId] == n {
      FirstByIdFinds(GraphNodeKey, graph.nodes, n);
    }
    if forall x :: !RootBlamed(graph, x) {
      assert !RootBlamed(graph, MissingRoot(root));
      assert !RootBlamed(graph, InvalidRootRole(root));
      forall n | n in graph.nodes ensures n.role == Root <==> n.nodeId == root {
        assert !RootBlamed(graph, UnexpectedRootRole(n.nodeId));
        assert RoleBlamed(n, root, UnexpectedRootRole(n.nodeId)) <==> n.role == Root && n.nodeId != root;
      }
    }
  }

  lemma TopologyUnblamed(g: DependencyMap, root: string)
    requires root in g
    ensures (forall x :: !TopologyBlamed(g, root, x)) <==> RootedAcyclic(g, root)
  {
    hide CyclicSet, ReachableFrom;
    ReachableInside(g, [root]);
    if forall x :: !TopologyBlamed(g, root, x) {
      assert !TopologyBlamed(g, root, CycleDetected(SortedSet(CyclicSet(g))));
      forall n | n in g ensures n in ReachableFrom(g, [root]) { assert !TopologyBlamed(g, root, UnreachableNode(n)); }
    }
  }

  lemma RepeatsUnblamed(ids: seq<string>)
    ensures (forall id :: id !in Repeats(ids)) <==> Distinct(ids)
  {
    RepeatsEmptyIff(ids);
    if Repeats(ids) != [] { assert Repeats(ids)[0] in Repeats(ids); }
  }

  lemma OrgansUnblamed(graph: CellGraph)
    ensures (forall x :: !OrgansBlamed(graph, x)) <==>
      (&& Distinct(Map(OrganKey, graph.organs))
       && forall o :: o in graph.organs ==> OrganWellFormed(o, GraphDependencies(GraphNodes(graph))))
  {
    hide OrganBlamed, OrganWellFormed, GraphNodes, Repeats, Distinct, Map;
    var g := GraphDependencies(GraphNodes(graph));
    RepeatsUnblamed(Map(OrganKey, graph.organs));
    if forall x :: !OrgansBlamed(graph, x) {
      forall id ensures id !in Repeats(Map(OrganKey, graph.organs)) { assert !OrgansBlamed(graph, DuplicateOrganId(id)); }
      forall o | o in graph.organs ensures OrganWellFormed(o, g) {
        forall x ensures !OrganBlamed(o, g, x) {
          assert !OrgansBlamed(graph, x);
          assert !AnyOrganBlamed(graph.organs, g, x);
        }
        OrganUnblamed(o, g);
      }
    } else {
      var x :| OrgansBlamed(graph, x);
      if AnyOrganBlamed(graph.organs, g, x) {
        var o :| o in graph.organs && OrganBlamed(o, g, x);
        OrganUnblamed(o, g);
        assert !OrganWellFormed(o, g);
      } else {
        assert x.organId in Repeats(Map(OrganKey, graph.organs));
      }
    }
  }

  lemma NodesUnblamed(graph: CellGraph)
    ensures (forall x :: !NodesBlamed(graph, x)) <==>
      forall n :: n in graph.nodes ==> GraphNodeWellFormed(n, GraphNodes(graph).Keys)
  {
    hide NodeBlamed, GraphNodeWellFormed, GraphNodes;
    var ids := GraphNodes(graph).Keys;
    forall n | n in graph.nodes ensures (forall x :: !NodeBlamed(n, ids, x)) <==> GraphNodeWellFormed(n, ids) { NodeUnblamed(n, ids); }
    if forall x :: !NodesBlamed(graph, x) {
      forall n, x | n in graph.nodes ensures !NodeBlamed(n, ids, x) { assert !NodesBlamed(graph, x); }
    }
  }

  lemma CellsUnblamed(graph: CellGraph, cells: Option<set<string>>)
    ensures (forall x :: !CellsBlamed(graph, cells, x)) <==>
      (cells.Some? ==> forall n :: n in graph.nodes ==> n.cellId in cells.value)
  {
    if cells.Some? && forall x :: !CellsBlamed(graph, cells, x) {
      forall n | n in graph.nodes ensures n.cellId in cells.value {
        assert !CellsBlamed(graph, cells, MissingCellImplementation(n.nodeId, n.cellId));
        assert CellBlamed(n, cells.value, MissingCellImplementation(n.nodeId, n.cellId)) <==> n.cellId !in cells.value;
      }
    }
  }

  /** No issue is true of a graph exactly when it is well formed. */
  lemma NoIssueIffWellFormed(graph: CellGraph, cells: Option<set<string>>)
    ensures (forall x :: !Holds(graph, cells, x)) <==> GraphWellFormed(graph, cells)
  {
    hide RootBlamed, NodesBlamed, CellsBlamed, OrgansBlamed, TopologyBlamed, OrganWellFormed, GraphNodeWellFormed, RootedAcyclic, GraphNodes, Repeats;
    var g := GraphDependencies(GraphNodes(graph));
    var ids := Map(GraphNodeKey, graph.nodes);
    assert g.Keys == GraphNodes(graph).Keys;
    RepeatsUnblamed(ids);
    NodesUnblamed(graph);
    CellsUnblamed(graph, cells);
    OrgansUnblamed(graph);
    if forall x :: !Holds(graph, cells, x) {
      forall id ensures id !in Repeats(ids) { assert !Holds(graph, cells, DuplicateNodeId(id)); }
      forall x ensures !RootBlamed(graph, x) && !NodesBlamed(graph, x) && !CellsBlamed(graph, cells, x)
                    && !OrgansBlamed(graph, x) && !TopologyBlamed(g, graph.rootNodeId, x) {
        assert !Holds(graph, cells, x);
      }
      RootUnblamed(graph);
      TopologyUnblamed(g, graph.rootNodeId);
    }
    if GraphWellFormed(graph, cells) {
      RootedHasRoot(g, graph.rootNodeId);
      RootUnblamed(graph);
      TopologyUnblamed(g, graph.rootNodeId);
    }
  }

  lemma RootedHasRoot(g: DependencyMap, root: string)
    requires RootedAcyclic(g, root)
    ensures root in g
  {
  }
}
