/** The graph validation pass: loops that append to one shared issue list (graph/validation.py). */
module GraphValidator {
  import opened Collections
  import opened Ordering
  import opened Topology
  import opened Issues
  import opened PlanModel
  import opened GraphValidation

  datatype ValidatedGraph = ValidatedGraph(graph: CellGraph, levels: seq<seq<string>>)

  method ValidateRoot(graph: CellGraph, nodeById: map<string, CellGraphNode>, issues: IssueLog<GraphIssue>)
    requires nodeById == GraphNodes(graph)
    modifies issues
    ensures issues.items == old(issues.items) + RootIssues(graph)
  {
    hide FirstById, FlatMap;
    var root := graph.rootNodeId;
    if root !in nodeById {
      issues.Append(MissingRoot(root));
    } else if nodeById[root].role != Root {
      issues.Append(InvalidRootRole(root));
    }
    ValidateRootRoles(graph, issues);
  }

  method ValidateRootRoles(graph: CellGraph, issues: IssueLog<GraphIssue>)
    modifies issues
    ensures issues.items == old(issues.items) +
      FlatMap((n: CellGraphNode) => One(n.role == Root && n.nodeId != graph.rootNodeId, UnexpectedRootRole(n.nodeId)), graph.nodes)
  {
    var root := graph.rootNodeId;
    ghost var before := issues.items;
    ghost var f := (n: CellGraphNode) => One(n.role == Root && n.nodeId != root, UnexpectedRootRole(n.nodeId));
    for i := 0 to |graph.nodes|
      invariant issues.items == before + FlatMap(f, graph.nodes[..i])
    {
      FlatMapStep(f, graph.nodes, i);
      var node := graph.nodes[i];
      ReportIf(node.role == Root && node.nodeId != root, UnexpectedRootRole(node.nodeId), issues);
    }
    assert graph.nodes[..|graph.nodes|] == graph.nodes;
  }

  method ValidateNode(node: CellGraphNode, nodeById: map<string, CellGraphNode>, issues: IssueLog<GraphIssue>)
    modifies issues
    ensures issues.items == old(issues.items) + NodeIssues(node, nodeById.Keys)
  {
    hide Distinct, FlatMap, One;
    DistinctIffSetSize(node.dependencies);
    ReportIf(node.role == Leaf && node.dependencies != [], LeafHasDependencies(node.nodeId), issues);
    ReportIf(|node.dependencies| != |Elements(node.dependencies)|, DuplicateDependency(node.nodeId), issues);
    ValidateDependencies(node, nodeById, issues);
    Regroup3(old(issues.items), One(node.role == Leaf && node.dependencies != [], LeafHasDependencies(node.nodeId)),
             One(!Distinct(node.dependencies), DuplicateDependency(node.nodeId)), FlatMap(d => DependencyIssue(node, d, nodeById.Keys), node.dependencies));
  }

  method ValidateDependencies(node: CellGraphNode, nodeById: map<string, CellGraphNode>, issues: IssueLog<GraphIssue>)
    modifies issues
    ensures issues.items == old(issues.items) + FlatMap(d => DependencyIssue(node, d, nodeById.Keys), node.dependencies)
  {
    ghost var f := d => DependencyIssue(node, d, nodeById.Keys);
    for i := 0 to |node.dependencies|
      invariant issues.items == old(issues.items) + FlatMap(f, node.dependencies[..i])
    {
      FlatMapStep(f, node.dependencies, i);
      var d := node.dependencies[i];
      if d == node.nodeId {
        issues.Append(SelfDependency(node.nodeId, d));
      } else if d !in nodeById {
        issues.Append(MissingDependency(node.nodeId, d));
      }
    }
    assert node.dependencies[..|node.dependencies|] == node.dependencies;
  }

  method ValidateNodes(graph: CellGraph, nodeById: map<string, CellGraphNode>, issues: IssueLog<GraphIssue>)
    requires nodeById == GraphNodes(graph)
    modifies issues
    ensures issues.items == old(issues.items) + NodesIssues(graph)
  {
    hide GraphNodes, NodeIssues;
    ghost var f := (n: CellGraphNode) => NodeIssues(n, nodeById.Keys);
    for i := 0 to |graph.nodes|
      invariant issues.items == old(issues.items) + FlatMap(f, graph.nodes[..i])
    {
      FlatMapStep(f, graph.nodes, i);
      ValidateNode(graph.nodes[i], nodeById, issues);
    }
    assert graph.nodes[..|graph.nodes|] == graph.nodes;
  }

  method ValidateCellImplementations(graph: CellGraph, cells: Option<set<string>>, issues: IssueLog<GraphIssue>)
    modifies issues
    ensures issues.items == old(issues.items) + CellIssues(graph, cells)
  {
    if cells.None? {
      return;
    }
    ghost var f := (n: CellGraphNode) => One(n.cellId !in cells.value, MissingCellImplementation(n.nodeId, n.cellId));
    for i := 0 to |graph.nodes|
      invariant issues.items == old(issues.items) + FlatMap(f, graph.nodes[..i])
    {
      FlatMapStep(f, graph.nodes, i);
      var node := graph.nodes[i];
      ReportIf(node.cellId !in cells.value, MissingCellImplementation(node.nodeId, node.cellId), issues);
    }
    assert graph.nodes[..|graph.nodes|] == graph.nodes;
  }

  method ValidateOrganMembers(organ: CellOrgan, g: DependencyMap, issues: IssueLog<GraphIssue>)
    modifies issues
    ensures issues.items == old(issues.items) + FlatMap(n => One(n !in g, MissingOrganNode(organ.organId, n)), organ.nodeIds)
  {
    ghost var f := n => One(n !in g, MissingOrganNode(organ.organId, n));
    for i := 0 to |organ.nodeIds|
      invariant issues.items == old(issues.items) + FlatMap(f, organ.nodeIds[..i])
    {
      FlatMapStep(f, organ.nodeIds, i);
      ReportIf(organ.nodeIds[i] !in g, MissingOrganNode(organ.organId, organ.nodeIds[i]), issues);
    }
    assert organ.nodeIds[..|organ.nodeIds|] == organ.nodeIds;
  }

  method ValidateOrganOutputs(organ: CellOrgan, issues: IssueLog<GraphIssue>)
    modifies issues
    ensures issues.items == old(issues.items) + FlatMap(n => One(n !in organ.nodeIds, OrganOutputNotMember(organ.organId, n)), organ.outputNodeIds)
  {
    ghost var f := n => One(n !in organ.nodeIds, OrganOutputNotMember(organ.organId, n));
    for i := 0 to |organ.outputNodeIds|
      invariant issues.items == old(issues.items) + FlatMap(f, organ.outputNodeIds[..i])
    {
      FlatMapStep(f, organ.outputNodeIds, i);
      ReportIf(organ.outputNodeIds[i] !in organ.nodeIds, OrganOutputNotMember(organ.organId, organ.outputNodeIds[i]), issues);
    }
    assert organ.outputNodeIds[..|organ.outputNodeIds|] == organ.outputNodeIds;
  }

  /** The shape checks of one organ: repetitions, outputs and membership. */
  method ValidateOrganShape(organ: CellOrgan, g: DependencyMap, issues: IssueLog<GraphIssue>)
    modifies issues
    ensures issues.items == old(issues.items) + OrganShapeIssues(organ, g)
  {
    hide FlatMap, Distinct, One;
    var id := organ.organId;
    DistinctIffSetSize(organ.nodeIds);
    DistinctIffSetSize(organ.outputNodeIds);
    ReportIf(|Elements(organ.nodeIds)| != |organ.nodeIds|, DuplicateOrganNode(id), issues);
    ReportIf(|Elements(organ.outputNodeIds)| != |organ.outputNodeIds|, DuplicateOrganOutput(id), issues);
    ReportIf(organ.outputNodeIds == [], OrganHasNoOutputs(id), issues);
    ValidateOrganMembers(organ, g, issues);
    ValidateOrganOutputs(organ, issues);
    Regroup5(old(issues.items), One(!Distinct(organ.nodeIds), DuplicateOrganNode(id)), One(!Distinct(organ.outputNodeIds), DuplicateOrganOutput(id)),
             One(organ.outputNodeIds == [], OrganHasNoOutputs(id)), FlatMap(n => One(n !in g, MissingOrganNode(id, n)), organ.nodeIds),
             FlatMap(n => One(n !in organ.nodeIds, OrganOutputNotMember(id, n)), organ.outputNodeIds));
  }

  method ValidateMember(organ: CellOrgan, g: DependencyMap, n: string, issues: IssueLog<GraphIssue>)
    requires n in g
    modifies issues
    ensures issues.items == old(issues.items) + MemberIssues(organ, g, n)
  {
    ghost var f := d => OutsideIssue(organ, g, n, d);
    for i := 0 to |g[n]|
      invariant issues.items == old(issues.items) + FlatMap(f, g[n][..i])
    {
      FlatMapStep(f, g[n], i);
      ReportIf(g[n][i] in g && g[n][i] !in organ.nodeIds, OrganDependencyOutside(organ.organId, n, g[n][i]), issues);
    }
    assert g[n][..|g[n]|] == g[n];
  }

  /** Members that depend on a node outside the organ; the members are visited in the order of a set. */
  method ValidateOrganBoundary(organ: CellOrgan, g: DependencyMap, issues: IssueLog<GraphIssue>) returns (ghost visited: seq<string>)
    modifies issues
    ensures Visits(organ, g, visited) && issues.items == old(issues.items) + BoundaryIssues(organ, g, visited)
  {
    hide MemberIssues;
    var members := set n | n in organ.nodeIds && n in g;
    var pending := members;
    visited := [];
    ghost var f := n => MemberIssues(organ, g, n);
    while pending != {}
      invariant pending <= members && Distinct(visited)
      invariant forall n :: n in visited <==> n in members && n !in pending
      invariant issues.items == old(issues.items) + FlatMap(f, visited)
    {
      var n :| n in pending;
      ValidateMember(organ, g, n, issues);
      FlatMapMore(f, visited, n);
      DistinctWithOneMore(visited, n);
      visited := visited + [n];
      pending := pending - {n};
    }
  }

  lemma FlatMapMore(f: string -> seq<GraphIssue>, xs: seq<string>, x: string)
    ensures FlatMap(f, xs + [x]) == FlatMap(f, xs) + f(x)
  {
    assert (xs + [x])[..|xs|] == xs;
  }

  method ReportAll(f: string -> GraphIssue, ids: seq<string>, issues: IssueLog<GraphIssue>)
    modifies issues
    ensures issues.items == old(issues.items) + Map(f, ids)
  {
    for i := 0 to |ids|
      invariant issues.items == old(issues.items) + Map(f, ids[..i])
    {
      assert ids[..i + 1] == ids[..i] + [ids[i]];
      MapAppend(f, ids[..i], ids[i]);
      issues.Append(f(ids[i]));
    }
    assert ids[..|ids|] == ids;
  }

  method ValidateOrganReachability(organ: CellOrgan, g: DependencyMap, issues: IssueLog<GraphIssue>)
    modifies issues
    ensures issues.items == old(issues.items) + OrganReachIssues(organ, g)
  {
    hide ReachableFrom, Filter, Map;
    var inner := OrganDependencies(organ, g);
    var outputs := ValidOutputs(organ, g);
    if outputs == [] {
      return;
    }
    var reachable := DependencyClosure(outputs, inner);
    var unreachable := SortSet(inner.Keys - reachable);
    ReportAll(n => OrganUnreachableNode(organ.organId, n), unreachable, issues);
  }

  method ValidateOrgan(organ: CellOrgan, g: DependencyMap, issues: IssueLog<GraphIssue>) returns (ghost visited: seq<string>)
    modifies issues
    ensures Visits(organ, g, visited) && issues.items == old(issues.items) + OrganIssues(organ, g, visited)
  {
    hide OrganShapeIssues, BoundaryIssues, OrganReachIssues, Visits;
    ValidateOrganShape(organ, g, issues);
    visited := ValidateOrganBoundary(organ, g, issues);
    ValidateOrganReachability(organ, g, issues);
    Regroup3(old(issues.items), OrganShapeIssues(organ, g), BoundaryIssues(organ, g, visited), OrganReachIssues(organ, g));
  }

  lemma Regroup3<T>(o: seq<T>, a: seq<T>, b: seq<T>, c: seq<T>)
    ensures o + a + b + c == o + (a + b + c)
  {
  }

  lemma OrgansStep(organs: seq<CellOrgan>, organ: CellOrgan, g: DependencyMap, visits: seq<seq<string>>, visited: seq<string>)
    requires AllVisit(organs, g, visits) && Visits(organ, g, visited)
    ensures AllVisit(organs + [organ], g, visits + [visited])
    ensures OrgansIssues(organs + [organ], g, visits + [visited]) ==
      OrgansIssues(organs, g, visits) + One(organ.organId in Map(OrganKey, organs), DuplicateOrganId(organ.organId)) + OrganIssues(organ, g, visited)
    ensures Elements(Map(OrganKey, organs + [organ])) == Elements(Map(OrganKey, organs)) + {organ.organId}
  {
    hide OrganIssues, Visits, Map;
    MapAppend(OrganKey, organs, organ);
    assert (organs + [organ])[..|organs|] == organs && (visits + [visited])[..|visits|] == visits;
  }

  method ValidateOrgans(organs: seq<CellOrgan>, g: DependencyMap, issues: IssueLog<GraphIssue>) returns (ghost visits: seq<seq<string>>)
    modifies issues
    ensures AllVisit(organs, g, visits) && issues.items == old(issues.items) + OrgansIssues(organs, g, visits)
  {
    hide OrganIssues, Visits, Map;
    var organIds: set<string> := {};
    visits := [];
    NoOrgans(organs[..0], g);
    for i := 0 to |organs|
      invariant organIds == Elements(Map(OrganKey, organs[..i]))
      invariant AllVisit(organs[..i], g, visits) && issues.items == old(issues.items) + OrgansIssues(organs[..i], g, visits)
    {
      var organ := organs[i];
      assert organs[..i + 1] == organs[..i] + [organ];
      assert organ.organId in organIds <==> organ.organId in Map(OrganKey, organs[..i]);
      ghost var before := issues.items;
      ReportIf(organ.organId in organIds, DuplicateOrganId(organ.organId), issues);
      organIds := organIds + {organ.organId};
      ghost var visited := ValidateOrgan(organ, g, issues);
      OrgansStep(organs[..i], organ, g, visits, visited);
      Regroup3(old(issues.items), OrgansIssues(organs[..i], g, visits),
               One(organ.organId in Map(OrganKey, organs[..i]), DuplicateOrganId(organ.organId)), OrganIssues(organ, g, visited));
      visits := visits + [visited];
    }
    assert organs[..|organs|] == organs;
  }

  lemma NoOrgans(organs: seq<CellOrgan>, g: DependencyMap)
    requires organs == []
    ensures AllVisit(organs, g, []) && OrgansIssues(organs, g, []) == [] && Elements(Map(OrganKey, organs)) == {}
  {
    assert Map(OrganKey, organs) == [];
  }

  method ValidateTopology(graph: CellGraph, g: DependencyMap, issues: IssueLog<GraphIssue>) returns (levels: seq<seq<string>>)
    modifies issues
    ensures levels == Levels(g) && issues.items == old(issues.items) + TopologyIssues(g, graph.rootNodeId)
  {
    hide CyclicSet, Levels, ReachableFrom, Map;
    var cyclicNodes;
    levels, cyclicNodes := StableTopologicalLevels(g);
    SortedSetEmpty(CyclicSet(g));
    if cyclicNodes != [] {
      issues.Append(CycleDetected(cyclicNodes));
    }
    if graph.rootNodeId !in g {
      return;
    }
    var reachable := DependencyClosure([graph.rootNodeId], g);
    var unreachable := SortSet(g.Keys - reachable);
    ReportAll(id => UnreachableNode(id), unreachable, issues);
  }

  /**
   * Rejected with exactly the issues that are true of the graph, in order and as often as they are found, or accepted with
   * the graph's levels. `visits` says in which order the members of each organ were visited.
   */
  method ValidateCellGraphDefinition(graph: CellGraph, cells: Option<set<string>>)
    returns (r: Result<ValidatedGraph, seq<GraphIssue>>, ghost visits: seq<seq<string>>)
    ensures AllVisit(graph.organs, GraphDependencies(GraphNodes(graph)), visits)
    ensures r.Err? ==> r.error == GraphIssues(graph, cells, visits) && forall x :: x in r.error <==> Holds(graph, cells, x)
    ensures r.Ok? ==> r.value == ValidatedGraph(graph, Levels(GraphDependencies(GraphNodes(graph))))
    ensures r.Ok? <==> GraphWellFormed(graph, cells)
  {
    hide RootIssues, NodesIssues, CellIssues, OrgansIssues, TopologyIssues, FirstById, Repeats, Levels, GraphWellFormed, Visits, Map, Holds;
    var issues := new IssueLog<GraphIssue>();
    var nodeById := IndexById(GraphNodeKey, id => DuplicateNodeId(id), graph.nodes, issues);
    var g := GraphDependencies(nodeById);
    ValidateRoot(graph, nodeById, issues);
    ValidateNodes(graph, nodeById, issues);
    ValidateCellImplementations(graph, cells, issues);
    visits := ValidateOrgans(graph.organs, g, issues);
    var levels := ValidateTopology(graph, g, issues);
    assert issues.items == GraphIssues(graph, cells, visits);
    GraphIssuesEmptyIff(graph, cells, visits);
    forall x ensures x in issues.items <==> Holds(graph, cells, x) { GraphIssuesIn(graph, cells, visits, x); }
    if issues.items != [] {
      r := Err(issues.items);
    } else {
      r := Ok(ValidatedGraph(graph, levels));
    }
  }
}
