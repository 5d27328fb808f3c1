/** The validation pass itself: loops that append to one shared issue list (execution/plan_validation.py). */
module PlanValidator {
  import opened Collections
  import opened Ordering
  import opened Topology
  import opened Issues
  import opened InputModel
  import opened PlanModel
  import opened PlanValidation

  method ValidateInputReferenceScope(plan: ExecutionPlan, issues: IssueLog<PlanIssue>)
    modifies issues
    ensures issues.items == old(issues.items) + ScopeIssues(plan)
  {
    ghost var f := (r: InputReference) =>
      One(!(r.target == plan.target && r.horizon == plan.horizon), InputReferenceScopeMismatch(r.referenceId));
    for i := 0 to |plan.inputReferences|
      invariant issues.items == old(issues.items) + FlatMap(f, plan.inputReferences[..i])
    {
      FlatMapStep(f, plan.inputReferences, i);
      var reference := plan.inputReferences[i];
      if reference.target == plan.target && reference.horizon == plan.horizon {
        continue;
      }
      issues.Append(InputReferenceScopeMismatch(reference.referenceId));
    }
    assert plan.inputReferences[..|plan.inputReferences|] == plan.inputReferences;
  }

  method ValidateRootRoles(plan: ExecutionPlan, issues: IssueLog<PlanIssue>)
    modifies issues
    ensures issues.items == old(issues.items) +
      FlatMap((n: ExecutionNode) => One(n.role == Root && n.nodeId != plan.rootNodeId, UnexpectedRootRole(n.nodeId)), plan.nodes)
  {
    ghost var f := (n: ExecutionNode) =>
      One(n.role == Root && n.nodeId != plan.rootNodeId, UnexpectedRootRole(n.nodeId));
    for i := 0 to |plan.nodes|
      invariant issues.items == old(issues.items) + FlatMap(f, plan.nodes[..i])
    {
      FlatMapStep(f, plan.nodes, i);
      var node := plan.nodes[i];
      ReportIf(node.role == Root && node.nodeId != plan.rootNodeId, UnexpectedRootRole(node.nodeId), issues);
    }
    assert plan.nodes[..|plan.nodes|] == plan.nodes;
  }

  method ValidateRoot(plan: ExecutionPlan, nodeById: map<string, ExecutionNode>, issues: IssueLog<PlanIssue>)
    requires nodeById == PlanNodes(plan)
    modifies issues
    ensures issues.items == old(issues.items) + RootIssues(plan)
  {
    hide FirstById, FlatMap;
    if plan.rootNodeId !in nodeById {
      issues.Append(MissingRoot(plan.rootNodeId));
    } else if nodeById[plan.rootNodeId].role != Root {
      issues.Append(InvalidRootRole(plan.rootNodeId));
    }
    ValidateRootRoles(plan, issues);
  }

  method ValidateReferencesExist(node: ExecutionNode, references: map<ReferenceId, InputReference>, issues: IssueLog<PlanIssue>)
    modifies issues
    ensures issues.items == old(issues.items) +
      FlatMap(id => One(id !in references, MissingInputReference(node.nodeId, id)), node.inputReferenceIds)
  {
    ghost var f := id => One(id !in references, MissingInputReference(node.nodeId, id));
    for i := 0 to |node.inputReferenceIds|
      invariant issues.items == old(issues.items) + FlatMap(f, node.inputReferenceIds[..i])
    {
      FlatMapStep(f, node.inputReferenceIds, i);
      ReportIf(node.inputReferenceIds[i] !in references, MissingInputReference(node.nodeId, node.inputReferenceIds[i]), issues);
    }
    assert node.inputReferenceIds[..|node.inputReferenceIds|] == node.inputReferenceIds;
  }

  method ValidateNodeShape(node: ExecutionNode, references: map<ReferenceId, InputReference>, issues: IssueLog<PlanIssue>)
    modifies issues
    ensures issues.items == old(issues.items) + NodeShapeIssues(node, references)
  {
    hide FlatMap, One, RepeatsElement;
    ReportIf(node.role == Leaf && node.dependencies != [], LeafHasDependencies(node.nodeId), issues);
    ReportIf(RepeatsElement(node.dependencies), DuplicateDependency(node.nodeId), issues);
    ReportIf(node.inputReferenceIds == [], MissingNodeInputReference(node.nodeId), issues);
    ReportIf(RepeatsElement(node.inputReferenceIds), DuplicateNodeInputReference(node.nodeId), issues);
    ValidateReferencesExist(node, references, issues);
    Regroup5(old(issues.items),
             One(node.role == Leaf && node.dependencies != [], LeafHasDependencies(node.nodeId)),
             One(RepeatsElement(node.dependencies), DuplicateDependency(node.nodeId)),
             One(node.inputReferenceIds == [], MissingNodeInputReference(node.nodeId)),
             One(RepeatsElement(node.inputReferenceIds), DuplicateNodeInputReference(node.nodeId)),
             FlatMap(id => One(id !in references, MissingInputReference(node.nodeId, id)), node.inputReferenceIds));
  }

  /** Appends `issue(x)` for every element of a sorted list. */
  method AppendEach(xs: seq<string>, issue: string -> PlanIssue, issues: IssueLog<PlanIssue>)
    modifies issues
    ensures issues.items == old(issues.items) + Map(issue, xs)
  {
    for i := 0 to |xs|
      invariant issues.items == old(issues.items) + Map(issue, xs[..i])
    {
      assert xs[..i + 1] == xs[..i] + [xs[i]];
      MapAppend(issue, xs[..i], xs[i]);
      issues.Append(issue(xs[i]));
    }
    assert xs[..|xs|] == xs;
  }

  method ReportRepeatedKinds(node: ExecutionNode, refs: seq<InputReference>, kinds: seq<string>, issues: IssueLog<PlanIssue>)
    modifies issues
    ensures issues.items == old(issues.items) + FlatMap(k => RepeatedKindIssue(node, refs, k), kinds)
  {
    ghost var f := k => RepeatedKindIssue(node, refs, k);
    for i := 0 to |kinds|
      invariant issues.items == old(issues.items) + FlatMap(f, kinds[..i])
    {
      FlatMapStep(f, kinds, i);
      var matching := OfKind(refs, kinds[i]);
      if |matching| <= 1 {
        continue;
      }
      issues.Append(UnexpectedInputKind(node.nodeId, matching[1].referenceId));
    }
    assert kinds[..|kinds|] == kinds;
  }

  method ReportOrder(node: ExecutionNode, referenced: seq<string>, issues: IssueLog<PlanIssue>)
    requires |referenced| <= |node.inputReferenceIds|
    modifies issues
    ensures issues.items == old(issues.items) + OrderIssue(node, referenced)
  {
    var required := node.requiredInputKinds;
    if OnlyOrderDiffers(required, referenced) {
      SameSetSameLength(required, referenced);
      var mismatch := 0;
      while required[mismatch] == referenced[mismatch]
        invariant mismatch <= FirstDifference(required, referenced)
        decreases |required| - mismatch
      {
        mismatch := mismatch + 1;
      }
      issues.Append(UnexpectedInputKind(node.nodeId, node.inputReferenceIds[mismatch]));
    }
  }

  method ValidateNodeInputKinds(node: ExecutionNode, references: map<ReferenceId, InputReference>, issues: IssueLog<PlanIssue>)
    modifies issues
    ensures issues.items == old(issues.items) + KindIssues(node, PresentReferences(node.inputReferenceIds, references))
  {
    hide One, RepeatsElement, OrderIssue, FlatMap, Map;
    var refs := PresentReferences(node.inputReferenceIds, references);
    var required, referenced := node.requiredInputKinds, ReferencedKinds(refs);
    ReportIf(RepeatsElement(required), DuplicateRequiredInputKind(node.nodeId), issues);
    ReportIf(ANALYSIS_REQUEST !in required, MissingRequiredInputKind(node.nodeId, ANALYSIS_REQUEST), issues);
    var missing := SortSet(Elements(required) - Elements(referenced));
    AppendEach(missing, k => MissingRequiredInputKind(node.nodeId, k), issues);
    var unexpected := SortSet(Elements(referenced) - Elements(required));
    AppendEach(unexpected, k => UnexpectedInputKind(node.nodeId, FirstOfKind(refs, k)), issues);
    var kinds := SortSet(Elements(referenced));
    ReportRepeatedKinds(node, refs, kinds, issues);
    ReportOrder(node, referenced, issues);
    Regroup6(old(issues.items),
             One(RepeatsElement(required), DuplicateRequiredInputKind(node.nodeId)),
             One(ANALYSIS_REQUEST !in required, MissingRequiredInputKind(node.nodeId, ANALYSIS_REQUEST)),
             Map(k => MissingRequiredInputKind(node.nodeId, k), missing),
             Map(k => UnexpectedInputKind(node.nodeId, FirstOfKind(refs, k)), unexpected),
             FlatMap(k => RepeatedKindIssue(node, refs, k), kinds),
             OrderIssue(node, referenced));
  }

  method ValidateDependencies(node: ExecutionNode, nodeById: map<string, ExecutionNode>, issues: IssueLog<PlanIssue>)
    modifies issues
    ensures issues.items == old(issues.items) + FlatMap(d => DependencyIssue(node, d, nodeById), node.dependencies)
  {
    ghost var f := d => DependencyIssue(node, d, nodeById);
    for i := 0 to |node.dependencies|
      invariant issues.items == old(issues.items) + FlatMap(f, node.dependencies[..i])
    {
      FlatMapStep(f, node.dependencies, i);
      var d := node.dependencies[i];
      if d == node.nodeId {
        issues.Append(SelfDependency(node.nodeId, d));
      } else if d !in nodeById {
        issues.Append(MissingDependency(node.nodeId, d));
      }
    }
    assert node.dependencies[..|node.dependencies|] == node.dependencies;
  }

  method ValidateNodeBinding(node: ExecutionNode, bindingId: string, bindings: map<string, ServiceBinding>,
                             issues: IssueLog<PlanIssue>, fallback: bool)
    modifies issues
    ensures issues.items == old(issues.items) + BindingIssues(node, bindingId, bindings, fallback)
  {
    if bindingId !in bindings {
      issues.Append(if fallback then MissingFallbackBinding(node.nodeId, bindingId) else MissingBinding(node.nodeId, bindingId));
      return;
    }
    var b := bindings[bindingId];
    if node.cellId != b.cellId {
      issues.Append(if fallback then FallbackBindingCellMismatch(node.nodeId, b.Id()) else BindingCellMismatch(node.nodeId, b.Id()));
    }
    if node.formulaVersion != b.formulaVersion {
      issues.Append(if fallback then FallbackBindingFormulaMismatch(node.nodeId, b.Id())
                    else BindingFormulaMismatch(node.nodeId, b.Id()));
    }
  }

  method ValidateFallbackBindings(node: ExecutionNode, bindings: map<string, ServiceBinding>, issues: IssueLog<PlanIssue>)
    modifies issues
    ensures issues.items == old(issues.items) + FlatMap(b => BindingIssues(node, b, bindings, true), node.fallbackBindingIds)
  {
    hide BindingIssues, FlatMap;
    ghost var f := b => BindingIssues(node, b, bindings, true);
    FlatMapNone(f, node.fallbackBindingIds);
    for i := 0 to |node.fallbackBindingIds|
      invariant issues.items == old(issues.items) + FlatMap(f, node.fallbackBindingIds[..i])
    {
      FlatMapStep(f, node.fallbackBindingIds, i);
      ValidateNodeBinding(node, node.fallbackBindingIds[i], bindings, issues, true);
    }
    assert node.fallbackBindingIds[..|node.fallbackBindingIds|] == node.fallbackBindingIds;
  }

  method ValidateNodeBindings(node: ExecutionNode, bindings: map<string, ServiceBinding>, issues: IssueLog<PlanIssue>)
    modifies issues
    ensures issues.items == old(issues.items) + NodeBindingIssues(node, bindings)
  {
    hide BindingIssues, FlatMap, One, RepeatsElement;
    ReportIf(RepeatsElement(node.fallbackBindingIds), DuplicateFallbackBinding(node.nodeId), issues);
    ReportIf(node.bindingId in node.fallbackBindingIds, PrimaryBindingInFallback(node.nodeId, node.bindingId), issues);
    ValidateNodeBinding(node, node.bindingId, bindings, issues, false);
    ValidateFallbackBindings(node, bindings, issues);
    Regroup4(old(issues.items),
             One(RepeatsElement(node.fallbackBindingIds), DuplicateFallbackBinding(node.nodeId)),
             One(node.bindingId in node.fallbackBindingIds, PrimaryBindingInFallback(node.nodeId, node.bindingId)),
             BindingIssues(node, node.bindingId, bindings, false),
             FlatMap(b => BindingIssues(node, b, bindings, true), node.fallbackBindingIds));
  }

  method ValidateNode(node: ExecutionNode, plan: ExecutionPlan, nodeById: map<string, ExecutionNode>,
                      bindingById: map<string, ServiceBinding>, referenceById: map<ReferenceId, InputReference>,
                      issues: IssueLog<PlanIssue>)
    requires nodeById == PlanNodes(plan) && bindingById == PlanBindings(plan) && referenceById == PlanReferences(plan)
    modifies issues
    ensures issues.items == old(issues.items) + NodeIssues(node, plan)
  {
    hide NodeShapeIssues, KindIssues, NodeBindingIssues, DependencyIssue, PlanNodes, PlanBindings, PlanReferences, FlatMap;
    ValidateNodeShape(node, referenceById, issues);
    ValidateNodeInputKinds(node, referenceById, issues);
    ValidateDependencies(node, nodeById, issues);
    ValidateNodeBindings(node, bindingById, issues);
    Regroup4(old(issues.items), NodeShapeIssues(node, referenceById),
             KindIssues(node, PresentReferences(node.inputReferenceIds, referenceById)),
             FlatMap(d => DependencyIssue(node, d, nodeById), node.dependencies),
             NodeBindingIssues(node, bindingById));
  }

  method ValidateNodes(plan: ExecutionPlan, nodeById: map<string, ExecutionNode>, bindingById: map<string, ServiceBinding>,
                       referenceById: map<ReferenceId, InputReference>, issues: IssueLog<PlanIssue>)
    requires nodeById == PlanNodes(plan) && bindingById == PlanBindings(plan) && referenceById == PlanReferences(plan)
    modifies issues
    ensures issues.items == old(issues.items) + FlatMap((n: ExecutionNode) => NodeIssues(n, plan), plan.nodes)
  {
    hide NodeIssues, PlanNodes, PlanBindings, PlanReferences;
    ghost var f := (n: ExecutionNode) => NodeIssues(n, plan);
    for i := 0 to |plan.nodes|
      invariant issues.items == old(issues.items) + FlatMap(f, plan.nodes[..i])
    {
      FlatMapStep(f, plan.nodes, i);
      ValidateNode(plan.nodes[i], plan, nodeById, bindingById, referenceById, issues);
    }
    assert plan.nodes[..|plan.nodes|] == plan.nodes;
  }

  method ValidateUsage(plan: ExecutionPlan, issues: IssueLog<PlanIssue>)
    modifies issues
    ensures issues.items == old(issues.items) + UsageIssues(plan)
  {
    hide UsedBindings, UsedReferences, FlatMap;
    ValidateBindingUsage(plan, issues);
    ValidateInputReferenceUsage(plan, issues);
  }

  method ValidateBindingUsage(plan: ExecutionPlan, issues: IssueLog<PlanIssue>)
    modifies issues
    ensures issues.items == old(issues.items) +
      FlatMap((b: ServiceBinding) => One(b.Id() !in UsedBindings(plan), UnusedBinding(b.Id())), plan.serviceBindings)
  {
    hide UsedBindings, FlatMap, ServiceBinding.Id;
    var usedBindings := UsedBindings(plan);
    ghost var f := (b: ServiceBinding) => One(b.Id() !in UsedBindings(plan), UnusedBinding(b.Id()));
    FlatMapNone(f, plan.serviceBindings);
    for i := 0 to |plan.serviceBindings|
      invariant issues.items == old(issues.items) + FlatMap(f, plan.serviceBindings[..i])
    {
      FlatMapStep(f, plan.serviceBindings, i);
      if plan.serviceBindings[i].Id() !in usedBindings {
        issues.Append(UnusedBinding(plan.serviceBindings[i].Id()));
      }
    }
    assert plan.serviceBindings[..|plan.serviceBindings|] == plan.serviceBindings;
  }

  method ValidateInputReferenceUsage(plan: ExecutionPlan, issues: IssueLog<PlanIssue>)
    modifies issues
    ensures issues.items == old(issues.items) +
      FlatMap((r: InputReference) => One(r.referenceId !in UsedReferences(plan), UnusedInputReference(r.referenceId)), plan.inputReferences)
  {
    hide UsedReferences, FlatMap;
    var usedReferences := UsedReferences(plan);
    ghost var h := (r: InputReference) => One(r.referenceId !in UsedReferences(plan), UnusedInputReference(r.referenceId));
    FlatMapNone(h, plan.inputReferences);
    for i := 0 to |plan.inputReferences|
      invariant issues.items == old(issues.items) + FlatMap(h, plan.inputReferences[..i])
    {
      FlatMapStep(h, plan.inputReferences, i);
      if plan.inputReferences[i].referenceId !in usedReferences {
        issues.Append(UnusedInputReference(plan.inputReferences[i].referenceId));
      }
    }
    assert plan.inputReferences[..|plan.inputReferences|] == plan.inputReferences;
  }

  method ValidateReachability(plan: ExecutionPlan, nodeById: map<string, ExecutionNode>, issues: IssueLog<PlanIssue>)
    requires nodeById == PlanNodes(plan)
    modifies issues
    ensures var g := PlanDependencies(nodeById);
      issues.items == old(issues.items) +
      (if plan.rootNodeId !in g then []
       else Map(id => UnreachableNode(id), SortedSet(g.Keys - ReachableFrom(g, [plan.rootNodeId]))))
  {
    if plan.rootNodeId !in nodeById {
      return;
    }
    var g := PlanDependencies(nodeById);
    var reachable := DependencyClosure([plan.rootNodeId], g);
    var unreachable := SortSet(g.Keys - reachable);
    AppendEach(unreachable, id => UnreachableNode(id), issues);
  }

  /** The last two checks: no cycle, and every node reachable from the root. */
  method ValidateTopology(plan: ExecutionPlan, nodeById: map<string, ExecutionNode>, issues: IssueLog<PlanIssue>)
    returns (levels: seq<seq<string>>)
    requires nodeById == PlanNodes(plan)
    modifies issues
    ensures levels == Levels(PlanDependencies(nodeById))
    ensures issues.items == old(issues.items) + TopologyIssues(plan)
  {
    hide CyclicSet, Levels, ReachableFrom, PlanNodes, Map;
    ghost var g := PlanDependencies(nodeById);
    var cyclicNodes;
    levels, cyclicNodes := StableTopologicalLevels(PlanDependencies(nodeById));
    SortedSetEmpty(CyclicSet(g));
    ReportIf(cyclicNodes != [], CycleDetected(cyclicNodes), issues);
    ValidateReachability(plan, nodeById, issues);
    Regroup2(old(issues.items), One(cyclicNodes != [], CycleDetected(cyclicNodes)),
             if plan.rootNodeId !in g then []
             else Map(id => UnreachableNode(id), SortedSet(g.Keys - ReachableFrom(g, [plan.rootNodeId]))));
  }

  lemma RegroupAll(a: seq<PlanIssue>, b: seq<PlanIssue>, c: seq<PlanIssue>)
    ensures [] + a + b + c == a + b + c
  {
  }

  /** Either every issue of the plan, in order, or the plan with its levels. */
  method ValidateExecutionPlan(plan: ExecutionPlan) returns (r: Result<ValidatedPlan, seq<PlanIssue>>)
    ensures PlanIssues(plan) != [] ==> r == Err(PlanIssues(plan))
    ensures PlanIssues(plan) == [] ==> r == Ok(ValidatedPlan(plan, Levels(PlanDependencies(PlanNodes(plan)))))
    ensures r.Ok? <==> PlanWellFormed(plan)
  {
    hide ScopeIssues, RootIssues, NodeIssues, UsageIssues, TopologyIssues, FlatMap, Map, Repeats, FirstById, Levels, PlanWellFormed;
    var issues := new IssueLog<PlanIssue>();
    var nodeById := IndexById(NodeKey, id => DuplicateNodeId(id), plan.nodes, issues);
    var bindingById := IndexById(BindingKey, id => DuplicateBindingId(id), plan.serviceBindings, issues);
    var referenceById := IndexById(ReferenceKey, id => DuplicateInputReferenceId(id), plan.inputReferences, issues);
    RegroupAll(Map(id => DuplicateNodeId(id), Repeats(Map(NodeKey, plan.nodes))),
               Map(id => DuplicateBindingId(id), Repeats(Map(BindingKey, plan.serviceBindings))),
               Map(id => DuplicateInputReferenceId(id), Repeats(Map(ReferenceKey, plan.inputReferences))));
    ValidateInputReferenceScope(plan, issues);
    ValidateRoot(plan, nodeById, issues);
    ValidateNodes(plan, nodeById, bindingById, referenceById, issues);
    ValidateUsage(plan, issues);
    var levels := ValidateTopology(plan, nodeById, issues);
    assert issues.items == PlanIssues(plan);
    PlanIssuesEmptyIff(plan);
    if issues.items != [] {
      r := Err(issues.items);
    } else {
      r := Ok(ValidatedPlan(plan, levels));
    }
  }
}
