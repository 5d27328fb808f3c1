/** Validation of execution plans (execution/plan_validation.py). */
module PlanValidation {
  import opened Collections
  import opened Ordering
  import opened Topology
  import opened Issues
  import opened InputModel
  import opened PlanModel

  /** One constructor per issue code, with the ids that the issue carries. */
  datatype PlanIssue =
    | DuplicateNodeId(nodeId: string)
    | DuplicateBindingId(bindingId: string)
    | DuplicateInputReferenceId(referenceId: ReferenceId)
    | InputReferenceScopeMismatch(referenceId: ReferenceId)
    | MissingRoot(nodeId: string)
    | InvalidRootRole(nodeId: string)
    | UnexpectedRootRole(nodeId: string)
    | MissingDependency(nodeId: string, dependencyId: string)
    | DuplicateDependency(nodeId: string)
    | SelfDependency(nodeId: string, dependencyId: string)
    | LeafHasDependencies(nodeId: string)
    | MissingBinding(nodeId: string, bindingId: string)
    | BindingCellMismatch(nodeId: string, bindingId: string)
    | BindingFormulaMismatch(nodeId: string, bindingId: string)
    | DuplicateFallbackBinding(nodeId: string)
    | PrimaryBindingInFallback(nodeId: string, bindingId: string)
    | MissingFallbackBinding(nodeId: string, bindingId: string)
    | FallbackBindingCellMismatch(nodeId: string, bindingId: string)
    | FallbackBindingFormulaMismatch(nodeId: string, bindingId: string)
    | UnusedBinding(bindingId: string)
    | MissingNodeInputReference(nodeId: string)
    | DuplicateNodeInputReference(nodeId: string)
    | MissingInputReference(nodeId: string, referenceId: ReferenceId)
    | DuplicateRequiredInputKind(nodeId: string)
    | MissingRequiredInputKind(nodeId: string, kind: string)
    | UnexpectedInputKind(nodeId: string, referenceId: ReferenceId)
    | UnusedInputReference(referenceId: ReferenceId)
    | CycleDetected(nodeIds: seq<string>)
    | UnreachableNode(nodeId: string)

  // ----- What each check reports -----

  predicate RepeatsElement<T(==)>(s: seq<T>) {
    |s| != |Elements(s)|
  }

  function ScopeIssues(plan: ExecutionPlan): seq<PlanIssue> {
    FlatMap((r: InputReference) =>
              One(!(r.target == plan.target && r.horizon == plan.horizon), InputReferenceScopeMismatch(r.referenceId)),
            plan.inputReferences)
  }

  function RootIssues(plan: ExecutionPlan): seq<PlanIssue> {
    var byId, root := PlanNodes(plan), plan.rootNodeId;
    (if root !in byId then [MissingRoot(root)] else One(byId[root].role != Root, InvalidRootRole(root)))
    + FlatMap((n: ExecutionNode) => One(n.role == Root && n.nodeId != root, UnexpectedRootRole(n.nodeId)), plan.nodes)
  }

  function BindingIssues(n: ExecutionNode, bindingId: string, byId: map<string, ServiceBinding>, fallback: bool): seq<PlanIssue> {
    if bindingId !in byId then
      [if fallback then MissingFallbackBinding(n.nodeId, bindingId) else MissingBinding(n.nodeId, bindingId)]
    else
      var b := byId[bindingId];
      One(n.cellId != b.cellId,
          if fallback then FallbackBindingCellMismatch(n.nodeId, b.Id()) else BindingCellMismatch(n.nodeId, b.Id()))
      + One(n.formulaVersion != b.formulaVersion,
            if fallback then FallbackBindingFormulaMismatch(n.nodeId, b.Id()) else BindingFormulaMismatch(n.nodeId, b.Id()))
  }

  function DependencyIssue(n: ExecutionNode, d: string, byId: map<string, ExecutionNode>): seq<PlanIssue> {
    if d == n.nodeId then [SelfDependency(n.nodeId, d)]
    else One(d !in byId, MissingDependency(n.nodeId, d))
  }

  /** The references of a node that exist, in order. */
  function PresentReferences(ids: seq<ReferenceId>, byId: map<ReferenceId, InputReference>): (r: seq<InputReference>)
    ensures |r| <= |ids|
    ensures (forall id :: id in ids ==> id in byId) ==> |r| == |ids|
  {
    if ids == [] then []
    else
      var last := ids[|ids| - 1];
      assert ids == ids[..|ids| - 1] + [last];
      PresentReferences(ids[..|ids| - 1], byId) + (if last in byId then [byId[last]] else [])
  }

  function ReferencedKinds(refs: seq<InputReference>): seq<string> {
    Map((r: InputReference) => r.inputKind, refs)
  }

  function OfKind(refs: seq<InputReference>, kind: string): seq<InputReference> {
    Filter((r: InputReference) => r.inputKind == kind, refs)
  }

  function FirstOfKind(refs: seq<InputReference>, kind: string): ReferenceId {
    var matching := OfKind(refs, kind);
    if matching == [] then ClaimedReferenceId("") else matching[0].referenceId
  }

  function FirstDifference(a: seq<string>, b: seq<string>): (i: nat)
    requires |a| == |b| && a != b
    ensures i < |a| && a[i] != b[i]
    ensures forall k :: 0 <= k < i ==> a[k] == b[k]
  {
    if a[0] != b[0] then 0
    else
      assert a == [a[0]] + a[1..] && b == [b[0]] + b[1..];
      1 + FirstDifference(a[1..], b[1..])
  }

  /** Declared and referenced kinds are the same set without repetition, in a different order. */
  predicate OnlyOrderDiffers(required: seq<string>, referenced: seq<string>) {
    && !RepeatsElement(required) && !RepeatsElement(referenced)
    && Elements(required) == Elements(referenced)
    && required != referenced
  }

  function OrderIssue(n: ExecutionNode, referenced: seq<string>): seq<PlanIssue>
    requires |referenced| <= |n.inputReferenceIds|
  {
    if OnlyOrderDiffers(n.requiredInputKinds, referenced) then
      SameSetSameLength(n.requiredInputKinds, referenced);
      [UnexpectedInputKind(n.nodeId, n.inputReferenceIds[FirstDifference(n.requiredInputKinds, referenced)])]
    else []
  }

  lemma SameSetSameLength(a: seq<string>, b: seq<string>)
    requires !RepeatsElement(a) && !RepeatsElement(b) && Elements(a) == Elements(b)
    ensures |a| == |b|
  {
  }

  ghost function KindIssues(n: ExecutionNode, refs: seq<InputReference>): seq<PlanIssue>
    requires |refs| <= |n.inputReferenceIds|
  {
    var required, referenced := n.requiredInputKinds, ReferencedKinds(refs);
    One(RepeatsElement(required), DuplicateRequiredInputKind(n.nodeId))
    + One(ANALYSIS_REQUEST !in required, MissingRequiredInputKind(n.nodeId, ANALYSIS_REQUEST))
    + Map(k => MissingRequiredInputKind(n.nodeId, k), SortedSet(Elements(required) - Elements(referenced)))
    + Map(k => UnexpectedInputKind(n.nodeId, FirstOfKind(refs, k)), SortedSet(Elements(referenced) - Elements(required)))
    + FlatMap(k => RepeatedKindIssue(n, refs, k), SortedSet(Elements(referenced)))
    + OrderIssue(n, referenced)
  }

  function RepeatedKindIssue(n: ExecutionNode, refs: seq<InputReference>, kind: string): seq<PlanIssue> {
    var matching := OfKind(refs, kind);
    if |matching| <= 1 then [] else [UnexpectedInputKind(n.nodeId, matching[1].referenceId)]
  }

  /** The checks on one node that come before its input kinds. */
  function NodeShapeIssues(n: ExecutionNode, references: map<ReferenceId, InputReference>): seq<PlanIssue> {
    One(n.role == Leaf && n.dependencies != [], LeafHasDependencies(n.nodeId))
    + One(RepeatsElement(n.dependencies), DuplicateDependency(n.nodeId))
    + One(n.inputReferenceIds == [], MissingNodeInputReference(n.nodeId))
    + One(RepeatsElement(n.inputReferenceIds), DuplicateNodeInputReference(n.nodeId))
    + FlatMap(id => One(id !in references, MissingInputReference(n.nodeId, id)), n.inputReferenceIds)
  }

  /** The checks on one node's primary and fallback bindings. */
  function NodeBindingIssues(n: ExecutionNode, bindings: map<string, ServiceBinding>): seq<PlanIssue> {
    One(RepeatsElement(n.fallbackBindingIds), DuplicateFallbackBinding(n.nodeId))
    + One(n.bindingId in n.fallbackBindingIds, PrimaryBindingInFallback(n.nodeId, n.bindingId))
    + BindingIssues(n, n.bindingId, bindings, false)
    + FlatMap(b => BindingIssues(n, b, bindings, true), n.fallbackBindingIds)
  }

  ghost function NodeIssues(n: ExecutionNode, plan: ExecutionPlan): seq<PlanIssue> {
    NodeShapeIssues(n, PlanReferences(plan))
    + KindIssues(n, PresentReferences(n.inputReferenceIds, PlanReferences(plan)))
    + FlatMap(d => DependencyIssue(n, d, PlanNodes(plan)), n.dependencies)
    + NodeBindingIssues(n, PlanBindings(plan))
  }

  function UsedBindings(plan: ExecutionPlan): set<string> {
    set n, b | n in plan.nodes && b in [n.bindingId] + n.fallbackBindingIds :: b
  }

  function UsedReferences(plan: ExecutionPlan): set<ReferenceId> {
    set n, r | n in plan.nodes && r in n.inputReferenceIds :: r
  }

  function UsageIssues(plan: ExecutionPlan): seq<PlanIssue> {
    FlatMap((b: ServiceBinding) => One(b.Id() !in UsedBindings(plan), UnusedBinding(b.Id())), plan.serviceBindings)
    + FlatMap((r: InputReference) => One(r.referenceId !in UsedReferences(plan), UnusedInputReference(r.referenceId)),
              plan.inputReferences)
  }

  ghost function TopologyIssues(plan: ExecutionPlan): seq<PlanIssue> {
    var g := PlanDependencies(PlanNodes(plan));
    One(CyclicSet(g) != {}, CycleDetected(SortedSet(CyclicSet(g))))
    + (if plan.rootNodeId !in g then []
       else Map(id => UnreachableNode(id), SortedSet(g.Keys - ReachableFrom(g, [plan.rootNodeId]))))
  }

  /** Every issue of a plan, in the order the checks report them. */
  ghost function PlanIssues(plan: ExecutionPlan): seq<PlanIssue> {
    Map(id => DuplicateNodeId(id), Repeats(Map(NodeKey, plan.nodes)))
    + Map(id => DuplicateBindingId(id), Repeats(Map(BindingKey, plan.serviceBindings)))
    + Map(id => DuplicateInputReferenceId(id), Repeats(Map(ReferenceKey, plan.inputReferences)))
    + ScopeIssues(plan)
    + RootIssues(plan)
    + FlatMap((n: ExecutionNode) => NodeIssues(n, plan), plan.nodes)
    + UsageIssues(plan)
    + TopologyIssues(plan)
  }

  // ----- What a validated plan is -----

  ghost predicate BindingFits(n: ExecutionNode, bindingId: string, bindings: map<string, ServiceBinding>) {
    && bindingId in bindings
    && bindings[bindingId].cellId == n.cellId
    && bindings[bindingId].formulaVersion == n.formulaVersion
  }

  /** The referenced kinds are the declared kinds in order, without repetition, analysis_request included. */
  ghost predicate KindsAgree(n: ExecutionNode, refs: seq<InputReference>) {
    && Distinct(n.requiredInputKinds)
    && ANALYSIS_REQUEST in n.requiredInputKinds
    && ReferencedKinds(refs) == n.requiredInputKinds
  }

  ghost predicate NodeWellFormed(n: ExecutionNode, plan: ExecutionPlan) {
    && (n.role == Leaf ==> n.dependencies == [])
    && Distinct(n.dependencies)
    && Distinct(n.inputReferenceIds)
    && (forall id :: id in n.inputReferenceIds ==> id in PlanReferences(plan))
    && KindsAgree(n, PresentReferences(n.inputReferenceIds, PlanReferences(plan)))
    && (forall d :: d in n.dependencies ==> d != n.nodeId && d in PlanNodes(plan))
    && Distinct([n.bindingId] + n.fallbackBindingIds)
    && (forall b :: b in [n.bindingId] + n.fallbackBindingIds ==> BindingFits(n, b, PlanBindings(plan)))
  }

  ghost predicate PlanWellFormed(plan: ExecutionPlan) {
    && Distinct(Map(NodeKey, plan.nodes))
    && Distinct(Map(BindingKey, plan.serviceBindings))
    && Distinct(Map(ReferenceKey, plan.inputReferences))
    && (forall r :: r in plan.inputReferences ==> r.target == plan.target && r.horizon == plan.horizon)
    && (forall n :: n in plan.nodes ==> (n.role == Root <==> n.nodeId == plan.rootNodeId))
    && (forall n :: n in plan.nodes ==> NodeWellFormed(n, plan))
    && (forall b :: b in plan.serviceBindings ==> b.Id() in UsedBindings(plan))
    && (forall r :: r in plan.inputReferences ==> r.referenceId in UsedReferences(plan))
    && RootedAcyclic(PlanDependencies(PlanNodes(plan)), plan.rootNodeId)
  }

  // ----- No issue means well formed -----

  lemma {:induction false} OfKindSize(refs: seq<InputReference>, kind: string)
    ensures |OfKind(refs, kind)| == multiset(ReferencedKinds(refs))[kind]
  {
    if refs != [] {
      var n := |refs| - 1;
      OfKindSize(refs[..n], kind);
      AppendCount(ReferencedKinds(refs[..n]), refs[n].inputKind, kind);
    }
  }

  lemma TwiceCounted(s: seq<string>, i: nat, j: nat)
    requires i < j < |s| && s[i] == s[j]
    ensures s[j] in s && multiset(s)[s[j]] >= 2
  {
    var front, back := s[..j], s[j + 1..];
    assert s == front + [s[j]] + back;
    assert front[i] == s[j] && front[i] in multiset(front);
    assert multiset(s) == multiset(front) + multiset{s[j]} + multiset(back);
  }

  lemma DistinctIffCounts(s: seq<string>)
    ensures Distinct(s) <==> forall x :: x in s ==> multiset(s)[x] <= 1
  {
    if Distinct(s) {
      forall x | x in s ensures multiset(s)[x] <= 1 { DistinctCount(s, x); }
    } else {
      var i, j :| 0 <= i < j < |s| && s[i] == s[j];
      TwiceCounted(s, i, j);
    }
  }

  lemma RepeatedKindIssuesEmpty(n: ExecutionNode, refs: seq<InputReference>)
    ensures FlatMap(k => RepeatedKindIssue(n, refs, k), SortedSet(Elements(ReferencedKinds(refs)))) == []
       <==> Distinct(ReferencedKinds(refs))
  {
    var kinds := ReferencedKinds(refs);
    var sorted := SortedSet(Elements(kinds));
    var f := k => RepeatedKindIssue(n, refs, k);
    FlatMapEmpty(f, sorted);
    DistinctIffCounts(kinds);
    forall k ensures f(k) == [] <==> multiset(kinds)[k] <= 1 { OfKindSize(refs, k); }
    assert forall k :: k in kinds <==> k in Elements(sorted);
    assert forall k :: k in sorted <==> k in Elements(sorted);
  }

  /** The kind checks raise nothing exactly when the referenced kinds are the declared ones. */
  lemma KindIssuesEmptyIff(n: ExecutionNode, refs: seq<InputReference>)
    requires |refs| <= |n.inputReferenceIds|
    ensures KindIssues(n, refs) == [] <==> KindsAgree(n, refs)
  {
    hide Distinct, FlatMap, FirstOfKind, OfKind, ReferencedKinds, Map, RepeatedKindIssue;
    var required, referenced := n.requiredInputKinds, ReferencedKinds(refs);
    DistinctIffSetSize(required);
    DistinctIffSetSize(referenced);
    SortedSetEmpty(Elements(required) - Elements(referenced));
    SortedSetEmpty(Elements(referenced) - Elements(required));
    RepeatedKindIssuesEmpty(n, refs);
    assert ANALYSIS_REQUEST in required <==> ANALYSIS_REQUEST in Elements(required);
    if Elements(required) - Elements(referenced) == {} && Elements(referenced) - Elements(required) == {} {
      assert Elements(required) == Elements(referenced);
    }
  }

  lemma NodeBindingIssuesEmptyIff(n: ExecutionNode, bindings: map<string, ServiceBinding>)
    ensures NodeBindingIssues(n, bindings) == [] <==>
      (&& Distinct([n.bindingId] + n.fallbackBindingIds)
       && forall b :: b in [n.bindingId] + n.fallbackBindingIds ==> BindingFits(n, b, bindings))
  {
    hide FlatMap, Distinct, BindingIssues, BindingFits;
    var f := b => BindingIssues(n, b, bindings, true);
    FlatMapEmpty(f, n.fallbackBindingIds);
    forall b, fallback ensures BindingIssues(n, b, bindings, fallback) == [] <==> BindingFits(n, b, bindings) {
      BindingIssuesEmptyIff(n, b, bindings, fallback);
    }
    DistinctIffSetSize(n.fallbackBindingIds);
    DistinctHead(n.bindingId, n.fallbackBindingIds);
    forall b ensures b in [n.bindingId] + n.fallbackBindingIds <==> b == n.bindingId || b in n.fallbackBindingIds {}
  }

  lemma BindingIssuesEmptyIff(n: ExecutionNode, id: string, bindings: map<string, ServiceBinding>, fallback: bool)
    ensures BindingIssues(n, id, bindings, fallback) == [] <==> BindingFits(n, id, bindings)
  {
  }

  lemma DistinctHead(x: string, xs: seq<string>)
    ensures Distinct([x] + xs) <==> Distinct(xs) && x !in xs
  {
    hide Distinct;
    DistinctParts([x], xs);
    assert Distinct([x]) by { LoneDistinct(x); }
    assert Elements([x]) == {x} && (x in xs <==> x in Elements(xs));
  }

  lemma LoneDistinct(x: string)
    ensures Distinct([x])
  {
  }

  lemma NodeShapeIssuesEmptyIff(n: ExecutionNode, references: map<ReferenceId, InputReference>)
    ensures NodeShapeIssues(n, references) == [] <==>
      (&& (n.role == Leaf ==> n.dependencies == [])
       && Distinct(n.dependencies)
       && n.inputReferenceIds != []
       && Distinct(n.inputReferenceIds)
       && forall id :: id in n.inputReferenceIds ==> id in references)
  {
    FlatMapEmpty(id => One(id !in references, MissingInputReference(n.nodeId, id)), n.inputReferenceIds);
    DistinctIffSetSize(n.dependencies);
    DistinctIffSetSize(n.inputReferenceIds);
  }

  lemma NodeIssuesEmptyIff(n: ExecutionNode, plan: ExecutionPlan)
    ensures NodeIssues(n, plan) == [] <==> NodeWellFormed(n, plan)
  {
    hide NodeShapeIssues, KindIssues, NodeBindingIssues, FlatMap, KindsAgree, BindingFits;
    var refs := PresentReferences(n.inputReferenceIds, PlanReferences(plan));
    NodeShapeIssuesEmptyIff(n, PlanReferences(plan));
    KindIssuesEmptyIff(n, refs);
    FlatMapEmpty(d => DependencyIssue(n, d, PlanNodes(plan)), n.dependencies);
    NodeBindingIssuesEmptyIff(n, PlanBindings(plan));
    if KindsAgree(n, refs) { AgreeingKindsNonEmpty(n, refs); }
  }

  lemma AgreeingKindsNonEmpty(n: ExecutionNode, refs: seq<InputReference>)
    requires KindsAgree(n, refs)
    ensures refs != []
  {
  }

  lemma RootIssuesEmptyIff(plan: ExecutionPlan)
    requires Distinct(Map(NodeKey, plan.nodes))
    ensures RootIssues(plan) == [] <==>
      plan.rootNodeId in PlanNodes(plan) && forall n :: n in plan.nodes ==> (n.role == Root <==> n.nodeId == plan.rootNodeId)
  {
    var f := (n: ExecutionNode) => One(n.role == Root && n.nodeId != plan.rootNodeId, UnexpectedRootRole(n.nodeId));
    FlatMapEmpty(f, plan.nodes);
    forall n | n in plan.nodes ensures NodeKey(n) in PlanNodes(plan) && PlanNodes(plan)[NodeKey(n)] == n {
      FirstByIdFinds(NodeKey, plan.nodes, n);
    }
  }

  lemma NothingLeftIff<T>(all: set<T>, found: set<T>)
    requires found <= all
    ensures all - found == {} <==> found == all
  {
    if all - found == {} {
      forall x | x in all ensures x in found { assert x !in all - found; }
    }
  }

  lemma TopologyIssuesEmptyIff(plan: ExecutionPlan)
    requires plan.rootNodeId in PlanNodes(plan)
    ensures TopologyIssues(plan) == [] <==> RootedAcyclic(PlanDependencies(PlanNodes(plan)), plan.rootNodeId)
  {
    var g := PlanDependencies(PlanNodes(plan));
    var unreachable := g.Keys - ReachableFrom(g, [plan.rootNodeId]);
    SortedSetEmpty(unreachable);
    MapEmpty(id => UnreachableNode(id), SortedSet(unreachable));
    assert ReachableFrom(g, [plan.rootNodeId]) <= g.Keys;
    NothingLeftIff(g.Keys, ReachableFrom(g, [plan.rootNodeId]));
    assert |TopologyIssues(plan)| == (if CyclicSet(g) != {} then 1 else 0) + |SortedSet(unreachable)|;
  }

  lemma MapEmpty<T, U>(f: T -> U, xs: seq<T>)
    ensures Map(f, xs) == [] <==> xs == []
  {
  }

  /** Validation finds nothing exactly when the plan is well formed. */
  lemma PlanIssuesEmptyIff(plan: ExecutionPlan)
    ensures PlanIssues(plan) == [] <==> PlanWellFormed(plan)
  {
    hide RootIssues, TopologyIssues, NodeIssues, ScopeIssues, UsageIssues, RootedAcyclic, NodeWellFormed, FlatMap, Map, Repeats, UsedBindings,
      UsedReferences, Distinct, PlanNodes;
    RepeatsEmptyIff(Map(NodeKey, plan.nodes));
    RepeatsEmptyIff(Map(BindingKey, plan.serviceBindings));
    RepeatsEmptyIff(Map(ReferenceKey, plan.inputReferences));
    ScopeIssuesEmptyIff(plan);
    UsageIssuesEmptyIff(plan);
    AllNodeIssuesEmptyIff(plan);
    if Distinct(Map(NodeKey, plan.nodes)) { RootedIssuesEmptyIff(plan); }
  }

  lemma AllNodeIssuesEmptyIff(plan: ExecutionPlan)
    ensures FlatMap((n: ExecutionNode) => NodeIssues(n, plan), plan.nodes) == [] <==> forall n :: n in plan.nodes ==> NodeWellFormed(n, plan)
  {
    hide NodeIssues, NodeWellFormed, FlatMap;
    FlatMapEmpty((n: ExecutionNode) => NodeIssues(n, plan), plan.nodes);
    forall n | n in plan.nodes ensures NodeIssues(n, plan) == [] <==> NodeWellFormed(n, plan) {
      NodeIssuesEmptyIff(n, plan);
    }
  }

  lemma RootedIssuesEmptyIff(plan: ExecutionPlan)
    requires Distinct(Map(NodeKey, plan.nodes))
    ensures RootIssues(plan) == [] && TopologyIssues(plan) == [] <==>
      && (forall n :: n in plan.nodes ==> (n.role == Root <==> n.nodeId == plan.rootNodeId))
      && RootedAcyclic(PlanDependencies(PlanNodes(plan)), plan.rootNodeId)
  {
    hide RootIssues, TopologyIssues, RootedAcyclic, Distinct, Map, PlanNodes;
    RootIssuesEmptyIff(plan);
    if plan.rootNodeId in PlanNodes(plan) {
      TopologyIssuesEmptyIff(plan);
    } else {
      RootedNeedsRoot(plan);
    }
  }

  lemma RootedNeedsRoot(plan: ExecutionPlan)
    requires plan.rootNodeId !in PlanNodes(plan)
    ensures !RootedAcyclic(PlanDependencies(PlanNodes(plan)), plan.rootNodeId)
  {
  }

  lemma ScopeIssuesEmptyIff(plan: ExecutionPlan)
    ensures ScopeIssues(plan) == [] <==>
      forall r :: r in plan.inputReferences ==> r.target == plan.target && r.horizon == plan.horizon
  {
    var f := (r: InputReference) =>
      One(!(r.target == plan.target && r.horizon == plan.horizon), InputReferenceScopeMismatch(r.referenceId));
    FlatMapEmpty(f, plan.inputReferences);
    assert forall r :: f(r) == [] <==> r.target == plan.target && r.horizon == plan.horizon;
  }

  lemma UsageIssuesEmptyIff(plan: ExecutionPlan)
    ensures UsageIssues(plan) == [] <==>
      (&& (forall b :: b in plan.serviceBindings ==> b.Id() in UsedBindings(plan))
       && (forall r :: r in plan.inputReferences ==> r.referenceId in UsedReferences(plan)))
  {
    FlatMapEmpty((b: ServiceBinding) => One(b.Id() !in UsedBindings(plan), UnusedBinding(b.Id())), plan.serviceBindings);
    FlatMapEmpty((r: InputReference) => One(r.referenceId !in UsedReferences(plan), UnusedInputReference(r.referenceId)),
                 plan.inputReferences);
  }
}
