/** Compiling a cell graph into a service-bound plan (execution/planner.py). */
module Planner {
  import opened Collections
  import opened Ordering
  import opened Topology
  import opened Issues
  import opened InputModel
  import opened PlanModel
  import opened Placement
  import GraphValidation
  import GraphValidator
  import PlanValidation
  import PlanValidator
  import RuntimeModel

  /** Any placement policy: a decision from a manifest and its candidates, or none. */
  type PolicyFunction = (Manifest, seq<ServiceBinding>) -> Option<PlacementDecision>

  datatype PlannerError =
    | GraphRejected(graphIssues: seq<GraphValidation.GraphIssue>)
    | PlacementUnavailable(cellId: string)
    | InputsRejected(cellId: string)
    | PlanRejected(planIssues: seq<PlanValidation.PlanIssue>)

  function ManifestKey(m: Manifest): string { m.cellId }

  /** `_place`: the policy's decision, when it names this cell and only offered candidates, each once. */
  predicate PlacementAccepted(m: Manifest, candidates: seq<ServiceBinding>, d: PlacementDecision) {
    var byId := LastById(BindingKey, candidates);
    var ids := Map(BindingKey, d.Bindings());
    && d.cellId == m.cellId
    && d.formulaVersion == m.formulaVersion
    && |ids| == |Elements(ids)|
    && forall b :: b in d.Bindings() ==> b.Id() in byId && byId[b.Id()] == b
  }

  function Place(m: Manifest, catalog: Catalog, policy: PolicyFunction): Option<PlacementDecision> {
    var candidates := CandidatesFor(catalog, m);
    var d := policy(m, candidates);
    if d.Some? && PlacementAccepted(m, candidates, d.value) then d else None
  }

  /** `_references_for_manifest`: for each required kind, in order, its only reference. */
  predicate KindsServed(m: Manifest, references: seq<InputReference>) {
    var kinds := m.requiredInputKinds;
    && |kinds| == |Elements(kinds)|
    && ANALYSIS_REQUEST in kinds
    && (forall k :: k in kinds ==> k in SUPPORTED_KINDS)
    && (forall k :: k in kinds ==> |PlanValidation.OfKind(references, k)| == 1)
  }

  function ReferencesForManifest(m: Manifest, references: seq<InputReference>): seq<InputReference>
    requires KindsServed(m, references)
  {
    ReferencesOfKinds(m.requiredInputKinds, references)
  }

  function ReferencesOfKinds(kinds: seq<string>, references: seq<InputReference>): (r: seq<InputReference>)
    requires forall k :: k in kinds ==> |PlanValidation.OfKind(references, k)| == 1
    ensures |r| == |kinds|
    ensures forall i :: 0 <= i < |kinds| ==> r[i] == PlanValidation.OfKind(references, kinds[i])[0]
  {
    if kinds == [] then []
    else
      assert kinds == kinds[..|kinds| - 1] + [kinds[|kinds| - 1]];
      ReferencesOfKinds(kinds[..|kinds| - 1], references) + [PlanValidation.OfKind(references, kinds[|kinds| - 1])[0]]
  }

  function NodeForGraphNode(n: CellGraphNode, m: Manifest, d: PlacementDecision, references: seq<InputReference>): ExecutionNode {
    ExecutionNode(n.nodeId, m.cellId, m.formulaVersion, n.role, d.selected.Id(), Map(BindingKey, d.fallbacks),
                  n.dependencies, Map(ReferenceKey, references), m.requiredInputKinds, d.selected.hints)
  }

  /** The first occurrences of a list, in order: `list(dict.fromkeys(xs))`. */
  function Deduplicate(xs: seq<string>): (r: seq<string>)
    ensures forall x :: x in r <==> x in xs
    ensures Distinct(r)
  {
    if xs == [] then []
    else
      var last := xs[|xs| - 1];
      var r := Deduplicate(xs[..|xs| - 1]);
      assert xs == xs[..|xs| - 1] + [last];
      if last in r then r else r + [last]
  }

  function GraphCellIds(graph: CellGraph): seq<string> {
    Deduplicate(Map((n: CellGraphNode) => n.cellId, graph.nodes))
  }

  /** `_plan_bindings`, as a function: the decisions' bindings, keeping the first with each id. */
  function MergeBindings(kept: seq<ServiceBinding>, more: seq<ServiceBinding>): seq<ServiceBinding> {
    if more == [] then kept
    else
      var merged := MergeBindings(kept, more[..|more| - 1]);
      var last := more[|more| - 1];
      if BindingKey(last) in Map(BindingKey, merged) then merged else merged + [last]
  }

  function DecisionBindings(decisions: seq<PlacementDecision>): seq<ServiceBinding> {
    FlatMap((d: PlacementDecision) => d.Bindings(), decisions)
  }

  lemma MergeStep(before: seq<ServiceBinding>, b: ServiceBinding)
    ensures MergeBindings([], before + [b]) ==
      var merged := MergeBindings([], before); if BindingKey(b) in Map(BindingKey, merged) then merged else merged + [b]
  {
    assert (before + [b])[..|before|] == before;
  }

  method AddBindings(bindings: seq<ServiceBinding>, seen: set<string>, offered: seq<ServiceBinding>, ghost before: seq<ServiceBinding>)
    returns (bindings': seq<ServiceBinding>, seen': set<string>)
    requires bindings == MergeBindings([], before) && seen == Elements(Map(BindingKey, bindings))
    ensures bindings' == MergeBindings([], before + offered) && seen' == Elements(Map(BindingKey, bindings'))
  {
    hide MergeBindings, BindingKey, Map;
    bindings', seen' := bindings, seen;
    assert before + offered[..0] == before;
    for j := 0 to |offered|
      invariant bindings' == MergeBindings([], before + offered[..j])
      invariant seen' == Elements(Map(BindingKey, bindings'))
    {
      var binding := offered[j];
      assert before + offered[..j + 1] == before + offered[..j] + [binding];
      MergeStep(before + offered[..j], binding);
      assert BindingKey(binding) in Map(BindingKey, bindings') <==> BindingKey(binding) in seen';
      if BindingKey(binding) in seen' {
        continue;
      }
      MapAppend(BindingKey, bindings', binding);
      AppendElement(Map(BindingKey, bindings'), BindingKey(binding));
      bindings' := bindings' + [binding];
      seen' := seen' + {BindingKey(binding)};
    }
    assert offered[..|offered|] == offered;
  }

  lemma AppendElement<T>(s: seq<T>, x: T)
    ensures Elements(s + [x]) == Elements(s) + {x}
  {
  }

  method PlanBindings(decisions: seq<PlacementDecision>) returns (bindings: seq<ServiceBinding>)
    ensures bindings == MergeBindings([], DecisionBindings(decisions))
  {
    bindings := [];
    var seen: set<string> := {};
    ghost var f := (d: PlacementDecision) => d.Bindings();
    assert decisions[..0] == [];
    for i := 0 to |decisions|
      invariant bindings == MergeBindings([], FlatMap(f, decisions[..i]))
      invariant seen == Elements(Map(BindingKey, bindings))
    {
      FlatMapStep(f, decisions, i);
      bindings, seen := AddBindings(bindings, seen, decisions[i].Bindings(), FlatMap(f, decisions[..i]));
    }
    assert decisions[..|decisions|] == decisions;
  }

  // ----- Assembly -----

  /** A decision that gives a cell compatible catalog bindings, each once. */
  ghost predicate Usable(m: Manifest, catalog: Catalog, d: PlacementDecision) {
    && Distinct(Map(BindingKey, d.Bindings()))
    && forall b :: b in d.Bindings() ==> b in catalog.bindings && Compatible(b, m)
  }

  /** What `_place` lets through is usable, whatever the policy does. */
  lemma PlacedIsUsable(m: Manifest, catalog: Catalog, policy: PolicyFunction)
    requires catalog.Valid() && Place(m, catalog, policy).Some?
    ensures Usable(m, catalog, Place(m, catalog, policy).value)
    ensures Place(m, catalog, policy).value.cellId == m.cellId
  {
    hide BindingKey, SortBy, Compatible, LastById;
    var d := Place(m, catalog, policy).value;
    CandidatesAreCompatible(catalog, m);
    DistinctIffSetSize(Map(BindingKey, d.Bindings()));
  }

  /** Everything the assembly of a plan draws on. */
  datatype Supplies = Supplies(
    planId: string, target: string, horizon: string, graph: CellGraph, manifests: map<string, Manifest>,
    decisions: map<string, PlacementDecision>, references: seq<InputReference>)
  {
    /** Every graph cell has a manifest, a usable decision and its inputs. */
    ghost predicate Complete(catalog: Catalog) {
      forall n :: n in graph.nodes ==>
        && n.cellId in manifests && n.cellId in decisions
        && manifests[n.cellId].cellId == n.cellId
        && Usable(manifests[n.cellId], catalog, decisions[n.cellId])
        && KindsServed(manifests[n.cellId], references)
    }

    ghost function Node(n: CellGraphNode): ExecutionNode
      requires n.cellId in manifests && n.cellId in decisions && KindsServed(manifests[n.cellId], references)
    {
      NodeForGraphNode(n, manifests[n.cellId], decisions[n.cellId], ReferencesForManifest(manifests[n.cellId], references))
    }

    ghost function Nodes(catalog: Catalog): (r: seq<ExecutionNode>)
      requires Complete(catalog)
      ensures |r| == |graph.nodes| && forall i :: 0 <= i < |r| ==> r[i] == Node(graph.nodes[i])
    {
      seq(|graph.nodes|, i requires 0 <= i < |graph.nodes| => Node(graph.nodes[i]))
    }

    ghost function Decisions(): (r: seq<PlacementDecision>)
      requires forall c :: c in GraphCellIds(graph) ==> c in decisions
    {
      var cells := GraphCellIds(graph);
      seq(|cells|, i requires 0 <= i < |cells| => decisions[cells[i]])
    }

    /** The plan that `build` hands to validation. */
    ghost function Plan(catalog: Catalog): ExecutionPlan
      requires Complete(catalog)
    {
      CellsOfGraph(graph);
      ExecutionPlan(planId, target, horizon, graph.rootNodeId, Nodes(catalog), references,
                    MergeBindings([], DecisionBindings(Decisions())))
    }

    /** The references are distinct, in scope, and each of a kind that some graph cell requires. */
    ghost predicate ReferencesUsable()
      requires forall n :: n in graph.nodes ==> n.cellId in manifests
    {
      && Distinct(Map(ReferenceKey, references))
      && (forall r :: r in references ==> r.target == target && r.horizon == horizon)
      && (forall r :: r in references ==> Required(r.inputKind))
    }

    ghost predicate Required(kind: string)
      requires forall n :: n in graph.nodes ==> n.cellId in manifests
    {
      exists n :: n in graph.nodes && kind in manifests[n.cellId].requiredInputKinds
    }

    /** Some graph cell was given this binding. */
    ghost predicate Offers(b: ServiceBinding) {
      exists n :: n in graph.nodes && n.cellId in decisions && b in decisions[n.cellId].Bindings()
    }
  }

  lemma CellsOfGraph(graph: CellGraph)
    ensures forall c :: c in GraphCellIds(graph) <==> exists n :: n in graph.nodes && n.cellId == c
  {
    var f := (n: CellGraphNode) => n.cellId;
    var cells := Map(f, graph.nodes);
    forall c ensures c in cells <==> exists n :: n in graph.nodes && n.cellId == c {
      if c in cells {
        var i :| 0 <= i < |cells| && cells[i] == c;
        assert graph.nodes[i] in graph.nodes;
      }
      if n :| n in graph.nodes && n.cellId == c {
        var i :| 0 <= i < |graph.nodes| && graph.nodes[i] == n;
        assert cells[i] == c;
      }
    }
  }

  // ----- The assembled plan has the graph's topology -----

  lemma {:induction false} SameKeysSameDependencies(nodes: seq<ExecutionNode>, graphNodes: seq<CellGraphNode>)
    requires |nodes| == |graphNodes|
    requires forall i :: 0 <= i < |nodes| ==>
      nodes[i].nodeId == graphNodes[i].nodeId && nodes[i].dependencies == graphNodes[i].dependencies
    ensures FirstById(NodeKey, nodes).Keys == FirstById(GraphNodeKey, graphNodes).Keys
    ensures forall id :: id in FirstById(NodeKey, nodes) ==>
      FirstById(NodeKey, nodes)[id].dependencies == FirstById(GraphNodeKey, graphNodes)[id].dependencies
  {
    if nodes == [] {
    } else {
      hide FirstById, Map;
      var k := |nodes| - 1;
      SameKeysSameDependencies(nodes[..k], graphNodes[..k]);
      TableStep(NodeKey, nodes);
      TableStep(GraphNodeKey, graphNodes);
      GrowTables(FirstById(NodeKey, nodes[..k]), FirstById(GraphNodeKey, graphNodes[..k]), nodes[k], graphNodes[k]);
    }
  }

  lemma GrowTables(m: map<string, ExecutionNode>, g: map<string, CellGraphNode>, x: ExecutionNode, y: CellGraphNode)
    requires m.Keys == g.Keys && forall id :: id in m ==> m[id].dependencies == g[id].dependencies
    requires x.nodeId == y.nodeId && x.dependencies == y.dependencies
    ensures var m' := if NodeKey(x) in m then m else m[NodeKey(x) := x];
      var g' := if GraphNodeKey(y) in g then g else g[GraphNodeKey(y) := y];
      m'.Keys == g'.Keys && forall id :: id in m' ==> m'[id].dependencies == g'[id].dependencies
  {
    assert forall id :: id in m <==> id in g by {
      assert forall id :: id in m <==> id in m.Keys;
    }
  }

  lemma TableStep<T>(id: T -> string, xs: seq<T>)
    requires xs != []
    ensures FirstById(id, xs) ==
      var m, x := FirstById(id, xs[..|xs| - 1]), xs[|xs| - 1]; if id(x) in m then m else m[id(x) := x]
  {
  }

  lemma AssembledTopology(s: Supplies, catalog: Catalog)
    requires s.Complete(catalog)
    ensures var plan := s.Plan(catalog);
      && PlanDependencies(PlanNodes(plan)) == GraphDependencies(GraphNodes(s.graph))
      && PlanNodes(plan).Keys == GraphNodes(s.graph).Keys
      && Map(NodeKey, plan.nodes) == Map(GraphNodeKey, s.graph.nodes)
  {
    hide FirstById, Map, Supplies.Plan, Supplies.Complete;
    AssembledShape(s, catalog);
    SameKeysSameDependencies(s.Plan(catalog).nodes, s.graph.nodes);
    SameIds(s.Plan(catalog).nodes, s.graph.nodes);
    TablesAgree(FirstById(NodeKey, s.Plan(catalog).nodes), FirstById(GraphNodeKey, s.graph.nodes));
  }

  lemma AssembledShape(s: Supplies, catalog: Catalog)
    requires s.Complete(catalog)
    ensures var nodes := s.Plan(catalog).nodes;
      && |nodes| == |s.graph.nodes|
      && forall i :: 0 <= i < |nodes| ==>
           nodes[i].nodeId == s.graph.nodes[i].nodeId && nodes[i].dependencies == s.graph.nodes[i].dependencies
  {
    hide KindsServed, MergeBindings, DecisionBindings, Usable;
  }

  lemma SameIds(nodes: seq<ExecutionNode>, graphNodes: seq<CellGraphNode>)
    requires |nodes| == |graphNodes| && forall i :: 0 <= i < |nodes| ==> nodes[i].nodeId == graphNodes[i].nodeId
    ensures Map(NodeKey, nodes) == Map(GraphNodeKey, graphNodes)
  {
    hide Map;
  }

  lemma TablesAgree(nodes: map<string, ExecutionNode>, graphNodes: map<string, CellGraphNode>)
    requires nodes.Keys == graphNodes.Keys && forall id :: id in nodes ==> nodes[id].dependencies == graphNodes[id].dependencies
    ensures PlanDependencies(nodes) == GraphDependencies(graphNodes)
  {
    assert forall id :: id in nodes <==> id in nodes.Keys;
  }

  // ----- Bindings of the assembled plan -----

  lemma {:induction false} MergedBindings(more: seq<ServiceBinding>)
    ensures Distinct(Map(BindingKey, MergeBindings([], more)))
    ensures forall b :: b in MergeBindings([], more) ==> b in more
    ensures forall b :: b in more ==> BindingKey(b) in Map(BindingKey, MergeBindings([], more))
  {
    hide BindingKey, Map, Distinct;
    if more == [] {
      NothingMerged();
    } else {
      var k := |more| - 1;
      MergedBindings(more[..k]);
      assert more == more[..k] + [more[k]];
      var merged := MergeBindings([], more[..k]);
      if BindingKey(more[k]) !in Map(BindingKey, merged) {
        MapAppend(BindingKey, merged, more[k]);
        DistinctWithOneMore(Map(BindingKey, merged), BindingKey(more[k]));
      }
    }
  }

  lemma NothingMerged()
    ensures Distinct(Map(BindingKey, MergeBindings([], [])))
  {
  }

  lemma OfferedBindings(s: Supplies, catalog: Catalog, b: ServiceBinding)
    requires s.Complete(catalog)
    requires forall c :: c in GraphCellIds(s.graph) <==> exists n :: n in s.graph.nodes && n.cellId == c
    ensures b in DecisionBindings(s.Decisions()) <==> s.Offers(b)
  {
    hide KindsServed, Usable, FlatMap, GraphCellIds;
    var cells, decisions := GraphCellIds(s.graph), s.Decisions();
    FlatMapIn((d: PlacementDecision) => d.Bindings(), decisions, b);
    if d :| d in decisions && b in d.Bindings() {
      var i :| 0 <= i < |decisions| && decisions[i] == d;
      assert cells[i] in cells;
    }
    if n :| n in s.graph.nodes && n.cellId in s.decisions && b in s.decisions[n.cellId].Bindings() {
      assert n.cellId in cells;
      var i :| 0 <= i < |cells| && cells[i] == n.cellId;
      assert decisions[i] in decisions;
    }
  }

  /** The plan's binding table finds every offered binding under its id, and holds nothing else. */
  lemma AssembledBindings(s: Supplies, catalog: Catalog)
    requires catalog.Valid() && s.Complete(catalog)
    ensures Distinct(Map(BindingKey, s.Plan(catalog).serviceBindings))
    ensures forall b :: b in s.Plan(catalog).serviceBindings ==> s.Offers(b)
    ensures forall b :: s.Offers(b) ==>
      var table := PlanModel.PlanBindings(s.Plan(catalog)); BindingKey(b) in table && table[BindingKey(b)] == b
  {
    hide KindsServed, Usable, GraphCellIds, DecisionBindings, MergeBindings, FirstById, BindingKey;
    CellsOfGraph(s.graph);
    var offered := DecisionBindings(s.Decisions());
    var kept := s.Plan(catalog).serviceBindings;
    assert kept == MergeBindings([], offered);
    MergedBindings(offered);
    forall b ensures b in offered <==> s.Offers(b) { OfferedBindings(s, catalog, b); }
    forall b | s.Offers(b) ensures BindingKey(b) in FirstById(BindingKey, kept) && FirstById(BindingKey, kept)[BindingKey(b)] == b {
      FoundInTable(s, catalog, kept, b);
    }
  }

  lemma FoundInTable(s: Supplies, catalog: Catalog, kept: seq<ServiceBinding>, b: ServiceBinding)
    requires catalog.Valid() && s.Complete(catalog) && s.Offers(b)
    requires Distinct(Map(BindingKey, kept)) && BindingKey(b) in Map(BindingKey, kept)
    requires forall c :: c in kept ==> s.Offers(c)
    ensures BindingKey(b) in FirstById(BindingKey, kept) && FirstById(BindingKey, kept)[BindingKey(b)] == b
  {
    hide KindsServed, FirstById, BindingKey;
    var i :| 0 <= i < |kept| && Map(BindingKey, kept)[i] == BindingKey(b);
    assert forall c :: s.Offers(c) ==> c in catalog.bindings;
    SameIdSameElement(BindingKey, catalog.bindings, b, kept[i]);
    FirstByIdFinds(BindingKey, kept, b);
  }

  // ----- Input references of the assembled plan -----

  lemma TheOnlyOfKind(references: seq<InputReference>, kind: string, r: InputReference)
    requires |PlanValidation.OfKind(references, kind)| == 1
    ensures PlanValidation.OfKind(references, kind)[0] == r <==> r in references && r.inputKind == kind
  {
    var matching := PlanValidation.OfKind(references, kind);
    assert r in matching <==> r == matching[0];
  }

  /** A node's reference ids are distinct, resolve to its references, and those have the required kinds. */
  lemma NodeReferences(m: Manifest, references: seq<InputReference>)
    requires KindsServed(m, references) && Distinct(Map(ReferenceKey, references))
    ensures var chosen := ReferencesForManifest(m, references);
      && Distinct(Map(ReferenceKey, chosen))
      && (forall id :: id in Map(ReferenceKey, chosen) ==> id in FirstById(ReferenceKey, references))
      && PlanValidation.PresentReferences(Map(ReferenceKey, chosen), FirstById(ReferenceKey, references)) == chosen
      && PlanValidation.ReferencedKinds(chosen) == m.requiredInputKinds
  {
    var kinds, chosen := m.requiredInputKinds, ReferencesForManifest(m, references);
    ChosenServe(m, references);
    hide PlanValidation.OfKind, PlanValidation.PresentReferences, FirstById, KindsServed, ReferencesForManifest, Map, Distinct;
    ChosenDiffer(kinds, chosen, references);
    assert PlanValidation.ReferencedKinds(chosen) == kinds;
    forall r | r in chosen ensures r in references { var i :| 0 <= i < |chosen| && chosen[i] == r; }
    PresentAll(chosen, references);
  }

  lemma ChosenDiffer(kinds: seq<string>, chosen: seq<InputReference>, references: seq<InputReference>)
    requires Distinct(kinds) && |chosen| == |kinds| && Distinct(Map(ReferenceKey, references))
    requires forall i :: 0 <= i < |chosen| ==> chosen[i] in references && chosen[i].inputKind == kinds[i]
    ensures Distinct(Map(ReferenceKey, chosen))
  {
    hide Map;
    forall i, j | 0 <= i < j < |chosen| ensures Map(ReferenceKey, chosen)[i] != Map(ReferenceKey, chosen)[j] {
      assert kinds[i] != kinds[j];
      if ReferenceKey(chosen[i]) == ReferenceKey(chosen[j]) { SameIdSameElement(ReferenceKey, references, chosen[i], chosen[j]); }
    }
  }

  /** The chosen references serve the required kinds one by one. */
  lemma ChosenServe(m: Manifest, references: seq<InputReference>)
    requires KindsServed(m, references)
    ensures var chosen, kinds := ReferencesForManifest(m, references), m.requiredInputKinds;
      && |chosen| == |kinds| && Distinct(kinds)
      && forall i :: 0 <= i < |chosen| ==> chosen[i] in references && chosen[i].inputKind == kinds[i]
  {
    hide PlanValidation.OfKind;
    var kinds, chosen := m.requiredInputKinds, ReferencesForManifest(m, references);
    forall i | 0 <= i < |chosen| ensures chosen[i] in references && chosen[i].inputKind == kinds[i] {
      TheOnlyOfKind(references, kinds[i], chosen[i]);
    }
    DistinctIffSetSize(kinds);
  }

  lemma {:induction false} PresentAll(chosen: seq<InputReference>, references: seq<InputReference>)
    requires Distinct(Map(ReferenceKey, references)) && forall r :: r in chosen ==> r in references
    ensures forall id :: id in Map(ReferenceKey, chosen) ==> id in FirstById(ReferenceKey, references)
    ensures PlanValidation.PresentReferences(Map(ReferenceKey, chosen), FirstById(ReferenceKey, references)) == chosen
  {
    hide FirstById;
    if chosen != [] {
      var k := |chosen| - 1;
      assert chosen == chosen[..k] + [chosen[k]];
      PresentAll(chosen[..k], references);
      FirstByIdFinds(ReferenceKey, references, chosen[k]);
      MapAppend(ReferenceKey, chosen[..k], chosen[k]);
      var ids := Map(ReferenceKey, chosen);
      assert ids[..k] == Map(ReferenceKey, chosen[..k]) && ids[k] == chosen[k].referenceId;
    }
  }

  /** The chosen reference ids are those of the references whose kind is required. */
  lemma ChosenIds(m: Manifest, references: seq<InputReference>, r: InputReference)
    requires KindsServed(m, references) && Distinct(Map(ReferenceKey, references)) && r in references
    ensures r.referenceId in Map(ReferenceKey, ReferencesForManifest(m, references)) <==> r.inputKind in m.requiredInputKinds
  {
    hide PlanValidation.OfKind;
    var kinds, chosen := m.requiredInputKinds, ReferencesForManifest(m, references);
    if r.referenceId in Map(ReferenceKey, chosen) {
      var j :| 0 <= j < |chosen| && Map(ReferenceKey, chosen)[j] == r.referenceId;
      TheOnlyOfKind(references, kinds[j], chosen[j]);
      SameIdSameElement(ReferenceKey, references, chosen[j], r);
    }
    if r.inputKind in kinds {
      var j :| 0 <= j < |kinds| && kinds[j] == r.inputKind;
      TheOnlyOfKind(references, r.inputKind, r);
      assert Map(ReferenceKey, chosen)[j] == r.referenceId;
    }
  }

  /** With distinct references, one is used by the plan exactly when some graph cell requires its kind. */
  lemma ReferenceUsedIff(s: Supplies, catalog: Catalog, r: InputReference)
    requires s.Complete(catalog) && Distinct(Map(ReferenceKey, s.references)) && r in s.references
    ensures r.referenceId in PlanValidation.UsedReferences(s.Plan(catalog)) <==> s.Required(r.inputKind)
  {
    hide KindsServed, Map, Usable, Supplies.Plan;
    var plan := s.Plan(catalog);
    AssembledShape(s, catalog);
    forall i | 0 <= i < |plan.nodes|
      ensures r.referenceId in plan.nodes[i].inputReferenceIds <==> r.inputKind in s.manifests[s.graph.nodes[i].cellId].requiredInputKinds
    {
      NodeUsesReference(s, catalog, r, i);
    }
    if r.referenceId in PlanValidation.UsedReferences(plan) {
      var x :| x in plan.nodes && r.referenceId in x.inputReferenceIds;
      var i :| 0 <= i < |plan.nodes| && plan.nodes[i] == x;
      assert s.graph.nodes[i] in s.graph.nodes;
    }
    if n :| n in s.graph.nodes && r.inputKind in s.manifests[n.cellId].requiredInputKinds {
      var i :| 0 <= i < |s.graph.nodes| && s.graph.nodes[i] == n;
      assert plan.nodes[i] in plan.nodes;
    }
  }

  lemma NodeUsesReference(s: Supplies, catalog: Catalog, r: InputReference, i: nat)
    requires s.Complete(catalog) && Distinct(Map(ReferenceKey, s.references)) && r in s.references
    requires i < |s.Plan(catalog).nodes| && i < |s.graph.nodes|
    ensures var c := s.graph.nodes[i].cellId;
      c in s.manifests && (r.referenceId in s.Plan(catalog).nodes[i].inputReferenceIds <==> r.inputKind in s.manifests[c].requiredInputKinds)
  {
    hide KindsServed, ReferencesForManifest, MergeBindings, DecisionBindings, Map, Usable;
    assert s.graph.nodes[i] in s.graph.nodes;
    ChosenIds(s.manifests[s.graph.nodes[i].cellId], s.references, r);
  }

  // ----- The planner theorem -----

  /** The ids of a decision's bindings are the node's primary and fallback ids. */
  lemma NodeBindingIds(d: PlacementDecision)
    ensures Map(BindingKey, d.Bindings()) == [d.selected.Id()] + Map(BindingKey, d.fallbacks)
  {
  }

  lemma NodeBindingFits(s: Supplies, catalog: Catalog, n: CellGraphNode, b: ServiceBinding)
    requires catalog.Valid() && s.Complete(catalog) && n in s.graph.nodes && b in s.decisions[n.cellId].Bindings()
    ensures PlanValidation.BindingFits(s.Node(n), BindingKey(b), PlanModel.PlanBindings(s.Plan(catalog)))
  {
    AssembledBindings(s, catalog);
    hide KindsServed, BindingKey, PlanModel.PlanBindings, Supplies.Plan, ReferencesForManifest, Map;
    assert s.Offers(b);
  }

  lemma NodeBindingsFit(s: Supplies, catalog: Catalog, n: CellGraphNode)
    requires catalog.Valid() && s.Complete(catalog) && n in s.graph.nodes
    ensures Distinct([s.Node(n).bindingId] + s.Node(n).fallbackBindingIds)
    ensures forall id :: id in [s.Node(n).bindingId] + s.Node(n).fallbackBindingIds ==>
      PlanValidation.BindingFits(s.Node(n), id, PlanModel.PlanBindings(s.Plan(catalog)))
  {
    var d := s.decisions[n.cellId];
    NodeBindingIds(d);
    var ids := Map(BindingKey, d.Bindings());
    assert [s.Node(n).bindingId] + s.Node(n).fallbackBindingIds == ids;
    hide KindsServed, BindingKey, PlanModel.PlanBindings, Supplies.Plan, Supplies.Node, PlanValidation.BindingFits;
    forall id | id in ids ensures PlanValidation.BindingFits(s.Node(n), id, PlanModel.PlanBindings(s.Plan(catalog))) {
      var j :| 0 <= j < |ids| && ids[j] == id;
      NodeBindingFits(s, catalog, n, d.Bindings()[j]);
    }
  }

  lemma NodeInputsFit(s: Supplies, catalog: Catalog, n: CellGraphNode)
    requires s.Complete(catalog) && n in s.graph.nodes && Distinct(Map(ReferenceKey, s.references))
    ensures var x, table := s.Node(n), PlanReferences(s.Plan(catalog));
      && Distinct(x.inputReferenceIds)
      && (forall id :: id in x.inputReferenceIds ==> id in table)
      && PlanValidation.KindsAgree(x, PlanValidation.PresentReferences(x.inputReferenceIds, table))
  {
    hide FirstById, ReferencesForManifest, PlanValidation.PresentReferences, PlanValidation.ReferencedKinds, Map, Usable,
         MergeBindings, DecisionBindings;
    var m := s.manifests[n.cellId];
    AssembledHeader(s, catalog);
    hide Supplies.Plan;
    NodeReferences(m, s.references);
    DistinctIffSetSize(m.requiredInputKinds);
  }

  lemma NodeDependenciesFit(s: Supplies, catalog: Catalog, n: CellGraphNode)
    requires s.Complete(catalog) && n in s.graph.nodes
    requires GraphValidation.GraphWellFormed(s.graph, Some(s.manifests.Keys))
    ensures var x := s.Node(n);
      && (x.role == Leaf ==> x.dependencies == [])
      && Distinct(x.dependencies)
      && forall d :: d in x.dependencies ==> d != x.nodeId && d in PlanNodes(s.Plan(catalog))
  {
    hide FirstById, RootedAcyclic, GraphValidation.OrganWellFormed, KindsServed, Usable, Supplies.Plan;
    AssembledTopology(s, catalog);
    assert GraphDependencies(GraphNodes(s.graph)).Keys == GraphNodes(s.graph).Keys;
    assert GraphValidation.GraphNodeWellFormed(n, GraphDependencies(GraphNodes(s.graph)).Keys);
  }

  lemma AssembledNodeWellFormed(s: Supplies, catalog: Catalog, n: CellGraphNode)
    requires catalog.Valid() && s.Complete(catalog) && n in s.graph.nodes
    requires GraphValidation.GraphWellFormed(s.graph, Some(s.manifests.Keys)) && Distinct(Map(ReferenceKey, s.references))
    ensures PlanValidation.NodeWellFormed(s.Node(n), s.Plan(catalog))
  {
    hide Supplies.Plan, Supplies.Node, PlanNodes, PlanReferences, PlanModel.PlanBindings, GraphValidation.GraphWellFormed,
         PlanValidation.BindingFits, PlanValidation.KindsAgree, PlanValidation.PresentReferences, KindsServed, Usable, Map, Distinct;
    NodeBindingsFit(s, catalog, n);
    NodeInputsFit(s, catalog, n);
    NodeDependenciesFit(s, catalog, n);
  }

  lemma AssembledBindingsUsed(s: Supplies, catalog: Catalog, b: ServiceBinding)
    requires catalog.Valid() && s.Complete(catalog) && b in s.Plan(catalog).serviceBindings
    ensures BindingKey(b) in PlanValidation.UsedBindings(s.Plan(catalog))
  {
    AssembledBindings(s, catalog);
    var n :| n in s.graph.nodes && n.cellId in s.decisions && b in s.decisions[n.cellId].Bindings();
    BindingOfNode(s, catalog, n, b);
    hide Supplies.Plan, Supplies.Node, BindingKey;
    var x := s.Node(n);
    assert x in s.Plan(catalog).nodes && BindingKey(b) in [x.bindingId] + x.fallbackBindingIds;
  }

  lemma BindingOfNode(s: Supplies, catalog: Catalog, n: CellGraphNode, b: ServiceBinding)
    requires s.Complete(catalog) && n in s.graph.nodes && n.cellId in s.decisions && b in s.decisions[n.cellId].Bindings()
    ensures s.Node(n) in s.Plan(catalog).nodes && BindingKey(b) in [s.Node(n).bindingId] + s.Node(n).fallbackBindingIds
  {
    NodeInPlan(s, catalog, n);
    hide KindsServed, Usable, ReferencesForManifest, BindingKey, Map, Supplies.Plan;
    var d := s.decisions[n.cellId];
    NodeBindingIds(d);
    var j :| 0 <= j < |d.Bindings()| && d.Bindings()[j] == b;
    assert Map(BindingKey, d.Bindings())[j] == BindingKey(b);
    assert [s.Node(n).bindingId] + s.Node(n).fallbackBindingIds == Map(BindingKey, d.Bindings());
  }

  lemma NodeInPlan(s: Supplies, catalog: Catalog, n: CellGraphNode)
    requires s.Complete(catalog) && n in s.graph.nodes
    ensures s.Node(n) in s.Plan(catalog).nodes
  {
    hide KindsServed, Usable, ReferencesForManifest, Supplies.Node;
    var i :| 0 <= i < |s.graph.nodes| && s.graph.nodes[i] == n;
    assert s.Plan(catalog).nodes[i] == s.Node(n);
  }

  lemma AssembledNodes(s: Supplies, catalog: Catalog, x: ExecutionNode)
    requires s.Complete(catalog) && x in s.Plan(catalog).nodes
    ensures exists n :: n in s.graph.nodes && x == s.Node(n)
  {
    hide KindsServed, Usable, MergeBindings, DecisionBindings;
    var i :| 0 <= i < |s.Plan(catalog).nodes| && s.Plan(catalog).nodes[i] == x;
    assert s.graph.nodes[i] in s.graph.nodes;
  }

  /** Every planned cell has a manifest. */
  lemma AssembledCells(s: Supplies, catalog: Catalog)
    requires s.Complete(catalog)
    ensures forall x :: x in s.Plan(catalog).nodes ==> x.cellId in s.manifests && s.manifests[x.cellId].cellId == x.cellId
  {
    forall x | x in s.Plan(catalog).nodes ensures x.cellId in s.manifests && s.manifests[x.cellId].cellId == x.cellId {
      AssembledNodes(s, catalog, x);
      hide Supplies.Plan, KindsServed, Usable, ReferencesForManifest;
      var n :| n in s.graph.nodes && x == s.Node(n);
    }
  }

  lemma ManifestsRegistered(planId: string, target: string, horizon: string, graph: CellGraph, registry: seq<Manifest>, catalog: Catalog,
                            policy: PolicyFunction, references: seq<InputReference>)
    ensures var s := SuppliesFor(planId, target, horizon, graph, registry, catalog, policy, references);
      forall c :: c in s.manifests ==> s.manifests[c] in registry
  {
    hide DecisionTable;
  }

  lemma AssembledRoles(s: Supplies, catalog: Catalog, x: ExecutionNode)
    requires catalog.Valid() && s.Complete(catalog) && x in s.Plan(catalog).nodes
    requires GraphValidation.GraphWellFormed(s.graph, Some(s.manifests.Keys)) && Distinct(Map(ReferenceKey, s.references))
    ensures PlanValidation.NodeWellFormed(x, s.Plan(catalog)) && (x.role == Root <==> x.nodeId == s.Plan(catalog).rootNodeId)
  {
    hide PlanValidation.NodeWellFormed, RootedAcyclic, GraphValidation.OrganWellFormed, GraphValidation.GraphNodeWellFormed,
         Map, KindsServed, Usable, MergeBindings, DecisionBindings, ReferencesForManifest;
    AssembledNodes(s, catalog, x);
    var n :| n in s.graph.nodes && x == s.Node(n);
    AssembledNodeWellFormed(s, catalog, n);
  }

  lemma AssembledHeader(s: Supplies, catalog: Catalog)
    requires s.Complete(catalog)
    ensures var plan := s.Plan(catalog);
      plan.inputReferences == s.references && plan.target == s.target && plan.horizon == s.horizon && plan.rootNodeId == s.graph.rootNodeId
  {
  }

  lemma GraphFacts(graph: CellGraph, cells: Option<set<string>>)
    requires GraphValidation.GraphWellFormed(graph, cells)
    ensures Distinct(Map(GraphNodeKey, graph.nodes)) && RootedAcyclic(GraphDependencies(GraphNodes(graph)), graph.rootNodeId)
  {
  }

  /** A plan assembled from an accepted graph and usable supplies passes validation, with the graph's levels. */
  lemma PlannerSound(s: Supplies, catalog: Catalog)
    requires catalog.Valid() && s.Complete(catalog)
    requires GraphValidation.GraphWellFormed(s.graph, Some(s.manifests.Keys)) && s.ReferencesUsable()
    ensures PlanValidation.PlanIssues(s.Plan(catalog)) == []
    ensures Levels(PlanDependencies(PlanNodes(s.Plan(catalog)))) == Levels(GraphDependencies(GraphNodes(s.graph)))
  {
    hide Supplies.Plan, Supplies.Complete, Supplies.Required, Map, PlanNodes, RootedAcyclic, GraphValidation.GraphWellFormed,
         PlanValidation.NodeWellFormed, PlanValidation.UsedBindings, PlanValidation.UsedReferences, Levels,
         PlanValidation.PlanIssues, BindingKey;
    var plan := s.Plan(catalog);
    GraphFacts(s.graph, Some(s.manifests.Keys));
    AssembledHeader(s, catalog);
    AssembledTopology(s, catalog);
    AssembledBindings(s, catalog);
    forall x | x in plan.nodes ensures PlanValidation.NodeWellFormed(x, plan) && (x.role == Root <==> x.nodeId == plan.rootNodeId) {
      AssembledRoles(s, catalog, x);
    }
    forall b | b in plan.serviceBindings ensures b.Id() in PlanValidation.UsedBindings(plan) {
      AssembledBindingsUsed(s, catalog, b);
      BindingKeyIsId(b);
    }
    forall r | r in plan.inputReferences ensures r.referenceId in PlanValidation.UsedReferences(plan) {
      ReferenceUsedIff(s, catalog, r);
    }
    assert PlanValidation.PlanWellFormed(plan);
    PlanValidation.PlanIssuesEmptyIff(plan);
  }

  lemma BindingKeyIsId(b: ServiceBinding)
    ensures BindingKey(b) == b.Id()
  {
  }

  /** Once the graph is accepted and supplied, unusable references are the only reason left to reject the plan. */
  lemma PlannerComplete(s: Supplies, catalog: Catalog)
    requires catalog.Valid() && s.Complete(catalog)
    requires GraphValidation.GraphWellFormed(s.graph, Some(s.manifests.Keys))
    ensures PlanValidation.PlanWellFormed(s.Plan(catalog)) <==> s.ReferencesUsable()
  {
    if s.ReferencesUsable() {
      PlannerSound(s, catalog);
      PlanValidation.PlanIssuesEmptyIff(s.Plan(catalog));
    }
    if PlanValidation.PlanWellFormed(s.Plan(catalog)) {
      WellFormedPlanReferences(s, catalog);
    }
  }

  lemma WellFormedPlanReferences(s: Supplies, catalog: Catalog)
    requires s.Complete(catalog) && PlanValidation.PlanWellFormed(s.Plan(catalog))
    ensures s.ReferencesUsable()
  {
    hide KindsServed, Usable, RootedAcyclic, PlanValidation.NodeWellFormed, PlanValidation.UsedBindings,
         PlanValidation.UsedReferences, Supplies.Required;
    assert s.Plan(catalog).inputReferences == s.references;
    forall r | r in s.references ensures s.Required(r.inputKind) {
      ReferenceUsedIff(s, catalog, r);
    }
  }

  // ----- The build -----

  method PlaceAll(cells: seq<string>, manifests: map<string, Manifest>, catalog: Catalog, policy: PolicyFunction)
    returns (r: Result<seq<PlacementDecision>, PlannerError>)
    requires forall c :: c in cells ==> c in manifests
    ensures r.Ok? <==> forall c :: c in cells ==> Place(manifests[c], catalog, policy).Some?
    ensures r.Ok? ==>
      |r.value| == |cells| && forall i :: 0 <= i < |cells| ==> Place(manifests[cells[i]], catalog, policy) == Some(r.value[i])
  {
    hide Place;
    var decisions := [];
    for i := 0 to |cells|
      invariant |decisions| == i && forall j :: 0 <= j < i ==> Place(manifests[cells[j]], catalog, policy) == Some(decisions[j])
    {
      var d := Place(manifests[cells[i]], catalog, policy);
      if d.None? {
        return Err(PlacementUnavailable(cells[i]));
      }
      decisions := decisions + [d.value];
    }
    return Ok(decisions);
  }

  method NodesFor(graph: CellGraph, manifests: map<string, Manifest>, references: seq<InputReference>, decisions: map<string, PlacementDecision>)
    returns (r: Result<seq<ExecutionNode>, PlannerError>)
    requires forall n :: n in graph.nodes ==> n.cellId in manifests && n.cellId in decisions
    ensures r.Ok? <==> forall n :: n in graph.nodes ==> KindsServed(manifests[n.cellId], references)
    ensures r.Ok? ==> |r.value| == |graph.nodes| && forall i :: 0 <= i < |graph.nodes| ==>
      var n := graph.nodes[i];
      && KindsServed(manifests[n.cellId], references)
      && r.value[i] == NodeForGraphNode(n, manifests[n.cellId], decisions[n.cellId], ReferencesForManifest(manifests[n.cellId], references))
  {
    hide KindsServed, ReferencesForManifest;
    var nodes := [];
    for i := 0 to |graph.nodes|
      invariant |nodes| == i && forall j :: 0 <= j < i ==>
        var n := graph.nodes[j];
        && KindsServed(manifests[n.cellId], references)
        && nodes[j] == NodeForGraphNode(n, manifests[n.cellId], decisions[n.cellId], ReferencesForManifest(manifests[n.cellId], references))
    {
      var n := graph.nodes[i];
      var m := manifests[n.cellId];
      if !KindsServed(m, references) {
        return Err(InputsRejected(m.cellId));
      }
      nodes := nodes + [NodeForGraphNode(n, m, decisions[n.cellId], ReferencesForManifest(m, references))];
    }
    return Ok(nodes);
  }

  /** The decision `_place` would let through for each cell that has one. */
  function DecisionTable(manifests: map<string, Manifest>, catalog: Catalog, policy: PolicyFunction): map<string, PlacementDecision> {
    map c | c in manifests && Place(manifests[c], catalog, policy).Some? :: Place(manifests[c], catalog, policy).value
  }

  function SuppliesFor(planId: string, target: string, horizon: string, graph: CellGraph, registry: seq<Manifest>, catalog: Catalog,
                       policy: PolicyFunction, references: seq<InputReference>): Supplies {
    var manifests := LastById(ManifestKey, registry);
    Supplies(planId, target, horizon, graph, manifests, DecisionTable(manifests, catalog, policy), references)
  }

  /** Every graph cell can be placed and gets exactly one reference of each kind it requires. */
  ghost predicate Served(s: Supplies) {
    forall n :: n in s.graph.nodes ==>
      n.cellId in s.manifests && n.cellId in s.decisions && KindsServed(s.manifests[n.cellId], s.references)
  }

  lemma ServedMeans(s: Supplies)
    ensures Served(s) <==> forall n :: n in s.graph.nodes ==>
      n.cellId in s.manifests && n.cellId in s.decisions && KindsServed(s.manifests[n.cellId], s.references)
  {
  }

  lemma ServedIsComplete(planId: string, target: string, horizon: string, graph: CellGraph, registry: seq<Manifest>, catalog: Catalog,
                         policy: PolicyFunction, references: seq<InputReference>)
    requires catalog.Valid()
    ensures var s := SuppliesFor(planId, target, horizon, graph, registry, catalog, policy, references);
      Served(s) <==> s.Complete(catalog)
  {
    hide Place, KindsServed, Usable, LastById;
    var s := SuppliesFor(planId, target, horizon, graph, registry, catalog, policy, references);
    assert forall c :: c in s.manifests ==> ManifestKey(s.manifests[c]) == c;
    forall c | c in s.decisions ensures Usable(s.manifests[c], catalog, s.decisions[c]) {
      PlacedIsUsable(s.manifests[c], catalog, policy);
    }
  }

  /** The decisions, found again under their cells, agree with the table. */
  lemma DecisionFound(cells: seq<string>, decisions: seq<PlacementDecision>, table: map<string, PlacementDecision>, c: string)
    requires Distinct(cells) && c in cells && |decisions| == |cells|
    requires forall i :: 0 <= i < |cells| ==> cells[i] in table && table[cells[i]] == decisions[i] && decisions[i].cellId == cells[i]
    ensures var byCell := LastById((d: PlacementDecision) => d.cellId, decisions); c in byCell && byCell[c] == table[c]
  {
    hide LastById;
    var id := (d: PlacementDecision) => d.cellId;
    assert Map(id, decisions) == cells;
    var i :| 0 <= i < |cells| && cells[i] == c;
    LastByIdFinds(id, decisions, decisions[i]);
  }

  /** Placing the graph's cells one by one fills the decision table for exactly those cells. */
  method PlaceCells(s: Supplies, catalog: Catalog, policy: PolicyFunction)
    returns (placed: Result<seq<PlacementDecision>, PlannerError>, byCell: map<string, PlacementDecision>)
    requires catalog.Valid() && s.decisions == DecisionTable(s.manifests, catalog, policy)
    requires forall c :: c in s.manifests ==> s.manifests[c].cellId == c
    requires forall n :: n in s.graph.nodes ==> n.cellId in s.manifests
    ensures placed.Ok? <==> forall n :: n in s.graph.nodes ==> n.cellId in s.decisions
    ensures placed.Ok? ==>
      && (forall c :: c in GraphCellIds(s.graph) ==> c in s.decisions) && placed.value == s.Decisions()
      && forall n :: n in s.graph.nodes ==> n.cellId in byCell && byCell[n.cellId] == s.decisions[n.cellId]
  {
    hide Place, LastById, Deduplicate, Map;
    CellsOfGraph(s.graph);
    var cells := GraphCellIds(s.graph);
    placed := PlaceAll(cells, s.manifests, catalog, policy);
    byCell := map[];
    if placed.Ok? {
      forall i | 0 <= i < |cells|
        ensures cells[i] in s.decisions && s.decisions[cells[i]] == placed.value[i] && placed.value[i].cellId == cells[i]
      {
        assert cells[i] in cells;
        PlacedIsUsable(s.manifests[cells[i]], catalog, policy);
      }
      byCell := LastById((d: PlacementDecision) => d.cellId, placed.value);
      forall n | n in s.graph.nodes ensures n.cellId in byCell && byCell[n.cellId] == s.decisions[n.cellId] {
        DecisionFound(cells, placed.value, s.decisions, n.cellId);
      }
      assert placed.value == s.Decisions();
    }
  }

  /**
   * `build`: a plan exactly when the graph is accepted, every cell is placed and served, and the references
   * are usable; the plan is valid and its levels are the graph's.
   */
  method Build(planId: string, target: string, horizon: string, graph: CellGraph, registry: seq<Manifest>, catalog: Catalog,
               policy: PolicyFunction, given: seq<InputReference>, requestReference: InputReference)
    returns (r: Result<ValidatedPlan, PlannerError>)
    requires catalog.Valid()
    ensures var s := SuppliesFor(planId, target, horizon, graph, registry, catalog, policy, if given == [] then [requestReference] else given);
      && (r.Ok? <==> GraphValidation.GraphWellFormed(graph, Some(s.manifests.Keys)) && Served(s) && s.ReferencesUsable())
      && (r.Ok? ==>
            && s.Complete(catalog) && r.value.plan == s.Plan(catalog)
            && PlanValidation.PlanWellFormed(r.value.plan)
            && r.value.levels == Levels(GraphDependencies(GraphNodes(graph))))
  {
    hide *;
    var references := if given == [] then [requestReference] else given;
    var s := SuppliesFor(planId, target, horizon, graph, registry, catalog, policy, references);
    SuppliesParts(planId, target, horizon, graph, registry, catalog, policy, references);
    var accepted, _ := GraphValidator.ValidateCellGraphDefinition(graph, Some(s.manifests.Keys));
    if accepted.Err? {
      return Err(GraphRejected(accepted.error));
    }
    GraphCells(graph, s.manifests.Keys);
    ServedMeans(s);
    var placed, byCell := PlaceCells(s, catalog, policy);
    if placed.Err? {
      return Err(placed.error);
    }
    var nodes := NodesFor(graph, s.manifests, references, byCell);
    if nodes.Err? {
      return Err(nodes.error);
    }
    ServedIsComplete(planId, target, horizon, graph, registry, catalog, policy, references);
    var bindings := PlanBindings(placed.value);
    var plan := ExecutionPlan(planId, target, horizon, graph.rootNodeId, nodes.value, references, bindings);
    AssembledIsPlan(s, catalog, nodes.value, byCell, bindings);
    r := Submit(s, catalog, plan);
  }

  lemma SuppliesParts(planId: string, target: string, horizon: string, graph: CellGraph, registry: seq<Manifest>, catalog: Catalog,
                      policy: PolicyFunction, references: seq<InputReference>)
    ensures var s := SuppliesFor(planId, target, horizon, graph, registry, catalog, policy, references);
      && s.planId == planId && s.target == target && s.horizon == horizon && s.graph == graph && s.references == references
      && s.decisions == DecisionTable(s.manifests, catalog, policy)
      && forall c :: c in s.manifests ==> s.manifests[c].cellId == c
  {
    hide DecisionTable;
    var s := SuppliesFor(planId, target, horizon, graph, registry, catalog, policy, references);
    assert forall c :: c in s.manifests ==> ManifestKey(s.manifests[c]) == c;
  }

  lemma GraphCells(graph: CellGraph, cells: set<string>)
    requires GraphValidation.GraphWellFormed(graph, Some(cells))
    ensures forall n :: n in graph.nodes ==> n.cellId in cells
  {
  }

  lemma AssembledIsPlan(s: Supplies, catalog: Catalog, nodes: seq<ExecutionNode>, byCell: map<string, PlacementDecision>, bindings: seq<ServiceBinding>)
    requires s.Complete(catalog) && |nodes| == |s.graph.nodes|
    requires forall n :: n in s.graph.nodes ==> n.cellId in byCell && byCell[n.cellId] == s.decisions[n.cellId]
    requires forall i :: 0 <= i < |nodes| ==>
      var n := s.graph.nodes[i];
      nodes[i] == NodeForGraphNode(n, s.manifests[n.cellId], byCell[n.cellId], ReferencesForManifest(s.manifests[n.cellId], s.references))
    requires forall c :: c in GraphCellIds(s.graph) ==> c in s.decisions
    requires bindings == MergeBindings([], DecisionBindings(s.Decisions()))
    ensures s.Plan(catalog) == ExecutionPlan(s.planId, s.target, s.horizon, s.graph.rootNodeId, nodes, s.references, bindings)
  {
    hide KindsServed, Usable, MergeBindings, DecisionBindings, GraphCellIds, ReferencesForManifest;
    forall i | 0 <= i < |nodes| ensures nodes[i] == s.Nodes(catalog)[i] {
      assert s.graph.nodes[i] in s.graph.nodes;
    }
    assert nodes == s.Nodes(catalog);
  }

  /** The last step of `build`: the assembled plan is validated. */
  method Submit(ghost s: Supplies, ghost catalog: Catalog, plan: ExecutionPlan) returns (r: Result<ValidatedPlan, PlannerError>)
    requires catalog.Valid() && s.Complete(catalog) && plan == s.Plan(catalog)
    requires GraphValidation.GraphWellFormed(s.graph, Some(s.manifests.Keys))
    ensures r.Ok? <==> s.ReferencesUsable()
    ensures r.Ok? ==> r.value.plan == plan && PlanValidation.PlanWellFormed(plan)
    ensures r.Ok? ==> r.value.levels == Levels(GraphDependencies(GraphNodes(s.graph)))
  {
    hide PlanValidation.PlanWellFormed, PlanValidation.PlanIssues, Levels, Supplies.ReferencesUsable, Supplies.Plan,
         Supplies.Complete, GraphValidation.GraphWellFormed, PlanNodes, GraphNodes;
    var validated := PlanValidator.ValidateExecutionPlan(plan);
    PlannerComplete(s, catalog);
    AssembledTopology(s, catalog);
    PlanValidation.PlanIssuesEmptyIff(plan);
    if validated.Err? {
      return Err(PlanRejected(validated.error));
    }
    return Ok(validated.value);
  }

  // ----- With the default policy -----

  /** The default policy reads one snapshot of runtime history. */
  function DefaultPolicy(policy: PlacementPolicy, entries: seq<RuntimeModel.SummaryEntry>): PolicyFunction {
    (m, candidates) => Select(policy, m, candidates, entries)
  }

  /** Under the default policy a cell is placed exactly when the catalog has a compatible binding. */
  lemma DefaultPlacement(m: Manifest, catalog: Catalog, policy: PlacementPolicy, entries: seq<RuntimeModel.SummaryEntry>)
    requires catalog.Valid()
    ensures Place(m, catalog, DefaultPolicy(policy, entries)).Some? <==> exists b :: b in catalog.bindings && Compatible(b, m)
  {
    hide Select, LastById, SortBy, BindingKey, Compatible, PlacementAccepted;
    var candidates := CandidatesFor(catalog, m);
    CandidatesAreCompatible(catalog, m);
    SelectsIffCompatible(policy, m, candidates, entries);
    if Select(policy, m, candidates, entries).Some? {
      DefaultAccepted(m, candidates, policy, entries);
    }
  }

  /** `_place` accepts every decision of the default policy. */
  lemma DefaultAccepted(m: Manifest, candidates: seq<ServiceBinding>, policy: PlacementPolicy, entries: seq<RuntimeModel.SummaryEntry>)
    requires Distinct(Map(BindingKey, candidates)) && Select(policy, m, candidates, entries).Some?
    ensures PlacementAccepted(m, candidates, Select(policy, m, candidates, entries).value)
  {
    hide Select, LastById, SortBy;
    var d := Select(policy, m, candidates, entries).value;
    SelectionFields(policy, m, candidates, entries);
    SelectionIdsDistinct(policy, m, candidates, entries);
    DistinctIffSetSize(Map(BindingKey, d.Bindings()));
    SelectionMatchesPool(policy, m, candidates, entries);
    forall b | b in d.Bindings() ensures b.Id() in LastById(BindingKey, candidates) && LastById(BindingKey, candidates)[b.Id()] == b {
      assert b in candidates;
      LastByIdFinds(BindingKey, candidates, b);
    }
  }
}
