/** Composing a node's typed inputs through a per-run cache (execution/coordinator.py, inputs/models.py). */
module InputComposition {
  import opened Collections
  import opened Ordering
  import opened Topology
  import opened Issues
  import opened InputModel
  import opened PlanModel
  import opened PlanValidation
  import opened InputResolver
  import Json

  // ----- The resolver seen from a run -----

  datatype ResolverReply = Found(snapshot: InputSnapshot) | Fails(text: string)

  /** What the resolver answers to its k-th call of the run. */
  type ResolverScript = (nat, InputReference) -> ResolverReply

  /** Every snapshot handed out has passed the resolver's own integrity checks. */
  ghost predicate IntegrityChecked(script: ResolverScript, sizeOf: Json.Value -> int) {
    forall k, r :: script(k, r).Found? ==> Resolves(r, script(k, r).snapshot) && SelfConsistent(script(k, r).snapshot, sizeOf)
  }

  /** The in-memory resolver over a store that is not written to during the run. */
  function LocalScript(store: Store, sizeOf: Json.Value -> int): ResolverScript {
    (k, r) => if Serves(store, r, sizeOf) then Found(store[r.uri]) else Fails("integrity")
  }

  /** The in-memory resolver checks integrity whatever its store holds. */
  lemma LocalScriptIsChecked(store: Store, sizeOf: Json.Value -> int)
    ensures IntegrityChecked(LocalScript(store, sizeOf), sizeOf)
  {
    forall r | Serves(store, r, sizeOf) ensures Resolves(r, store[r.uri]) { ServedResolves(store, r, sizeOf); }
  }

  class ResolverPort {
    const script: ResolverScript
    var calls: seq<ReferenceId>

    constructor (script: ResolverScript)
      ensures this.script == script && calls == []
    {
      this.script, calls := script, [];
    }

    method Resolve(reference: InputReference) returns (reply: ResolverReply)
      modifies this
      ensures reply == script(|old(calls)|, reference) && calls == old(calls) + [reference.referenceId]
    {
      reply := script(|calls|, reference);
      calls := calls + [reference.referenceId];
    }
  }

  // ----- The caches of a run -----

  datatype ResolutionRecord = ResolutionRecord(nodeId: string, referenceId: ReferenceId, succeeded: bool, cacheHit: bool)

  /** The references of the records that were not served from the cache. */
  function Misses(records: seq<ResolutionRecord>): seq<ReferenceId> {
    if records == [] then []
    else Misses(records[..|records| - 1])
         + (if records[|records| - 1].cacheHit then [] else [records[|records| - 1].referenceId])
  }

  lemma MissesStep(records: seq<ResolutionRecord>, r: ResolutionRecord)
    ensures Misses(records + [r]) == Misses(records) + (if r.cacheHit then [] else [r.referenceId])
  {
    assert (records + [r])[..|records|] == records;
  }

  function RecordKey(r: ResolutionRecord): (string, ReferenceId) {
    (r.nodeId, r.referenceId)
  }

  function RecordReference(r: ResolutionRecord): ReferenceId {
    r.referenceId
  }

  /** The references asked for so far, in order and with repetitions. */
  function Uses(records: seq<ResolutionRecord>): seq<ReferenceId> {
    Map(RecordReference, records)
  }

  function KeysFor(n: ExecutionNode, ids: seq<ReferenceId>): seq<(string, ReferenceId)> {
    Map(id => (n.nodeId, id), ids)
  }

  type References = map<ReferenceId, InputReference>

  class InputCache {
    var resolved: map<ReferenceId, InputSnapshot>
    var requests: map<ReferenceId, AnalysisRequest>
    var records: seq<ResolutionRecord>
    // The references whose request payload has been read.
    ghost var readIds: seq<ReferenceId>

    constructor ()
      ensures resolved == map[] && requests == map[] && records == [] && readIds == []
    {
      resolved, requests, records, readIds := map[], map[], [], [];
    }
  }

  /** What a resolver consulted in the order `firsts` answers for `id`. */
  function Answer(refs: References, script: ResolverScript, firsts: seq<ReferenceId>, id: ReferenceId): ResolverReply
    requires id in firsts && id in refs
  {
    script(IndexOf(firsts, id), refs[id])
  }

  /** The resolver was called once for each cached snapshot, and each cached snapshot is what it answered. */
  ghost predicate SnapshotsCached(refs: References, script: ResolverScript, calls: seq<ReferenceId>,
                                  resolved: map<ReferenceId, InputSnapshot>)
  {
    && Distinct(calls) && Elements(calls) == resolved.Keys
    && forall id :: id in resolved ==> id in calls && id in refs && Answer(refs, script, calls, id) == Found(resolved[id])
  }

  /** Each cached request is what its cached snapshot reads as, and was read once. */
  ghost predicate RequestsCached(reader: RequestReader, resolved: map<ReferenceId, InputSnapshot>, requests: map<ReferenceId, AnalysisRequest>,
                                 readIds: seq<ReferenceId>)
  {
    && Distinct(readIds) && Elements(readIds) == requests.Keys
    && forall id :: id in requests ==> id in resolved && reader.Read(resolved[id].payload) == Some(requests[id])
  }

  /** References with the ids they are filed under. */
  ghost predicate Filed(refs: References) {
    forall id :: id in refs ==> refs[id].referenceId == id
  }

  /** The resolved pairs of the first reference ids of a node. */
  ghost predicate Pairs(refs: References, resolved: map<ReferenceId, InputSnapshot>, ids: seq<ReferenceId>, inputs: seq<ResolvedCellInput>) {
    && |inputs| == |ids|
    && forall i :: 0 <= i < |ids| ==>
         ids[i] in refs && ids[i] in resolved && inputs[i] == ResolvedCellInput(refs[ids[i]], resolved[ids[i]])
  }

  /** Resolver calls and records tell the same story: each reference is fetched once, when it is first used. */
  ghost predicate CallsRecorded(calls: seq<ReferenceId>, records: seq<ResolutionRecord>) {
    calls == Misses(records) == FirstUses(Uses(records))
  }

  lemma UsesStep(records: seq<ResolutionRecord>, r: ResolutionRecord)
    ensures Uses(records + [r]) == Uses(records) + [r.referenceId]
    ensures Uses(records + [r])[..|records|] == Uses(records)
  {
  }

  lemma FetchedOnce(refs: References, script: ResolverScript, calls: seq<ReferenceId>, resolved: map<ReferenceId, InputSnapshot>,
                    records: seq<ResolutionRecord>, id: ReferenceId, node: string)
    requires SnapshotsCached(refs, script, calls, resolved) && CallsRecorded(calls, records)
    requires id in refs && id !in resolved
    ensures CallsRecorded(calls + [id], records + [ResolutionRecord(node, id, false, false)])
    ensures CallsRecorded(calls + [id], records + [ResolutionRecord(node, id, true, false)])
    ensures Answer(refs, script, calls + [id], id) == script(|calls|, refs[id])
    ensures script(|calls|, refs[id]).Found? ==>
      SnapshotsCached(refs, script, calls + [id], resolved[id := script(|calls|, refs[id]).snapshot])
  {
    hide Misses, IndexOf, Distinct, Map;
    MissesStep(records, ResolutionRecord(node, id, false, false));
    MissesStep(records, ResolutionRecord(node, id, true, false));
    UsesStep(records, ResolutionRecord(node, id, false, false));
    UsesStep(records, ResolutionRecord(node, id, true, false));
    assert id !in Elements(calls);
    DistinctWithOneMore(calls, id);
    IndexOfLast(calls, id);
    forall x | x in calls ensures IndexOf(calls + [id], x) == IndexOf(calls, x) { IndexOfPrefix(calls, calls + [id], x); }
  }

  lemma PairsGrow(refs: References, resolved: map<ReferenceId, InputSnapshot>, resolved': map<ReferenceId, InputSnapshot>,
                  ids: seq<ReferenceId>, i: nat, inputs: seq<ResolvedCellInput>)
    requires i < |ids| && Pairs(refs, resolved, ids[..i], inputs)
    requires forall id :: id in resolved ==> id in resolved' && resolved'[id] == resolved[id]
    requires ids[i] in refs && ids[i] in resolved'
    ensures Pairs(refs, resolved', ids[..i + 1], inputs + [ResolvedCellInput(refs[ids[i]], resolved'[ids[i]])])
  {
  }

  lemma KeysGrow(n: ExecutionNode, ids: seq<ReferenceId>, i: nat, records: seq<ResolutionRecord>, r: ResolutionRecord,
                 before: seq<(string, ReferenceId)>)
    requires i < |ids| && Map(RecordKey, records) == before + KeysFor(n, ids[..i])
    requires r.nodeId == n.nodeId && r.referenceId == ids[i]
    ensures Map(RecordKey, records + [r]) == before + KeysFor(n, ids[..i + 1])
    ensures before + KeysFor(n, ids[..i + 1]) <= before + KeysFor(n, ids)
  {
  }

  // ----- What composing amounts to -----

  /** The resolved inputs of the listed references, or the first of them that the resolver fails on. */
  function Fetch(refs: References, script: ResolverScript, firsts: seq<ReferenceId>, ids: seq<ReferenceId>): Result<seq<ResolvedCellInput>, ReferenceId>
    requires forall id :: id in ids ==> id in refs && id in firsts
  {
    if ids == [] then Ok([])
    else
      var last := ids[|ids| - 1];
      assert forall id :: id in ids[..|ids| - 1] ==> id in ids;
      var before := Fetch(refs, script, firsts, ids[..|ids| - 1]);
      if before.Err? then before
      else
        match Answer(refs, script, firsts, last)
        case Found(snapshot) => Ok(before.value + [ResolvedCellInput(refs[last], snapshot)])
        case Fails(_) => Err(last)
  }

  /** Only the order up to the listed references matters. */
  lemma {:induction false} FetchStays(refs: References, script: ResolverScript, firsts: seq<ReferenceId>, firsts': seq<ReferenceId>, ids: seq<ReferenceId>)
    requires firsts <= firsts' && forall id :: id in ids ==> id in refs && id in firsts
    ensures forall id :: id in firsts ==> id in firsts'
    ensures Fetch(refs, script, firsts', ids) == Fetch(refs, script, firsts, ids)
  {
    hide IndexOf;
    if ids != [] {
      var n := |ids| - 1;
      assert forall id :: id in ids[..n] ==> id in ids;
      FetchStays(refs, script, firsts, firsts', ids[..n]);
      IndexOfPrefix(firsts, firsts', ids[n]);
    }
  }

  /** One more reference after some that were all found. */
  lemma FetchStep(refs: References, script: ResolverScript, firsts: seq<ReferenceId>, ids: seq<ReferenceId>, i: nat)
    requires i < |ids| && forall id :: id in ids ==> id in refs && id in firsts
    ensures (forall id :: id in ids[..i] ==> id in ids) && (forall id :: id in ids[..i + 1] ==> id in ids)
    ensures var before, after := Fetch(refs, script, firsts, ids[..i]), Fetch(refs, script, firsts, ids[..i + 1]);
      before.Ok? ==>
        match Answer(refs, script, firsts, ids[i])
        case Found(snapshot) => after == Ok(before.value + [ResolvedCellInput(refs[ids[i]], snapshot)])
        case Fails(_) => after == Err(ids[i])
  {
    assert ids[..i + 1][..i] == ids[..i];
  }

  lemma {:induction false} FetchFails(refs: References, script: ResolverScript, firsts: seq<ReferenceId>, ids: seq<ReferenceId>, i: nat)
    requires i <= |ids| && forall id :: id in ids ==> id in refs && id in firsts
    requires forall id :: id in ids[..i] ==> id in ids
    requires Fetch(refs, script, firsts, ids[..i]).Err?
    ensures Fetch(refs, script, firsts, ids) == Fetch(refs, script, firsts, ids[..i])
    decreases |ids|
  {
    if i == |ids| {
      assert ids[..i] == ids;
    } else {
      var n := |ids| - 1;
      assert ids[..n][..i] == ids[..i];
      FetchFails(refs, script, firsts, ids[..n], i);
    }
  }

  /** The references a failed fetch got to. */
  function Tried(ids: seq<ReferenceId>, fetched: Result<seq<ResolvedCellInput>, ReferenceId>): seq<ReferenceId> {
    if fetched.Err? && fetched.error in ids then ids[..IndexOf(ids, fetched.error) + 1] else ids
  }

  /**
   * Fetches or reuses the node's snapshots in declared order; the first failed fetch ends the node. Caching changes
   * nothing in the answer: it is what asking for every reference at its first use in the run gives.
   */
  method ResolveAll(node: ExecutionNode, refs: References, resolver: ResolverPort, cache: InputCache)
    returns (r: Result<seq<ResolvedCellInput>, ReferenceId>)
    requires Filed(refs) && Distinct(node.inputReferenceIds) && forall id :: id in node.inputReferenceIds ==> id in refs
    requires SnapshotsCached(refs, resolver.script, resolver.calls, cache.resolved)
    requires CallsRecorded(resolver.calls, cache.records)
    modifies resolver, cache`resolved, cache`records
    ensures CallsRecorded(resolver.calls, cache.records)
    ensures forall id :: id in old(cache.resolved) ==> id in cache.resolved && cache.resolved[id] == old(cache.resolved)[id]
    ensures forall id :: id in node.inputReferenceIds ==> id in FirstUses(old(Uses(cache.records)) + node.inputReferenceIds)
    ensures r == Fetch(refs, resolver.script, FirstUses(old(Uses(cache.records)) + node.inputReferenceIds), node.inputReferenceIds)
    ensures Map(RecordKey, cache.records) == old(Map(RecordKey, cache.records)) + KeysFor(node, Tried(node.inputReferenceIds, r))
    ensures Uses(cache.records) == old(Uses(cache.records)) + Tried(node.inputReferenceIds, r)
    ensures r.Ok? ==>
      && SnapshotsCached(refs, resolver.script, resolver.calls, cache.resolved)
      && Pairs(refs, cache.resolved, node.inputReferenceIds, r.value)
    ensures r.Err? ==> r.error in node.inputReferenceIds
  {
    hide *;
    var ids := node.inputReferenceIds;
    var inputs: seq<ResolvedCellInput> := [];
    ghost var before, uses := Map(RecordKey, cache.records), Uses(cache.records);
    ghost var firsts := FirstUses(uses + ids);
    NothingYet(node, refs, cache.resolved, before, uses);
    UsesKnown(uses, ids);
    FetchNothing(refs, resolver.script, firsts, ids);
    for i := 0 to |ids|
      invariant SnapshotsCached(refs, resolver.script, resolver.calls, cache.resolved)
      invariant CallsRecorded(resolver.calls, cache.records)
      invariant forall id :: id in old(cache.resolved) ==> id in cache.resolved && cache.resolved[id] == old(cache.resolved)[id]
      invariant Pairs(refs, cache.resolved, ids[..i], inputs)
      invariant Map(RecordKey, cache.records) == before + KeysFor(node, ids[..i])
      invariant Uses(cache.records) == uses + ids[..i]
      invariant Fetch(refs, resolver.script, firsts, ids[..i]) == Ok(inputs)
    {
      var id := ids[i];
      var reference := refs[id];
      var hit := id in cache.resolved;
      ghost var resolved := cache.resolved;
      FetchStep(refs, resolver.script, firsts, ids, i);
      if !hit {
        FetchedOnce(refs, resolver.script, resolver.calls, cache.resolved, cache.records, id, node.nodeId);
        ghost var calls := resolver.calls;
        var reply := resolver.Resolve(reference);
        assert resolver.calls == calls + [id] by { FiledAt(refs, id); }
        UsesStep(cache.records, ResolutionRecord(node.nodeId, id, !reply.Fails?, false));
        SliceStep(ids, i);
        AnswerSoFar(refs, resolver.script, calls + [id], cache.records + [ResolutionRecord(node.nodeId, id, !reply.Fails?, false)], uses, ids, i, id);
        if reply.Fails? {
          KeysGrow(node, ids, i, cache.records, ResolutionRecord(node.nodeId, id, false, false), before);
          cache.records := cache.records + [ResolutionRecord(node.nodeId, id, false, false)];
          FetchFails(refs, resolver.script, firsts, ids, i + 1);
          FirstAt(ids, i);
          TriedUpTo(ids, i);
          return Err(id);
        }
        cache.resolved := cache.resolved[id := reply.snapshot];
      } else {
        HitRecorded(refs, resolver.script, resolver.calls, cache.resolved, cache.records, id, node.nodeId);
        UsesStep(cache.records, ResolutionRecord(node.nodeId, id, true, true));
        SliceStep(ids, i);
        AnswerSoFar(refs, resolver.script, resolver.calls, cache.records + [ResolutionRecord(node.nodeId, id, true, true)], uses, ids, i, id);
      }
      KeysGrow(node, ids, i, cache.records, ResolutionRecord(node.nodeId, id, true, hit), before);
      PairsGrow(refs, resolved, cache.resolved, ids, i, inputs);
      cache.records := cache.records + [ResolutionRecord(node.nodeId, id, true, hit)];
      inputs := inputs + [ResolvedCellInput(reference, cache.resolved[id])];
    }
    assert ids[..|ids|] == ids;
    TriedAll(ids, inputs);
    return Ok(inputs);
  }

  lemma FiledAt(refs: References, id: ReferenceId)
    requires Filed(refs) && id in refs
    ensures refs[id].referenceId == id
  {
  }

  lemma SliceStep(ids: seq<ReferenceId>, i: nat)
    requires i < |ids|
    ensures ids[..i] + [ids[i]] == ids[..i + 1]
  {
  }

  lemma UsesKnown(uses: seq<ReferenceId>, ids: seq<ReferenceId>)
    ensures forall id :: id in ids ==> id in FirstUses(uses + ids)
  {
    FirstUsesAre(uses + ids);
  }

  lemma FetchNothing(refs: References, script: ResolverScript, firsts: seq<ReferenceId>, ids: seq<ReferenceId>)
    ensures ids[..0] == [] && Fetch(refs, script, firsts, []) == Ok([])
  {
  }

  lemma FirstAt(ids: seq<ReferenceId>, i: nat)
    requires Distinct(ids) && i < |ids|
    ensures IndexOf(ids, ids[i]) == i
  {
  }

  lemma TriedUpTo(ids: seq<ReferenceId>, i: nat)
    requires i < |ids| && IndexOf(ids, ids[i]) == i
    ensures Tried(ids, Err(ids[i])) == ids[..i + 1]
  {
  }

  lemma TriedAll(ids: seq<ReferenceId>, inputs: seq<ResolvedCellInput>)
    ensures Tried(ids, Ok(inputs)) == ids
  {
  }

  /** The calls made so far fix the answer for every reference used so far. */
  lemma AnswerSoFar(refs: References, script: ResolverScript, calls: seq<ReferenceId>, records: seq<ResolutionRecord>,
                    uses: seq<ReferenceId>, ids: seq<ReferenceId>, i: nat, id: ReferenceId)
    requires i < |ids| && CallsRecorded(calls, records) && Uses(records) == uses + ids[..i + 1] && id in calls && id in refs
    ensures id in FirstUses(uses + ids) && Answer(refs, script, FirstUses(uses + ids), id) == Answer(refs, script, calls, id)
  {
    hide Misses, IndexOf, FirstUses;
    assert uses + ids == uses + ids[..i + 1] + ids[i + 1..];
    FirstUsesGrow(uses + ids[..i + 1], ids[i + 1..]);
    IndexOfPrefix(calls, FirstUses(uses + ids), id);
  }

  lemma HitRecorded(refs: References, script: ResolverScript, calls: seq<ReferenceId>, resolved: map<ReferenceId, InputSnapshot>,
                    records: seq<ResolutionRecord>, id: ReferenceId, node: string)
    requires SnapshotsCached(refs, script, calls, resolved) && CallsRecorded(calls, records) && id in resolved
    ensures CallsRecorded(calls, records + [ResolutionRecord(node, id, true, true)])
    ensures id in calls && id in refs && Answer(refs, script, calls, id) == Found(resolved[id])
  {
    hide IndexOf;
    MissesStep(records, ResolutionRecord(node, id, true, true));
    UsesStep(records, ResolutionRecord(node, id, true, true));
  }

  lemma NothingYet(node: ExecutionNode, refs: References, resolved: map<ReferenceId, InputSnapshot>, before: seq<(string, ReferenceId)>,
                   uses: seq<ReferenceId>)
    ensures Pairs(refs, resolved, node.inputReferenceIds[..0], [])
    ensures before == before + KeysFor(node, node.inputReferenceIds[..0]) && uses == uses + node.inputReferenceIds[..0]
  {
  }

  // ----- The bundle -----

  datatype CompositionError =
    | Unresolved(referenceId: ReferenceId) | RequestCount(count: nat) | Unreadable(referenceId: ReferenceId) | Rejected(nodeId: string)

  /** A bundle that passed its own checks and whose request was read from its one request snapshot. */
  ghost predicate Composed(n: ExecutionNode, reader: RequestReader, b: CellInputBundle) {
    && BundleAdmissible(b) && b.nodeId == n.nodeId && b.requiredKinds == n.requiredInputKinds
    && |RequestInputs(b.inputs)| == 1
    && reader.Read(RequestInputs(b.inputs)[0].snapshot.payload) == Some(b.request)
  }

  /** The bundle made of a node's resolved inputs, or the first reason why there is none. */
  function BundleFor(n: ExecutionNode, reader: RequestReader, inputs: seq<ResolvedCellInput>): Result<CellInputBundle, CompositionError> {
    var requests := RequestInputs(inputs);
    if |requests| != 1 then Err(RequestCount(|requests|))
    else
      match reader.Read(requests[0].snapshot.payload)
      case None => Err(Unreadable(requests[0].reference.referenceId))
      case Some(request) =>
        var b := CellInputBundle(n.nodeId, request, inputs, n.requiredInputKinds);
        if BundleAdmissible(b) then Ok(b) else Err(Rejected(n.nodeId))
  }

  /** What composing a node's inputs gives when references are fetched in the order `firsts`. */
  function Composing(n: ExecutionNode, refs: References, script: ResolverScript, firsts: seq<ReferenceId>, reader: RequestReader): Result<CellInputBundle, CompositionError>
    requires forall id :: id in n.inputReferenceIds ==> id in refs && id in firsts
  {
    match Fetch(refs, script, firsts, n.inputReferenceIds)
    case Err(id) => Err(Unresolved(id))
    case Ok(inputs) => BundleFor(n, reader, inputs)
  }

  /** A composed bundle passed its own checks, holds the node's references with the resolver's answers, and its request was read from them. */
  lemma ComposingMeaning(n: ExecutionNode, refs: References, script: ResolverScript, firsts: seq<ReferenceId>, reader: RequestReader)
    requires forall id :: id in n.inputReferenceIds ==> id in refs && id in firsts
    requires Composing(n, refs, script, firsts, reader).Ok?
    ensures var b := Composing(n, refs, script, firsts, reader).value;
      && Composed(n, reader, b) && |b.inputs| == |n.inputReferenceIds|
      && forall i :: 0 <= i < |b.inputs| ==>
           && n.inputReferenceIds[i] in refs && n.inputReferenceIds[i] in firsts
           && b.inputs[i].reference == refs[n.inputReferenceIds[i]]
           && Answer(refs, script, firsts, n.inputReferenceIds[i]) == Found(b.inputs[i].snapshot)
  {
    hide RequestReader.Read, BundleAdmissible, Answer;
    FetchMeaning(refs, script, firsts, n.inputReferenceIds);
  }

  lemma {:induction false} FetchMeaning(refs: References, script: ResolverScript, firsts: seq<ReferenceId>, ids: seq<ReferenceId>)
    requires forall id :: id in ids ==> id in refs && id in firsts
    ensures forall i :: 0 <= i < |ids| ==> ids[i] in refs && ids[i] in firsts
    ensures Fetch(refs, script, firsts, ids).Ok? <==> forall i :: 0 <= i < |ids| ==> Answer(refs, script, firsts, ids[i]).Found?
    ensures Fetch(refs, script, firsts, ids).Ok? ==>
      var inputs := Fetch(refs, script, firsts, ids).value;
      && |inputs| == |ids|
      && forall i :: 0 <= i < |ids| ==> inputs[i].reference == refs[ids[i]] && Answer(refs, script, firsts, ids[i]) == Found(inputs[i].snapshot)
    ensures Fetch(refs, script, firsts, ids).Err? ==>
      && Fetch(refs, script, firsts, ids).error in ids
      && Answer(refs, script, firsts, Fetch(refs, script, firsts, ids).error).Fails?
  {
    hide Answer;
    if ids != [] {
      var n := |ids| - 1;
      var front := ids[..n];
      assert forall id :: id in front ==> id in ids;
      FetchMeaning(refs, script, firsts, front);
      assert forall i :: 0 <= i < n ==> front[i] == ids[i];
      if Fetch(refs, script, firsts, front).Err? {
        var i :| 0 <= i < n && !Answer(refs, script, firsts, front[i]).Found?;
        assert ids[i] == front[i];
      }
    }
  }

  lemma {:induction false} PresentReferencesAt(ids: seq<ReferenceId>, refs: References)
    requires forall id :: id in ids ==> id in refs
    ensures |PresentReferences(ids, refs)| == |ids|
    ensures forall i :: 0 <= i < |ids| ==> PresentReferences(ids, refs)[i] == refs[ids[i]]
  {
    if ids != [] {
      var n := |ids| - 1;
      assert ids == ids[..n] + [ids[n]];
      PresentReferencesAt(ids[..n], refs);
    }
  }

  lemma {:induction false} RequestInputsSize(inputs: seq<ResolvedCellInput>)
    ensures |RequestInputs(inputs)| == multiset(KindsOf(inputs))[ANALYSIS_REQUEST]
  {
    if inputs != [] {
      var n := |inputs| - 1;
      RequestInputsSize(inputs[..n]);
      AppendCount(KindsOf(inputs[..n]), inputs[n].snapshot.inputKind, ANALYSIS_REQUEST);
    }
  }

  /** Found inputs as the pairs of a table holding the answers. */
  lemma FetchedPairs(refs: References, script: ResolverScript, firsts: seq<ReferenceId>, ids: seq<ReferenceId>, resolved: map<ReferenceId, InputSnapshot>)
    requires forall id :: id in ids ==> id in refs && id in firsts
    requires forall id :: id in ids ==> id in resolved && Answer(refs, script, firsts, id) == Found(resolved[id])
    ensures Fetch(refs, script, firsts, ids).Ok? && Pairs(refs, resolved, ids, Fetch(refs, script, firsts, ids).value)
  {
    hide Answer;
    FetchMeaning(refs, script, firsts, ids);
  }

  lemma PairKinds(n: ExecutionNode, plan: ExecutionPlan, resolved: map<ReferenceId, InputSnapshot>, inputs: seq<ResolvedCellInput>)
    requires NodeWellFormed(n, plan) && Pairs(PlanReferences(plan), resolved, n.inputReferenceIds, inputs)
    requires forall x :: x in inputs ==> Resolves(x.reference, x.snapshot)
    ensures KindsOf(inputs) == n.requiredInputKinds && inputs != []
    ensures Distinct(n.requiredInputKinds) && ANALYSIS_REQUEST in n.requiredInputKinds
  {
    hide FirstById;
    var ids, refs := n.inputReferenceIds, PlanReferences(plan);
    PresentReferencesAt(ids, refs);
    assert ReferencedKinds(PresentReferences(ids, refs)) == n.requiredInputKinds;
    assert forall i :: 0 <= i < |ids| ==> inputs[i] in inputs;
    assert forall i :: 0 <= i < |ids| ==> KindsOf(inputs)[i] == ReferencedKinds(PresentReferences(ids, refs))[i];
  }

  lemma OneRequestInput(n: ExecutionNode, inputs: seq<ResolvedCellInput>)
    requires KindsOf(inputs) == n.requiredInputKinds && Distinct(n.requiredInputKinds) && ANALYSIS_REQUEST in n.requiredInputKinds
    ensures |RequestInputs(inputs)| == 1 && RequestInputs(inputs)[0] in inputs
  {
    RequestInputsSize(inputs);
    DistinctCount(n.requiredInputKinds, ANALYSIS_REQUEST);
    assert RequestInputs(inputs)[0] in RequestInputs(inputs);
  }

  lemma PairIds(refs: References, resolved: map<ReferenceId, InputSnapshot>, ids: seq<ReferenceId>, inputs: seq<ResolvedCellInput>)
    requires Filed(refs) && Distinct(ids) && Pairs(refs, resolved, ids, inputs)
    ensures |ReferenceIdsOf(inputs)| == |Elements(ReferenceIdsOf(inputs))|
  {
    assert ReferenceIdsOf(inputs) == ids;
    DistinctIffSetSize(ids);
  }

  /** An intact request snapshot reads back with the scope it is filed under. */
  lemma ReadScope(s: InputSnapshot, sizeOf: Json.Value -> int, reader: RequestReader)
    requires SelfConsistent(s, sizeOf) && s.inputKind == ANALYSIS_REQUEST && reader.Read(s.payload).Some?
    ensures reader.Read(s.payload).value.target == s.target && reader.Read(s.payload).value.horizon == s.horizon
  {
  }

  /** The scope shared by the references of a validated plan. */
  lemma PairScope(plan: ExecutionPlan, resolved: map<ReferenceId, InputSnapshot>, ids: seq<ReferenceId>, inputs: seq<ResolvedCellInput>)
    requires PlanWellFormed(plan) && Pairs(PlanReferences(plan), resolved, ids, inputs)
    requires forall x :: x in inputs ==> Resolves(x.reference, x.snapshot)
    ensures forall x :: x in inputs ==> x.snapshot.target == plan.target && x.snapshot.horizon == plan.horizon
  {
    hide NodeWellFormed, RootedAcyclic, UsedBindings, UsedReferences;
    forall x | x in inputs ensures x.snapshot.target == plan.target && x.snapshot.horizon == plan.horizon {
      var i :| 0 <= i < |inputs| && inputs[i] == x;
      assert x.reference in plan.inputReferences;
    }
  }

  /**
   * Validated plans compose: for a well-formed node, integrity-checked snapshots and a request read from the request
   * snapshot, every check of the bundle's constructor passes, except that the node id may be blank.
   */
  lemma BundleConstructs(n: ExecutionNode, plan: ExecutionPlan, resolved: map<ReferenceId, InputSnapshot>, inputs: seq<ResolvedCellInput>,
                         sizeOf: Json.Value -> int, reader: RequestReader)
    requires PlanWellFormed(plan) && n in plan.nodes && Pairs(PlanReferences(plan), resolved, n.inputReferenceIds, inputs)
    requires forall x :: x in inputs ==> Resolves(x.reference, x.snapshot) && SelfConsistent(x.snapshot, sizeOf)
    ensures |RequestInputs(inputs)| == 1
    ensures var request := reader.Read(RequestInputs(inputs)[0].snapshot.payload);
      request.Some? ==>
        (BundleAdmissible(CellInputBundle(n.nodeId, request.value, inputs, n.requiredInputKinds)) <==> !Blank(n.nodeId))
  {
    hide SelfConsistent, Resolves, Pairs, FirstById, KindsOf, BundleAdmissible, RequestReader.Read, Filter;
    InputFacts(n, plan, resolved, inputs);
    var x := RequestInputs(inputs)[0];
    if reader.Read(x.snapshot.payload).Some? {
      ReadScope(x.snapshot, sizeOf, reader);
      AdmissibleIff(CellInputBundle(n.nodeId, reader.Read(x.snapshot.payload).value, inputs, n.requiredInputKinds));
    }
  }

  /** What holds of the inputs alone. */
  lemma InputFacts(n: ExecutionNode, plan: ExecutionPlan, resolved: map<ReferenceId, InputSnapshot>, inputs: seq<ResolvedCellInput>)
    requires PlanWellFormed(plan) && n in plan.nodes && Pairs(PlanReferences(plan), resolved, n.inputReferenceIds, inputs)
    requires forall x :: x in inputs ==> Resolves(x.reference, x.snapshot)
    ensures |RequestInputs(inputs)| == 1 && RequestInputs(inputs)[0] in inputs
    ensures RequestInputs(inputs)[0].snapshot.inputKind == ANALYSIS_REQUEST
    ensures inputs != [] && KindsOf(inputs) == n.requiredInputKinds
    ensures |n.requiredInputKinds| == |Elements(n.requiredInputKinds)| && ANALYSIS_REQUEST in n.requiredInputKinds
    ensures |ReferenceIdsOf(inputs)| == |Elements(ReferenceIdsOf(inputs))|
    ensures forall x :: x in inputs ==> x.snapshot.target == plan.target && x.snapshot.horizon == plan.horizon
  {
    NodeOfPlan(n, plan);
    hide PlanWellFormed, NodeWellFormed, Resolves, Pairs, FirstById, KindsOf, Filter;
    PairKinds(n, plan, resolved, inputs);
    OneRequestInput(n, inputs);
    PairIds(PlanReferences(plan), resolved, n.inputReferenceIds, inputs);
    DistinctIffSetSize(n.requiredInputKinds);
    PairScope(plan, resolved, n.inputReferenceIds, inputs);
    assert RequestInputs(inputs)[0] in RequestInputs(inputs);
  }

  lemma AdmissibleIff(b: CellInputBundle)
    requires forall x :: x in b.inputs ==> Resolves(x.reference, x.snapshot)
    requires |RequestInputs(b.inputs)| == 1 && b.inputs != [] && KindsOf(b.inputs) == b.requiredKinds
    requires |b.requiredKinds| == |Elements(b.requiredKinds)| && ANALYSIS_REQUEST in b.requiredKinds
    requires |ReferenceIdsOf(b.inputs)| == |Elements(ReferenceIdsOf(b.inputs))|
    requires forall x :: x in b.inputs ==> x.snapshot.target == b.request.target && x.snapshot.horizon == b.request.horizon
    ensures BundleAdmissible(b) <==> !Blank(b.nodeId)
  {
    hide Resolves, Filter, Map, Blank;
  }

  lemma NodeOfPlan(n: ExecutionNode, plan: ExecutionPlan)
    requires PlanWellFormed(plan) && n in plan.nodes
    ensures NodeWellFormed(n, plan) && Filed(PlanReferences(plan)) && Distinct(n.inputReferenceIds)
    ensures forall id :: id in n.inputReferenceIds ==> id in PlanReferences(plan)
  {
    hide RootedAcyclic, UsedBindings, UsedReferences, KindsAgree, BindingFits;
  }

  /** Reads the node's request; a reference whose request has been read before is not read again. */
  method MaterializeRequest(input: ResolvedCellInput, cache: InputCache, reader: RequestReader) returns (request: Option<AnalysisRequest>)
    requires RequestsCached(reader, cache.resolved, cache.requests, cache.readIds)
    requires input.reference.referenceId in cache.resolved && cache.resolved[input.reference.referenceId] == input.snapshot
    modifies cache`requests, cache`readIds
    ensures request == reader.Read(input.snapshot.payload)
    ensures request.Some? ==> RequestsCached(reader, cache.resolved, cache.requests, cache.readIds)
    ensures cache.readIds == old(cache.readIds) + if input.reference.referenceId in old(cache.requests) then [] else [input.reference.referenceId]
  {
    var id := input.reference.referenceId;
    if id !in cache.requests {
      request := reader.Read(input.snapshot.payload);
      cache.readIds := cache.readIds + [id];
      if request.None? {
        return;
      }
      assert id !in Elements(old(cache.readIds));
      DistinctWithOneMore(old(cache.readIds), id);
      cache.requests := cache.requests[id := request.value];
    }
    request := Some(cache.requests[id]);
  }

  /** Where a request input comes from. */
  lemma RequestInputPlace(refs: References, resolved: map<ReferenceId, InputSnapshot>, ids: seq<ReferenceId>, inputs: seq<ResolvedCellInput>)
    requires Filed(refs) && Pairs(refs, resolved, ids, inputs) && RequestInputs(inputs) != []
    ensures var x := RequestInputs(inputs)[0];
      x.reference.referenceId in ids && x.reference.referenceId in resolved && resolved[x.reference.referenceId] == x.snapshot
  {
    var x := RequestInputs(inputs)[0];
    assert x in RequestInputs(inputs);
    var i :| 0 <= i < |inputs| && inputs[i] == x;
  }

  /** The node's bundle: the caches make no difference to what composing amounts to. */
  method ComposeCellInputs(node: ExecutionNode, ghost plan: ExecutionPlan, refs: References, resolver: ResolverPort, cache: InputCache, reader: RequestReader)
    returns (r: Result<CellInputBundle, CompositionError>)
    requires PlanWellFormed(plan) && node in plan.nodes && refs == PlanReferences(plan)
    requires SnapshotsCached(refs, resolver.script, resolver.calls, cache.resolved)
    requires RequestsCached(reader, cache.resolved, cache.requests, cache.readIds) && CallsRecorded(resolver.calls, cache.records)
    modifies resolver, cache
    ensures forall id :: id in node.inputReferenceIds ==> id in refs && id in FirstUses(old(Uses(cache.records)) + node.inputReferenceIds)
    ensures r == Composing(node, refs, resolver.script, FirstUses(old(Uses(cache.records)) + node.inputReferenceIds), reader)
    ensures CallsRecorded(resolver.calls, cache.records)
    ensures r.Ok? ==>
      && SnapshotsCached(refs, resolver.script, resolver.calls, cache.resolved)
      && RequestsCached(reader, cache.resolved, cache.requests, cache.readIds)
    ensures var tried :=
        Tried(node.inputReferenceIds, Fetch(refs, resolver.script, FirstUses(old(Uses(cache.records)) + node.inputReferenceIds), node.inputReferenceIds));
      && Map(RecordKey, cache.records) == old(Map(RecordKey, cache.records)) + KeysFor(node, tried)
      && Uses(cache.records) == old(Uses(cache.records)) + tried
  {
    hide *;
    NodeOfPlan(node, plan);
    ghost var firsts := FirstUses(Uses(cache.records) + node.inputReferenceIds);
    var resolution := ResolveAll(node, refs, resolver, cache);
    ComposingParts(node, refs, resolver.script, firsts, reader);
    if resolution.Err? {
      return Err(Unresolved(resolution.error));
    }
    CacheGrew(reader, old(cache.resolved), cache.resolved, cache.requests, cache.readIds);
    r := BuildBundle(node, refs, resolution.value, cache, reader);
  }

  lemma ComposingParts(n: ExecutionNode, refs: References, script: ResolverScript, firsts: seq<ReferenceId>, reader: RequestReader)
    requires forall id :: id in n.inputReferenceIds ==> id in refs && id in firsts
    ensures Composing(n, refs, script, firsts, reader) ==
      match Fetch(refs, script, firsts, n.inputReferenceIds)
      case Err(id) => Err(Unresolved(id))
      case Ok(inputs) => BundleFor(n, reader, inputs)
  {
  }

  /** From the resolved pairs to the checked bundle, reading the request through the cache. */
  method BuildBundle(node: ExecutionNode, ghost refs: References, inputs: seq<ResolvedCellInput>, cache: InputCache, reader: RequestReader)
    returns (r: Result<CellInputBundle, CompositionError>)
    requires Filed(refs) && Pairs(refs, cache.resolved, node.inputReferenceIds, inputs)
    requires RequestsCached(reader, cache.resolved, cache.requests, cache.readIds)
    modifies cache`requests, cache`readIds
    ensures r == BundleFor(node, reader, inputs)
    ensures r.Ok? ==> RequestsCached(reader, cache.resolved, cache.requests, cache.readIds)
  {
    hide Pairs, RequestsCached, RequestReader.Read, RequestInputs, BundleAdmissible, Filed;
    var requestInputs := RequestInputs(inputs);
    if |requestInputs| != 1 {
      return Err(RequestCount(|requestInputs|));
    }
    RequestInputPlace(refs, cache.resolved, node.inputReferenceIds, inputs);
    var request := MaterializeRequest(requestInputs[0], cache, reader);
    if request.None? {
      return Err(Unreadable(requestInputs[0].reference.referenceId));
    }
    var bundle := CellInputBundle(node.nodeId, request.value, inputs, node.requiredInputKinds);
    if !BundleAdmissible(bundle) {
      return Err(Rejected(node.nodeId));
    }
    return Ok(bundle);
  }

  /**
   * With integrity-checked resolution a node of a validated plan composes exactly when every fetch succeeds, the request
   * payload reads and the node id is not blank. Each failure names the first of these that does not hold; a wrong number
   * of requests never occurs.
   */
  lemma ComposesIff(n: ExecutionNode, plan: ExecutionPlan, script: ResolverScript, firsts: seq<ReferenceId>, reader: RequestReader,
                    sizeOf: Json.Value -> int)
    requires PlanWellFormed(plan) && n in plan.nodes && IntegrityChecked(script, sizeOf)
    requires forall id :: id in n.inputReferenceIds ==> id in PlanReferences(plan) && id in firsts
    ensures var r, fetched := Composing(n, PlanReferences(plan), script, firsts, reader), Fetch(PlanReferences(plan), script, firsts, n.inputReferenceIds);
      && (fetched.Err? ==> r == Err(Unresolved(fetched.error)))
      && (fetched.Ok? ==>
            && |RequestInputs(fetched.value)| == 1
            && var request := RequestInputs(fetched.value)[0];
               if reader.Read(request.snapshot.payload).None? then r == Err(Unreadable(request.reference.referenceId))
               else if Blank(n.nodeId) then r == Err(Rejected(n.nodeId))
               else r.Ok?)
  {
    hide SelfConsistent, Resolves, FirstById, KindsOf, BundleAdmissible, RequestReader.Read, RequestInputs, PlanWellFormed, Blank, IndexOf, IntegrityChecked;
    var refs, ids := PlanReferences(plan), n.inputReferenceIds;
    FetchMeaning(refs, script, firsts, ids);
    var fetched := Fetch(refs, script, firsts, ids);
    if fetched.Ok? {
      var resolved := map id | id in ids :: Answered(refs, script, firsts, id);
      forall id | id in ids ensures Answer(refs, script, firsts, id) == Found(resolved[id]) {
        var i :| 0 <= i < |ids| && ids[i] == id;
      }
      FetchedPairs(refs, script, firsts, ids, resolved);
      FetchedChecked(refs, script, firsts, ids, fetched.value, sizeOf);
      BundleConstructs(n, plan, resolved, fetched.value, sizeOf, reader);
    }
  }

  function Answered(refs: References, script: ResolverScript, firsts: seq<ReferenceId>, id: ReferenceId): InputSnapshot
    requires id in firsts && id in refs && Answer(refs, script, firsts, id).Found?
  {
    Answer(refs, script, firsts, id).snapshot
  }

  lemma FetchedChecked(refs: References, script: ResolverScript, firsts: seq<ReferenceId>, ids: seq<ReferenceId>, inputs: seq<ResolvedCellInput>,
                       sizeOf: Json.Value -> int)
    requires forall id :: id in ids ==> id in refs && id in firsts
    requires IntegrityChecked(script, sizeOf) && Fetch(refs, script, firsts, ids) == Ok(inputs)
    ensures forall x :: x in inputs ==> Resolves(x.reference, x.snapshot) && SelfConsistent(x.snapshot, sizeOf)
  {
    hide Resolves, SelfConsistent, IndexOf, Fetch;
    FetchMeaning(refs, script, firsts, ids);
    forall x | x in inputs ensures Resolves(x.reference, x.snapshot) && SelfConsistent(x.snapshot, sizeOf) {
      var i :| 0 <= i < |inputs| && inputs[i] == x;
      assert script(IndexOf(firsts, ids[i]), refs[ids[i]]) == Found(x.snapshot);
    }
  }

  lemma CacheGrew(reader: RequestReader, resolved: map<ReferenceId, InputSnapshot>, resolved': map<ReferenceId, InputSnapshot>,
                  requests: map<ReferenceId, AnalysisRequest>, readIds: seq<ReferenceId>)
    requires RequestsCached(reader, resolved, requests, readIds)
    requires forall id :: id in resolved ==> id in resolved' && resolved'[id] == resolved[id]
    ensures RequestsCached(reader, resolved', requests, readIds)
  {
    hide RequestReader.Read;
  }

  // ----- A validated plan that cannot compose -----

  function BlankBinding(): ServiceBinding {
    ServiceBinding("i", "c", "s", "r", "v", 0, [], None, ResourceHints(false, 1, 0))
  }

  function BlankPayload(): Payload {
    map["target" := Json.Text("t"), "horizon" := Json.Text("1h")]
  }

  /** An intact request snapshot; `size` is the length of its canonical payload. */
  function BlankSnapshot(size: int): InputSnapshot {
    var payload := Json.Dict(BlankPayload());
    var identity := Identity(ANALYSIS_REQUEST, "t", "1h", DigestOf(payload), "v", "s");
    InputSnapshot(SnapshotIdOf(identity), ANALYSIS_REQUEST, "t", "1h", DigestOf(payload), "v", "s", payload, size, SNAPSHOT_SCHEMA)
  }

  function BlankReference(size: int): (r: InputReference)
    ensures r.inputKind == ANALYSIS_REQUEST && r.target == "t" && r.horizon == "1h"
  {
    OwnReference(BlankSnapshot(size))
  }

  lemma BlankSnapshotIsIntact(sizeOf: Json.Value -> int)
    ensures SelfConsistent(BlankSnapshot(sizeOf(Json.Dict(BlankPayload()))), sizeOf)
  {
    assert !IsSpace("t"[0]) && !IsSpace("1h"[0]) && !IsSpace("v"[0]) && !IsSpace("s"[0]);
  }

  function BlankNode(size: int): ExecutionNode {
    ExecutionNode(" ", "c", "v", Root, BlankBinding().Id(), [], [], [BlankReference(size).referenceId], [ANALYSIS_REQUEST], ResourceHints(false, 1, 0))
  }

  function BlankPlan(size: int): ExecutionPlan {
    ExecutionPlan("p", "t", "1h", " ", [BlankNode(size)], [BlankReference(size)], [BlankBinding()])
  }

  lemma LoneNodeRooted(g: DependencyMap, n: string)
    requires g == map[n := []]
    ensures RootedAcyclic(g, n)
  {
    forall c | IsChain(g, c) ensures |c| == 1 {
      assert |c| > 1 ==> DependsOn(g, c[0], c[1]);
    }
    ReachesSelf(g, n);
  }

  lemma LoneTable<K, T>(id: T -> K, x: T)
    ensures FirstById(id, [x]) == map[id(x) := x]
    ensures Distinct(Map(id, [x]))
  {
    assert FirstById(id, [x][..0]) == map[];
  }

  lemma BlankTables(size: int)
    ensures PlanNodes(BlankPlan(size)) == map[" " := BlankNode(size)]
    ensures PlanBindings(BlankPlan(size)) == map[BlankBinding().Id() := BlankBinding()]
    ensures PlanReferences(BlankPlan(size)) == map[BlankReference(size).referenceId := BlankReference(size)]
    ensures Distinct(Map(NodeKey, BlankPlan(size).nodes))
    ensures Distinct(Map(BindingKey, BlankPlan(size).serviceBindings))
    ensures Distinct(Map(ReferenceKey, BlankPlan(size).inputReferences))
  {
    hide FirstById, Map, Distinct, ServiceBinding.Id;
    LoneTable(NodeKey, BlankNode(size));
    LoneTable(BindingKey, BlankBinding());
    LoneTable(ReferenceKey, BlankReference(size));
  }

  lemma BlankKinds(size: int)
    ensures PresentReferences(BlankNode(size).inputReferenceIds, PlanReferences(BlankPlan(size))) == [BlankReference(size)]
    ensures KindsAgree(BlankNode(size), [BlankReference(size)])
  {
    BlankTables(size);
    hide PlanReferences, BlankPlan, BlankSnapshot, ServiceBinding.Id;
    PresentReferencesAt(BlankNode(size).inputReferenceIds, PlanReferences(BlankPlan(size)));
    assert ReferencedKinds([BlankReference(size)]) == [ANALYSIS_REQUEST];
  }

  lemma BlankNodeWellFormed(size: int)
    ensures NodeWellFormed(BlankNode(size), BlankPlan(size))
  {
    BlankTables(size);
    BlankKinds(size);
    hide PlanNodes, PlanBindings, PlanReferences, BlankPlan, BlankReference, ServiceBinding.Id, KindsAgree, PresentReferences;
  }

  lemma BlankUsage(size: int)
    ensures BlankBinding().Id() in UsedBindings(BlankPlan(size)) && BlankReference(size).referenceId in UsedReferences(BlankPlan(size))
  {
    var n := BlankNode(size);
    assert n in BlankPlan(size).nodes && n.bindingId in [n.bindingId] + n.fallbackBindingIds;
    assert BlankReference(size).referenceId in n.inputReferenceIds;
  }

  /** Plan validation does not look at how a node id is spelled: this plan is accepted and its only node has a blank id. */
  lemma BlankPlanIsAccepted(size: int)
    ensures PlanWellFormed(BlankPlan(size)) && BlankPlan(size).nodes == [BlankNode(size)] && Blank(BlankNode(size).nodeId)
  {
    hide PlanNodes, PlanBindings, PlanReferences, UsedBindings, UsedReferences, NodeWellFormed, RootedAcyclic, Distinct, Map, ServiceBinding.Id;
    BlankTables(size);
    BlankNodeWellFormed(size);
    BlankUsage(size);
    LoneNodeRooted(PlanDependencies(PlanNodes(BlankPlan(size))), " ");
  }

  /** The in-memory resolver over a store holding that snapshot alone. */
  function BlankScript(sizeOf: Json.Value -> int): ResolverScript {
    var size := sizeOf(Json.Dict(BlankPayload()));
    LocalScript(map[BlankReference(size).uri := BlankSnapshot(size)], sizeOf)
  }

  lemma BlankAnswer(sizeOf: Json.Value -> int)
    ensures IntegrityChecked(BlankScript(sizeOf), sizeOf)
    ensures var size := sizeOf(Json.Dict(BlankPayload())); BlankScript(sizeOf)(0, BlankReference(size)) == Found(BlankSnapshot(size))
  {
    hide SelfConsistent, IntegrityChecked, BlankSnapshot, BlankPayload;
    var size := sizeOf(Json.Dict(BlankPayload()));
    var store := map[BlankReference(size).uri := BlankSnapshot(size)];
    LocalScriptIsChecked(store, sizeOf);
    BlankSnapshotIsIntact(sizeOf);
    assert Serves(store, BlankReference(size), sizeOf);
  }

  lemma LoneFetch(refs: References, script: ResolverScript, r: InputReference, s: InputSnapshot)
    requires r.referenceId in refs && refs[r.referenceId] == r && script(0, r) == Found(s)
    ensures Fetch(refs, script, [r.referenceId], [r.referenceId]) == Ok([ResolvedCellInput(r, s)])
  {
    var ids := [r.referenceId];
    assert ids[..|ids| - 1] == [] && Fetch(refs, script, ids, []) == Ok([]);
    assert IndexOf(ids, ids[0]) == 0 && Answer(refs, script, ids, ids[0]) == Found(s);
    assert [] + [ResolvedCellInput(r, s)] == [ResolvedCellInput(r, s)];
  }

  lemma LoneRequest(x: ResolvedCellInput)
    requires x.snapshot.inputKind == ANALYSIS_REQUEST
    ensures RequestInputs([x]) == [x]
  {
    assert [x][..0] == [];
  }

  /**
   * A node of an accepted plan that cannot be composed although the in-memory resolver serves its intact request snapshot
   * and the request reads: the bundle refuses its blank id.
   */
  lemma BlankNodeIsRejected(sizeOf: Json.Value -> int, reader: RequestReader)
    requires reader.parses(BlankPayload())
    ensures var size := sizeOf(Json.Dict(BlankPayload()));
      && PlanWellFormed(BlankPlan(size)) && BlankNode(size) in BlankPlan(size).nodes && IntegrityChecked(BlankScript(sizeOf), sizeOf)
      && (forall id :: id in BlankNode(size).inputReferenceIds ==> id in PlanReferences(BlankPlan(size)) && id in [BlankReference(size).referenceId])
      && Composing(BlankNode(size), PlanReferences(BlankPlan(size)), BlankScript(sizeOf), [BlankReference(size).referenceId], reader)
           == Err(Rejected(" "))
  {
    var size := sizeOf(Json.Dict(BlankPayload()));
    var x := ResolvedCellInput(BlankReference(size), BlankSnapshot(size));
    assert reader.Read(x.snapshot.payload).Some? && x.snapshot.inputKind == ANALYSIS_REQUEST;
    assert BlankNode(size).inputReferenceIds == [BlankReference(size).referenceId] && BlankNode(size).nodeId == " ";
    BlankPlanIsAccepted(size);
    BlankTables(size);
    hide *;
    BlankAnswer(sizeOf);
    LoneFetch(PlanReferences(BlankPlan(size)), BlankScript(sizeOf), x.reference, x.snapshot);
    LoneRequest(x);
    ComposesIff(BlankNode(size), BlankPlan(size), BlankScript(sizeOf), [x.reference.referenceId], reader, sizeOf);
  }
}
