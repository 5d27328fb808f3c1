/** The in-memory snapshot store and its integrity checks (inputs/resolver.py). */
module InputResolver {
  import opened Collections
  import opened InputModel
  import Json

  datatype Field =
    | SchemaField | KindField | TargetField | HorizonField | VersionField | SourceField
    | ReferenceIdField | SnapshotIdField | HashField | SizeField

  datatype ResolutionError =
    | NotFound(referenceId: ReferenceId)
    | NotAnObject(snapshotId: SnapshotId)
    | SnapshotDamaged(snapshotId: SnapshotId, fields: seq<Field>)
    | ReferenceDiffers(referenceId: ReferenceId, fields: seq<Field>)
    | UriCollision(uri: Uri, fields: seq<Field>)

  /** The scope text a payload carries must be the snapshot's own; a request payload always has to carry it. */
  predicate ScopeAgrees(s: InputSnapshot, field: string, value: string, default: Option<string>)
    requires s.payload.Dict?
  {
    var fields := s.payload.fields;
    s.inputKind == ANALYSIS_REQUEST || field in fields ==>
      if field in fields then fields[field] == Json.Text(value) else default == Some(value)
  }

  /**
   * A snapshot whose ids, hash, size and scope are those of its own payload. `sizeOf` is the length of the canonical
   * JSON text.
   */
  predicate SelfConsistent(s: InputSnapshot, sizeOf: Json.Value -> int) {
    && s.payload.Dict?
    && s.schemaVersion == SNAPSHOT_SCHEMA
    && s.inputKind in SUPPORTED_KINDS
    && !Blank(s.target) && !Blank(s.horizon) && !Blank(s.dataVersion) && !Blank(s.source)
    && s.snapshotId == SnapshotIdOf(s.IdentityFields())
    && s.contentHash == DigestOf(s.payload)
    && s.payloadSize == sizeOf(s.payload)
    && ScopeAgrees(s, "target", s.target, None)
    && ScopeAgrees(s, "horizon", s.horizon, Some(DEFAULT_HORIZON))
  }

  /** Adds a field to a mismatch list when its check fails. */
  method Note(fields: seq<Field>, mismatch: bool, field: Field) returns (r: seq<Field>)
    ensures r == [] <==> fields == [] && !mismatch
    ensures forall f :: f in r <==> f in fields || (mismatch && f == field)
  {
    r := if mismatch then fields + [field] else fields;
  }

  method CheckSnapshot(s: InputSnapshot, sizeOf: Json.Value -> int) returns (problem: Option<ResolutionError>)
    ensures problem.None? <==> SelfConsistent(s, sizeOf)
    ensures problem == Some(NotAnObject(s.snapshotId)) <==> !s.payload.Dict?
    ensures problem.Some? && s.payload.Dict? ==>
      && problem.value.SnapshotDamaged? && problem.value.snapshotId == s.snapshotId
      && (HashField in problem.value.fields <==> s.contentHash != DigestOf(s.payload))
      && (SnapshotIdField in problem.value.fields <==> s.snapshotId != SnapshotIdOf(s.IdentityFields()))
  {
    hide Blank, ScopeAgrees;
    if !s.payload.Dict? {
      return Some(NotAnObject(s.snapshotId));
    }
    var fields: seq<Field> := [];
    fields := Note(fields, s.schemaVersion != SNAPSHOT_SCHEMA, SchemaField);
    fields := Note(fields, s.inputKind !in SUPPORTED_KINDS, KindField);
    fields := Note(fields, Blank(s.target), TargetField);
    fields := Note(fields, Blank(s.horizon), HorizonField);
    fields := Note(fields, Blank(s.dataVersion), VersionField);
    fields := Note(fields, Blank(s.source), SourceField);
    fields := Note(fields, s.snapshotId != SnapshotIdOf(s.IdentityFields()), SnapshotIdField);
    fields := Note(fields, s.contentHash != DigestOf(s.payload), HashField);
    fields := Note(fields, s.payloadSize != sizeOf(s.payload), SizeField);
    fields := Note(fields, !ScopeAgrees(s, "target", s.target, None), TargetField);
    fields := Note(fields, !ScopeAgrees(s, "horizon", s.horizon, Some(DEFAULT_HORIZON)), HorizonField);
    problem := if fields == [] then None else Some(SnapshotDamaged(s.snapshotId, fields));
  }

  /** The fields on which two references differ; where they point is not compared. */
  method ReferenceMismatches(a: InputReference, b: InputReference) returns (fields: seq<Field>)
    ensures fields == [] <==> a == b.(uri := a.uri)
  {
    fields := [];
    fields := Note(fields, a.referenceId != b.referenceId, ReferenceIdField);
    fields := Note(fields, a.snapshotId != b.snapshotId, SnapshotIdField);
    fields := Note(fields, a.inputKind != b.inputKind, KindField);
    fields := Note(fields, a.contentHash != b.contentHash, HashField);
    fields := Note(fields, a.dataVersion != b.dataVersion, VersionField);
    fields := Note(fields, a.source != b.source, SourceField);
    fields := Note(fields, a.target != b.target, TargetField);
    fields := Note(fields, a.horizon != b.horizon, HorizonField);
    fields := Note(fields, a.payloadSize != b.payloadSize, SizeField);
    fields := Note(fields, a.schemaVersion != b.schemaVersion, SchemaField);
  }

  // ----- The store as a value -----

  type Store = map<Uri, InputSnapshot>

  function OwnReference(s: InputSnapshot): InputReference {
    s.ToReference(MemoryUri(s.snapshotId))
  }

  /** A stored snapshot that is intact and is exactly what the reference describes. */
  predicate Serves(store: Store, r: InputReference, sizeOf: Json.Value -> int) {
    && r.uri in store
    && SelfConsistent(store[r.uri], sizeOf)
    && r == store[r.uri].ToReference(r.uri)
  }

  /** Every stored snapshot is intact and sits at the place its identity names. */
  ghost predicate Intact(store: Store, sizeOf: Json.Value -> int) {
    forall u :: u in store ==> SelfConsistent(store[u], sizeOf) && u == MemoryUri(store[u].snapshotId)
  }

  function AfterRegister(store: Store, s: InputSnapshot, sizeOf: Json.Value -> int): Store {
    if SelfConsistent(s, sizeOf) then store[MemoryUri(s.snapshotId) := s] else store
  }

  function AfterRegisters(store: Store, snapshots: seq<InputSnapshot>, sizeOf: Json.Value -> int): Store {
    if snapshots == [] then store
    else AfterRegister(AfterRegisters(store, snapshots[..|snapshots| - 1], sizeOf), snapshots[|snapshots| - 1], sizeOf)
  }

  /** The id of an intact snapshot determines it: kind, scope, hash, version and source fix the payload and its size. */
  lemma SameIdSameSnapshot(s: InputSnapshot, t: InputSnapshot, sizeOf: Json.Value -> int)
    requires SelfConsistent(s, sizeOf) && SelfConsistent(t, sizeOf) && s.snapshotId == t.snapshotId
    ensures s == t
  {
    assert s.IdentityFields() == t.IdentityFields();
  }

  /** Registering never loses or replaces what is stored, so a returned reference keeps serving its snapshot. */
  lemma {:induction false} RegisteredStays(store: Store, snapshots: seq<InputSnapshot>, u: Uri, sizeOf: Json.Value -> int)
    requires Intact(store, sizeOf) && u in store
    ensures Intact(AfterRegisters(store, snapshots, sizeOf), sizeOf)
    ensures u in AfterRegisters(store, snapshots, sizeOf) && AfterRegisters(store, snapshots, sizeOf)[u] == store[u]
  {
    if snapshots != [] {
      var front, s := snapshots[..|snapshots| - 1], snapshots[|snapshots| - 1];
      RegisteredStays(store, front, u, sizeOf);
      var before := AfterRegisters(store, front, sizeOf);
      if SelfConsistent(s, sizeOf) && u == MemoryUri(s.snapshotId) {
        SameIdSameSnapshot(s, before[u], sizeOf);
      }
    }
  }

  /**
   * Round trip: registering an intact snapshot and resolving the reference it returned, after any number of other
   * registrations, finds that very snapshot, and no other reference to the same place is served.
   */
  lemma RegisterThenResolve(store: Store, s: InputSnapshot, later: seq<InputSnapshot>, r: InputReference, sizeOf: Json.Value -> int)
    requires Intact(store, sizeOf) && SelfConsistent(s, sizeOf) && r.uri == MemoryUri(s.snapshotId)
    ensures var after := AfterRegisters(AfterRegister(store, s, sizeOf), later, sizeOf);
      && (Serves(after, r, sizeOf) <==> r == OwnReference(s))
      && r.uri in after && after[r.uri] == s
  {
    RegisteredStays(AfterRegister(store, s, sizeOf), later, r.uri, sizeOf);
  }

  /** Whatever is served is what a resolved input demands of its pair. */
  lemma ServedResolves(store: Store, r: InputReference, sizeOf: Json.Value -> int)
    requires Serves(store, r, sizeOf)
    ensures Resolves(r, store[r.uri])
  {
  }

  // ----- The resolver -----

  class LocalInputResolver {
    const sizeOf: Json.Value -> int
    var snapshots: Store
    var resolveCount: nat

    constructor (sizeOf: Json.Value -> int)
      ensures this.sizeOf == sizeOf && snapshots == map[] && resolveCount == 0
    {
      this.sizeOf, snapshots, resolveCount := sizeOf, map[], 0;
    }

    /** In an intact store the collision branch cannot be taken: only a damaged snapshot is refused. */
    method Register(s: InputSnapshot) returns (r: Result<InputReference, ResolutionError>)
      modifies this`snapshots
      ensures r.Ok? ==> SelfConsistent(s, sizeOf) && r.value == OwnReference(s)
      ensures r.Err? ==> snapshots == old(snapshots)
      ensures r.Ok? ==> snapshots == AfterRegister(old(snapshots), s, sizeOf)
      ensures old(Intact(snapshots, sizeOf)) ==> Intact(snapshots, sizeOf) && (r.Ok? <==> SelfConsistent(s, sizeOf))
      ensures old(Intact(snapshots, sizeOf)) && MemoryUri(s.snapshotId) in old(snapshots) ==> snapshots == old(snapshots)
    {
      hide SelfConsistent;
      var problem := CheckSnapshot(s, sizeOf);
      if problem.Some? {
        return Err(problem.value);
      }
      var reference := OwnReference(s);
      if reference.uri in snapshots {
        var existing := snapshots[reference.uri];
        problem := CheckSnapshot(existing, sizeOf);
        if problem.Some? {
          return Err(problem.value);
        }
        var fields := ReferenceMismatches(reference, existing.ToReference(reference.uri));
        if SelfConsistent(existing, sizeOf) && existing.snapshotId == s.snapshotId { SameIdSameSnapshot(s, existing, sizeOf); }
        if fields != [] {
          return Err(UriCollision(reference.uri, fields));
        }
      }
      snapshots := snapshots[reference.uri := s];
      return Ok(reference);
    }

    /** Counts the call, then serves the snapshot exactly when it is intact and matches the reference field by field. */
    method Resolve(reference: InputReference) returns (r: Result<InputSnapshot, ResolutionError>)
      modifies this`resolveCount
      ensures resolveCount == old(resolveCount) + 1
      ensures r.Ok? <==> Serves(snapshots, reference, sizeOf)
      ensures r.Ok? ==> r.value == snapshots[reference.uri]
      ensures r == Err(NotFound(reference.referenceId)) <==> reference.uri !in snapshots
    {
      hide SelfConsistent;
      resolveCount := resolveCount + 1;
      if reference.uri !in snapshots {
        return Err(NotFound(reference.referenceId));
      }
      var s := snapshots[reference.uri];
      var problem := CheckSnapshot(s, sizeOf);
      if problem.Some? {
        return Err(problem.value);
      }
      var fields := ReferenceMismatches(reference, s.ToReference(reference.uri));
      if fields != [] {
        return Err(ReferenceDiffers(reference.referenceId, fields));
      }
      return Ok(s);
    }
  }
}
