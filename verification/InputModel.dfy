/** Input snapshots, references and the typed bundle a node receives (inputs/models.py). */
module InputModel {
  import opened Collections
  import Json

  const ANALYSIS_REQUEST := "analysis_request"
  const SUPPORTED_KINDS := [
    ANALYSIS_REQUEST, "candle_batch", "funding_open_interest_snapshot", "feature_snapshot", "order_book_snapshot"
  ]
  const SNAPSHOT_SCHEMA := "input_snapshot.v1"
  const REFERENCE_SCHEMA := "input_reference.v1"
  const DEFAULT_HORIZON := "1h"

  type Payload = map<string, Json.Value>

  // SHA-256 and the ids built from it are injective; any other text may be claimed in their place.
  datatype Digest = DigestOf(payload: Json.Value) | ClaimedDigest(text: string)

  datatype Identity = Identity(
    inputKind: string, target: string, horizon: string, contentHash: Digest, dataVersion: string, source: string)

  datatype SnapshotId = SnapshotIdOf(identity: Identity) | ClaimedSnapshotId(text: string)

  datatype ReferenceId = ReferenceIdOf(snapshotId: SnapshotId) | ClaimedReferenceId(text: string)

  datatype Uri = MemoryUri(snapshotId: SnapshotId) | ClaimedUri(text: string)

  datatype InputReference = InputReference(
    referenceId: ReferenceId, snapshotId: SnapshotId, inputKind: string, uri: Uri, contentHash: Digest,
    dataVersion: string, source: string, target: string, horizon: string, payloadSize: int, schemaVersion: string)

  /** `payload` need not be an object when the snapshot was read back from storage. */
  datatype InputSnapshot = InputSnapshot(
    snapshotId: SnapshotId, inputKind: string, target: string, horizon: string, contentHash: Digest,
    dataVersion: string, source: string, payload: Json.Value, payloadSize: int, schemaVersion: string)
  {
    function IdentityFields(): Identity {
      Identity(inputKind, target, horizon, contentHash, dataVersion, source)
    }

    function ToReference(uri: Uri): InputReference {
      InputReference(ReferenceIdOf(snapshotId), snapshotId, inputKind, uri, contentHash, dataVersion, source,
                     target, horizon, payloadSize, REFERENCE_SCHEMA)
    }
  }

  /** The eight fields a resolved input compares. */
  predicate Resolves(reference: InputReference, snapshot: InputSnapshot) {
    && reference.snapshotId == snapshot.snapshotId
    && reference.inputKind == snapshot.inputKind
    && reference.contentHash == snapshot.contentHash
    && reference.dataVersion == snapshot.dataVersion
    && reference.source == snapshot.source
    && reference.target == snapshot.target
    && reference.horizon == snapshot.horizon
    && reference.payloadSize == snapshot.payloadSize
  }

  datatype AnalysisRequest = AnalysisRequest(target: string, horizon: string, payload: Payload)

  /** `str(value)` for the scope fields; other types than text render to some other string. */
  function ScopeText(v: Json.Value, render: Json.Value -> string): string {
    if v.Text? then v.text else render(v)
  }

  /**
   * Reading a request back from a payload. `parses` says whether the candle and event lists convert;
   * `render` is Python's `str` on values that are not text.
   */
  datatype RequestReader = RequestReader(parses: Payload -> bool, render: Json.Value -> string) {
    function Read(payload: Json.Value): Option<AnalysisRequest> {
      if payload.Dict? && parses(payload.fields) && "target" in payload.fields then
        Some(AnalysisRequest(
               ScopeText(payload.fields["target"], render),
               if "horizon" in payload.fields then ScopeText(payload.fields["horizon"], render) else DEFAULT_HORIZON,
               payload.fields))
      else None
    }
  }

  datatype ResolvedCellInput = ResolvedCellInput(reference: InputReference, snapshot: InputSnapshot)

  datatype CellInputBundle = CellInputBundle(
    nodeId: string, request: AnalysisRequest, inputs: seq<ResolvedCellInput>, requiredKinds: seq<string>)

  function KindsOf(inputs: seq<ResolvedCellInput>): seq<string> {
    Map((x: ResolvedCellInput) => x.snapshot.inputKind, inputs)
  }

  function ReferenceIdsOf(inputs: seq<ResolvedCellInput>): seq<ReferenceId> {
    Map((x: ResolvedCellInput) => x.reference.referenceId, inputs)
  }

  function RequestInputs(inputs: seq<ResolvedCellInput>): seq<ResolvedCellInput> {
    Filter((x: ResolvedCellInput) => x.snapshot.inputKind == ANALYSIS_REQUEST, inputs)
  }

  /** The characters Python's `strip` removes. */
  predicate IsSpace(c: char) {
    var k := c as int;
    || 9 <= k <= 13 || 28 <= k <= 32 || k == 133 || k == 160 || k == 5760
    || 8192 <= k <= 8202 || k == 8232 || k == 8233 || k == 8239 || k == 8287 || k == 12288
  }

  /** `not text.strip()`. */
  predicate Blank(s: string) {
    forall i :: 0 <= i < |s| ==> IsSpace(s[i])
  }

  /** Every check the bundle and its resolved inputs run when they are constructed. */
  predicate BundleAdmissible(b: CellInputBundle) {
    && (forall x :: x in b.inputs ==> Resolves(x.reference, x.snapshot))
    && !Blank(b.nodeId)
    && b.inputs != []
    && |b.requiredKinds| == |Elements(b.requiredKinds)|
    && ANALYSIS_REQUEST in b.requiredKinds
    && |ReferenceIdsOf(b.inputs)| == |Elements(ReferenceIdsOf(b.inputs))|
    && KindsOf(b.inputs) == b.requiredKinds
    && |RequestInputs(b.inputs)| == 1
    && (forall x :: x in b.inputs ==> x.snapshot.target == b.request.target && x.snapshot.horizon == b.request.horizon)
  }
}
