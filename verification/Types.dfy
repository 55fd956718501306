/** Records, trees, observations and decisions of the generational installer. */
module InstallTypes {

  datatype Option<+T> = None | Some(value: T)

  type Time = t: int | 0 < t witness 1

  // ---------------------------------------------------------------- states, gates, actions

  datatype State = Created | Building | Sealed | Published | Activating | Committed | Failed

  predicate Terminal(s: State) {
    s == Committed || s == Failed
  }

  predicate Failable(s: State) {
    s == Created || s == Building
  }

  datatype Gate = Ready | Reconciling | BlockedUnsafe

  datatype Action =
    | NoAction
    | FailTransaction
    | MoveStagingToFailed
    | RemoveEmptyStaging
    | RemoveEmptyGeneration
    | PersistPublished
    | PersistActivating
    | Activate
    | ReconcileEnv
    | Commit
    | GCStaging
    | DiagnoseRetain
    | BlockUnsafe
    | FailFailableExtras

  datatype Code = NoCode | Interrupted | Unsafe | Inconsistent | SealInvalid | PublishConflict

  // ---------------------------------------------------------------- file contents and trees

  type Byte = b: int | 0 <= b < 256

  /** The bytes of one file. A record written by the installer is kept as its decoded value. */
  datatype Content =
    | Raw(bytes: seq<Byte>)
    | CandidateJson(candidate: CandidateRecord)
    | ManifestJson(manifest: ManifestFile)
    | GenerationJson(generation: GenerationRecord)

  /** SHA-256 taken as injective: the digest of a content is a constructor applied to it. */
  datatype Digest = NoDigest | Sha256(content: Content)

  datatype CandidateRecord =
    CandidateRecord(transactionId: string, generationId: string, runtimeKind: string, createdAt: Time)

  datatype ManifestEntry = ManifestEntry(path: string, sha: Digest)

  datatype ManifestFile = ManifestFile(schema: nat, entries: seq<ManifestEntry>)

  datatype GenerationRecord = GenerationRecord(
    lineageId: string,
    transactionId: string,
    generationId: string,
    generationRelativePath: string,
    manifestSha: Digest)

  /** A directory tree: slash-separated relative path of each regular file to its content. */
  type Tree = map<string, Content>

  const FILE_MANIFEST := "manifest.json"
  const FILE_GENERATION := "generation.json"
  const FILE_CANDIDATE := ".yorva-candidate.json"
  const MANIFEST_SCHEMA: nat := 1

  function GenerationRel(generationId: string): string {
    "generations/" + generationId
  }

  // ---------------------------------------------------------------- identifiers and blanks

  predicate ClosedId(prefix: string, id: string) {
    && |id| == |prefix| + 22
    && prefix <= id
    && forall i :: |prefix| <= i < |id| ==> 'a' <= id[i] <= 'z' || '2' <= id[i] <= '7'
  }

  predicate ValidTxnId(id: string) {
    ClosedId("txn_", id)
  }

  predicate ValidGenId(id: string) {
    ClosedId("gen_", id)
  }

  predicate IsSpace(c: char) {
    || '\t' <= c <= '\r' || c == ' ' || c == '\U{85}' || c == '\U{A0}' || c == '\U{1680}'
    || '\U{2000}' <= c <= '\U{200A}' || c == '\U{2028}' || c == '\U{2029}' || c == '\U{202F}'
    || c == '\U{205F}' || c == '\U{3000}'
  }

  predicate Blank(s: string) {
    forall i :: 0 <= i < |s| ==> IsSpace(s[i])
  }

  // ---------------------------------------------------------------- transaction and active records

  datatype BeforeKind = Unrecorded | BeforeAbsent | BeforeValid

  datatype Txn = Txn(
    revision: nat,
    id: string,
    runtimeKind: string,
    generationId: string,
    state: State,
    sourcePin: string,
    expectedVersion: string,
    manifestSha: Digest,
    sealSha: Digest,
    beforeKind: BeforeKind,
    beforeGeneration: string,
    beforeDigest: Digest,
    errorCode: Code,
    createdAt: Time,
    updatedAt: Time,
    activatedAt: Option<Time>,
    committedAt: Option<Time>)

  predicate Nonterminal(t: Txn) {
    !Terminal(t.state)
  }

  predicate ValidTransaction(t: Txn) {
    && ValidTxnId(t.id)
    && ValidGenId(t.generationId)
    && !Blank(t.runtimeKind)
    && match t.beforeKind
       case Unrecorded => t.beforeGeneration == "" || ValidGenId(t.beforeGeneration)
       case BeforeAbsent => t.beforeGeneration == "" && t.beforeDigest == NoDigest
       case BeforeValid => ValidGenId(t.beforeGeneration) && t.beforeDigest.Sha256?
  }

  datatype ActiveRecord = ActiveRecord(
    runtimeKind: string,
    generationId: string,
    manifestSha: Digest,
    sealSha: Digest,
    sourcePin: string,
    version: string,
    transactionId: string,
    activatedAt: Time)

  predicate ValidActiveRecord(r: ActiveRecord) {
    && !Blank(r.runtimeKind) && !Blank(r.sourcePin) && !Blank(r.version)
    && ValidGenId(r.generationId) && ValidTxnId(r.transactionId)
    && r.manifestSha.Sha256? && r.sealSha.Sha256?
  }

  /** control/active.json on disk: missing, present but unreadable, or a decoded record. */
  datatype ActiveFile = NoActive | Unreadable | ActiveFile(record: ActiveRecord)

  /** How active.json is classified; MISSING and INVALID are different. */
  datatype ActivePointer =
    | Missing
    | Invalid
    | Valid(generationId: string, sealSha: Digest, manifestSha: Digest)

  // ---------------------------------------------------------------- observation and decision

  datatype View =
    | Malformed(occupiesReservedName: bool, id: string)
    | View(id: string, state: State, generationId: string,
           before: string, beforeDigest: Digest, beforeKind: BeforeKind)

  function ViewOf(t: Txn): View {
    View(t.id, t.state, t.generationId, t.beforeGeneration, t.beforeDigest, t.beforeKind)
  }

  datatype TreeObservation =
    TreeObservation(present: bool, empty: bool, sealed: bool, lineageMatch: bool, lineageId: string)

  const AbsentTree := TreeObservation(false, false, false, false, "")

  datatype EnvObservation = EnvObservation(homeOk: bool, pathOk: bool)

  predicate EnvComplete(e: EnvObservation) {
    e.homeOk && e.pathOk
  }

  datatype Observation = Observation(
    transactions: seq<View>,
    staging: TreeObservation,
    generation: TreeObservation,
    unknownDirectories: set<string>,
    reservedIdCollision: bool,
    active: ActivePointer,
    environment: EnvObservation)

  datatype Decision = Decision(gate: Gate, next: Option<State>, action: Action, code: Code)
}
