/** The durable state under the managed root, what is read from it and how records are saved. */
module World {
  import opened InstallTypes
  import opened Seal
  import opened Environment
  import opened Decide

  /** One swing of active.json: the record index of its writer and the pointer before and after. */
  datatype PointerWrite = PointerWrite(writer: int, from: ActivePointer, to: ActivePointer)

  /** Everything that survives a crash. `history` is auxiliary: it lists the pointer writes so far. */
  datatype World = World(
    txns: seq<Txn>,
    malformed: seq<string>,
    active: ActiveFile,
    generations: map<string, Tree>,
    staging: map<string, Tree>,
    failed: map<string, Tree>,
    strange: set<string>,
    env: Env,
    clock: Time,
    history: seq<PointerWrite>)

  /** The environment backend: each call either fails or gives the value read or the state written. */
  datatype Backend = Backend(
    read: Env -> Option<Env>,
    writeHome: (Env, string) -> Option<Env>,
    writePath: (Env, seq<string>) -> Option<Env>)

  datatype Config = Config(root: string, norm: Spelling, backend: Backend)

  ghost predicate Working(cfg: Config) {
    && (forall e :: cfg.backend.read(e) == Some(e))
    && (forall e, home :: cfg.backend.writeHome(e, home) == Some(e.(home := home)))
    && (forall e, path :: cfg.backend.writePath(e, path) == Some(e.(path := path)))
  }

  /** Record files have distinct names, and a record is its file's, unless the file is malformed. */
  ghost predicate Filed(w: World) {
    && (forall i, j :: 0 <= i < |w.txns| && 0 <= j < |w.txns| && w.txns[i].id == w.txns[j].id ==> i == j)
    && (forall i :: 0 <= i < |w.txns| ==> ValidTransaction(w.txns[i]) && w.txns[i].id !in w.malformed)
  }

  /** Besides, generation identifiers are never reused. */
  ghost predicate Distinct(w: World) {
    && Filed(w)
    && forall i, j | 0 <= i < |w.txns| && 0 <= j < |w.txns| && w.txns[i].generationId == w.txns[j].generationId ::
         i == j
  }

  // ---------------------------------------------------------------- transaction records

  /** The two records belong to one transaction and the same sealed content. */
  predicate SameBuild(t: Txn, u: Txn) {
    && u.id == t.id && u.generationId == t.generationId
    && u.manifestSha == t.manifestSha && u.sealSha == t.sealSha
    && u.runtimeKind == t.runtimeKind && u.sourcePin == t.sourcePin && u.expectedVersion == t.expectedVersion
  }

  function IndexOf(txns: seq<Txn>, id: string): (i: int)
    ensures -1 <= i < |txns|
    ensures i >= 0 ==> txns[i].id == id
    ensures i < 0 ==> forall j :: 0 <= j < |txns| ==> txns[j].id != id
  {
    if txns == [] then -1
    else if txns[0].id == id then 0
    else
      var rest := IndexOf(txns[1..], id);
      assert forall j :: 1 <= j < |txns| ==> txns[j] == txns[1..][j - 1];
      if rest < 0 then -1 else rest + 1
  }

  function Load(w: World, id: string): Option<Txn> {
    var i := IndexOf(w.txns, id);
    if id in w.malformed || i < 0 then None else Some(w.txns[i])
  }

  /** The outcome of a run of durable steps: the state reached, and whether no error was returned. */
  datatype Exec = Exec(world: World, ok: bool)

  /** SaveTransaction: the optimistic revision check, then the record with the next revision. */
  function Save(w: World, t: Txn): Exec {
    var i := IndexOf(w.txns, t.id);
    var expected := if i < 0 then 0 else w.txns[i].revision;
    if !ValidTransaction(t) || t.id in w.malformed || t.revision != expected then Exec(w, false)
    else
      var saved := t.(revision := expected + 1);
      var txns := if i < 0 then w.txns + [saved] else w.txns[i := saved];
      Exec(w.(txns := txns, clock := w.clock + 1), true)
  }

  lemma IndexFinds(w: World, i: nat)
    requires i < |w.txns| && Filed(w)
    ensures IndexOf(w.txns, w.txns[i].id) == i
    ensures w.txns[i].id !in w.malformed && ValidTransaction(w.txns[i])
    ensures Load(w, w.txns[i].id) == Some(w.txns[i])
  {
    var k := IndexOf(w.txns, w.txns[i].id);
    assert w.txns[k].id == w.txns[i].id;
  }

  /** Saving a changed copy of a loaded record replaces exactly that record. */
  function Replace(w: World, i: nat, t: Txn): World
    requires i < |w.txns|
  {
    w.(txns := w.txns[i := t.(revision := w.txns[i].revision + 1)], clock := w.clock + 1)
  }

  lemma SaveReplaces(w: World, i: nat, t: Txn)
    requires i < |w.txns| && Filed(w)
    requires t.id == w.txns[i].id && t.revision == w.txns[i].revision && ValidTransaction(t)
    ensures Save(w, t) == Exec(Replace(w, i, t), true)
    ensures Load(w, t.id) == Some(w.txns[i])
  {
    hide IndexOf, Filed, ValidTransaction;
    IndexFinds(w, i);
  }

  lemma RevisionKeepsValid(t: Txn, revision: nat)
    ensures ValidTransaction(t.(revision := revision)) <==> ValidTransaction(t)
  {
  }

  // ---------------------------------------------------------------- the active pointer

  function LoadActive(w: World): Option<ActiveRecord> {
    if w.active.ActiveFile? && ValidActiveRecord(w.active.record) then Some(w.active.record) else None
  }

  function ReadActive(w: World): ActivePointer {
    if w.active.NoActive? then Missing
    else
      match LoadActive(w)
      case None => Invalid
      case Some(r) =>
        if r.generationId in w.generations
           && VerifyPublished(w.generations[r.generationId], r.generationId, r.manifestSha, r.sealSha)
        then Valid(r.generationId, r.sealSha, r.manifestSha)
        else Invalid
  }

  function WriteActive(w: World, r: ActiveRecord): Exec {
    if !ValidActiveRecord(r) then Exec(w, false)
    else
      var written := w.(active := ActiveFile(r), clock := w.clock + 1);
      Exec(written.(history := w.history + [PointerWrite(IndexOf(w.txns, r.transactionId), ReadActive(w),
            ReadActive(written))]), true)
  }

  // ---------------------------------------------------------------- observation

  function Views(w: World): (views: seq<View>)
    ensures |views| == |w.txns| + |w.malformed|
    ensures forall i :: 0 <= i < |w.txns| ==> views[i] == ViewOf(w.txns[i])
    ensures forall i :: |w.txns| <= i < |views| ==> views[i] == Malformed(true, w.malformed[i - |w.txns|])
  {
    seq(|w.txns|, i requires 0 <= i < |w.txns| => ViewOf(w.txns[i]))
    + seq(|w.malformed|, i requires 0 <= i < |w.malformed| => Malformed(true, w.malformed[i]))
  }

  ghost predicate FirstNamed(views: seq<View>, generationId: string, i: int) {
    && 0 <= i < |views| && views[i].View? && views[i].generationId == generationId
    && forall j :: 0 <= j < i ==> !(views[j].View? && views[j].generationId == generationId)
  }

  /** primaryTxn: the only nonterminal record, else the first one active.json names. */
  ghost function Primary(views: seq<View>, active: ActivePointer): Option<View> {
    if exists i :: Sole(views, i) then
      var i :| Sole(views, i);
      Some(views[i])
    else if active.Valid? && exists i :: FirstNamed(views, active.generationId, i) then
      var i :| FirstNamed(views, active.generationId, i);
      Some(views[i])
    else None
  }

  function TreeOf(trees: map<string, Tree>, name: string): Option<Tree> {
    if name in trees then Some(trees[name]) else None
  }

  ghost function ObserveTree(found: Option<Tree>, txn: Txn): TreeObservation {
    match found
    case None => AbsentTree
    case Some(tree) =>
      var empty := tree == map[];
      if txn.manifestSha != NoDigest && txn.sealSha != NoDigest
         && VerifySealedTree(tree, txn.generationId, txn.manifestSha, txn.sealSha) then
        TreeObservation(true, empty, true, true, txn.generationId)
      else if ReadsGeneration(tree) then
        var rec := tree[FILE_GENERATION].generation;
        TreeObservation(true, empty, false, rec.generationId == txn.generationId, rec.generationId)
      else if ReadsCandidate(tree) then
        var rec := tree[FILE_CANDIDATE].candidate;
        TreeObservation(true, empty, false,
          rec.generationId == txn.generationId && rec.transactionId == txn.id, rec.generationId)
      else TreeObservation(true, empty, false, false, "")
  }

  function BinOf(cfg: Config, generationId: string): string {
    cfg.root + "/" + GenerationRel(generationId) + "/bin"
  }

  /** HERMES_HOME holds the managed root, if there is one to hold. */
  predicate HomeReady(cfg: Config, env: Env) {
    cfg.root == "" || SamePath(cfg.norm, env.home, cfg.root)
  }

  /** Home and PATH hold what this generation asks for: its bin leads. */
  predicate EnvReady(cfg: Config, env: Env, generationId: string) {
    HomeReady(cfg, env) && env.path != [] && SamePath(cfg.norm, env.path[0], BinOf(cfg, generationId))
  }

  function RemovableBins(cfg: Config, w: World, activeGen: string): set<string> {
    set g | g in w.generations && ValidGenId(g) && g != activeGen :: BinOf(cfg, g)
  }

  ghost function PolicyFromActive(cfg: Config, w: World, r: ActiveRecord, allowStale: bool): Option<Policy> {
    if r.generationId in w.generations
       && VerifySealedTree(w.generations[r.generationId], r.generationId, r.manifestSha, r.sealSha)
    then Some(Policy(cfg.root, BinOf(cfg, r.generationId), RemovableBins(cfg, w, r.generationId), allowStale))
    else None
  }

  predicate HasCommitted(w: World) {
    exists i :: 0 <= i < |w.txns| && w.txns[i].state == State.Committed
  }

  predicate HasNonterminal(w: World) {
    exists i :: 0 <= i < |w.txns| && Nonterminal(w.txns[i])
  }

  const UnseenEnv := EnvObservation(false, false)

  ghost function ObserveEnvironment(cfg: Config, w: World): EnvObservation {
    match LoadActive(w)
    case None => UnseenEnv
    case Some(r) =>
      match PolicyFromActive(cfg, w, r, HasCommitted(w))
      case None => UnseenEnv
      case Some(policy) =>
        match cfg.backend.read(w.env)
        case None => UnseenEnv
        case Some(seen) => Observed(cfg.norm, PlanFor(cfg.norm, policy, seen), seen)
  }

  predicate NoRecordOwns(w: World, generationId: string) {
    forall i :: 0 <= i < |w.txns| ==> w.txns[i].generationId != generationId
  }

  ghost function UnknownDirectories(w: World): set<string> {
    w.strange
    + (set g | g in w.generations && NoRecordOwns(w, g) :: "generations/" + g)
    + (set s | s in w.staging && (forall i :: 0 <= i < |w.txns| ==> w.txns[i].id != s) :: "staging/" + s)
  }

  ghost function Observe(cfg: Config, w: World): Observation {
    var active := ReadActive(w);
    var primary := Primary(Views(w), active);
    var full := if primary.Some? then Load(w, primary.value.id) else None;
    Observation(
      Views(w),
      if full.Some? then ObserveTree(TreeOf(w.staging, full.value.id), full.value) else AbsentTree,
      if full.Some? then ObserveTree(TreeOf(w.generations, full.value.generationId), full.value) else AbsentTree,
      UnknownDirectories(w),
      false,
      active,
      ObserveEnvironment(cfg, w))
  }
}
