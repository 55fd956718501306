/** Every durable step of an install, of recovery and of collection, and what all runs of them keep. */
module Runs {
  import opened InstallTypes
  import opened Seal
  import opened Environment
  import opened World
  import opened Collector
  import opened Recovery

  // ---------------------------------------------------------------- the steps

  /** One durable step. A crash drops memory only, so it is the end of a run and not a step. */
  datatype Act =
    | CreateRecord(txn: Txn)
    | BeginBuild(i: nat)
    | WriteTree(i: nat, found: Option<Tree>)
    | SealRecord(i: nat, manifestSha: Digest, sealSha: Digest)
    | PublishRecord(i: nat)
    | MarkActive(i: nat, stamp: bool)
    | SwingPointer(i: nat)
    | StampActive(i: nat, at: Time)
    | CommitRecord(i: nat)
    | FailRecord(i: nat, code: Code)
    | WriteEnvironment(env: Env)
    | Reclaim(place: Place, latest: int, left: Option<Tree>)

  const TEMP_PREFIX := ".yorva-atom-"

  function CandidateOf(t: Txn): Content {
    CandidateJson(CandidateRecord(t.id, t.generationId, t.runtimeKind, t.createdAt))
  }

  /**
   * What a generation directory holds before its seal is recorded: a temporary file of the first write, or the
   * candidate.
   */
  predicate BuildTreeOk(tree: Tree, t: Txn) {
    && (FILE_CANDIDATE in tree ==> tree[FILE_CANDIDATE] == CandidateOf(t))
    && (FILE_CANDIDATE !in tree ==> forall f :: f in tree ==> TEMP_PREFIX <= f)
    && (FILE_GENERATION in tree ==>
          && tree[FILE_GENERATION].GenerationJson?
          && tree[FILE_GENERATION].generation.generationId == t.generationId
          && tree[FILE_GENERATION].generation.transactionId == t.id)
  }

  /** The record NewCreatedTransaction makes. */
  predicate FreshRecord(t: Txn) {
    && t.manifestSha == NoDigest && t.sealSha == NoDigest
    && t.beforeKind == Unrecorded && t.beforeGeneration == "" && t.beforeDigest == NoDigest
    && t.activatedAt.None? && t.committedAt.None? && t.errorCode == NoCode
  }

  ghost predicate Unused(w: World, t: Txn) {
    && (forall i :: 0 <= i < |w.txns| ==> w.txns[i].id != t.id && w.txns[i].generationId != t.generationId)
    && t.id !in w.staging && t.id !in w.failed && t.generationId !in w.generations
  }

  /** Places no collection may touch, whichever of several equally late records it retains. */
  ghost predicate Shielded(w: World, latest: int, p: Place)
    requires latest < |w.txns|
  {
    || (ReadActive(w).Valid? && p == GenerationAt(ReadActive(w).generationId))
    || (latest >= 0 && p == GenerationAt(w.txns[latest].generationId))
    || exists i :: 0 <= i < |w.txns| && Nonterminal(w.txns[i])
         && (p == StagingAt(w.txns[i].id) || p == GenerationAt(w.txns[i].generationId))
  }

  ghost predicate Names(w: World, t: Txn) {
    LoadActive(w).Some? && LoadActive(w).value.generationId == t.generationId
  }

  ghost predicate OwnedPlace(w: World, p: Place) {
    exists i :: 0 <= i < |w.txns| && Owns(w.txns[i], p)
  }

  predicate SubTree(small: Tree, large: Tree) {
    forall f :: f in small ==> f in large && large[f] == small[f]
  }

  predicate OnRecord(act: Act) {
    !act.CreateRecord? && !act.WriteEnvironment? && !act.Reclaim?
  }

  /** The guard under which the source takes the step. */
  ghost predicate Enabled(cfg: Config, w: World, act: Act) {
    if OnRecord(act) then act.i < |w.txns| && EnabledOn(cfg, w, w.txns[act.i], act)
    else
      match act
      case CreateRecord(t) =>
        && t.revision == 0 && ValidTransaction(t) && t.state == Created && FreshRecord(t) && t.updatedAt <= w.clock
        && Unused(w, t) && !HasNonterminal(w) && !ReadActive(w).Invalid?
      case WriteEnvironment(_) => true
      case Reclaim(p, latest, left) =>
        && latest < |w.txns| && LatestAmong(w.txns, ActiveGen(w), |w.txns|, latest)
        && !Shielded(w, latest, p) && OwnedPlace(w, p)
        && TreeAt(w, p).Some? && (left.Some? ==> SubTree(left.value, TreeAt(w, p).value))
  }

  ghost predicate EnabledOn(cfg: Config, w: World, t: Txn, act: Act)
    requires OnRecord(act)
  {
    match act
    case BeginBuild(_) => t.state == Created
    case WriteTree(_, found) => t.state == Building && (found.Some? ==> BuildTreeOk(found.value, t))
    case SealRecord(_, m, s) => t.state == Building && TreeVerifies(w, t.(manifestSha := m, sealSha := s))
    case PublishRecord(_) => t.state == Sealed && TreeVerifies(w, t)
    case MarkActive(_, _) => t.state == Published && TreeVerifies(w, t) && !ReadActive(w).Invalid?
    case SwingPointer(_) =>
      && t.state == State.Activating && TreeVerifies(w, t) && !PointerNames(ReadActive(w), t)
      && CasAllows(t, ReadActive(w)) && ValidActiveRecord(RecordFor(t, w.clock))
    case StampActive(_, at) => t.state == State.Activating && t.activatedAt.None? && at <= w.clock
    case CommitRecord(_) => t.state == State.Activating && Names(w, t) && CommitObserved(cfg, w, LoadActive(w).value)
    case FailRecord(_, _) => (Failable(t.state) || t.state == Sealed) && !Names(w, t)
  }

  /** The record a step leaves in place of `t`. */
  function Changed(w: World, t: Txn, act: Act): Txn {
    match act
    case BeginBuild(_) => t.(state := Building, updatedAt := w.clock)
    case SealRecord(_, m, s) => t.(state := Sealed, manifestSha := m, sealSha := s, updatedAt := w.clock,
          errorCode := NoCode)
    case PublishRecord(_) => t.(state := Published, updatedAt := w.clock)
    case MarkActive(_, stamp) =>
      SnapshotBefore(t, ReadActive(w)).(state := State.Activating, updatedAt := w.clock,
        activatedAt := if stamp then Some(w.clock) else t.activatedAt)
    case StampActive(_, at) => t.(activatedAt := Some(at), updatedAt := at)
    case CommitRecord(_) => CommittedRecord(t, w.clock)
    case FailRecord(_, code) => WithState(t, State.Failed, code, w.clock)
    case _ => t
  }

  function SetTree(trees: map<string, Tree>, name: string, found: Option<Tree>): map<string, Tree> {
    match found
    case None => trees - {name}
    case Some(tree) => trees[name := tree]
  }

  function SetPlace(w: World, p: Place, found: Option<Tree>): World {
    match p
    case StagingAt(id) => w.(staging := SetTree(w.staging, id, found))
    case FailedAt(id) => w.(failed := SetTree(w.failed, id, found))
    case GenerationAt(g) => w.(generations := SetTree(w.generations, g, found))
  }

  function After(w: World, act: Act): World {
    if act.CreateRecord? then w.(txns := w.txns + [act.txn.(revision := 1)], clock := w.clock + 1)
    else if act.WriteEnvironment? then w.(env := act.env)
    else if act.Reclaim? then SetPlace(w, act.place, act.left)
    else if act.i >= |w.txns| then w
    else AfterOn(w, w.txns[act.i], act)
  }

  function AfterOn(w: World, t: Txn, act: Act): World
    requires OnRecord(act) && act.i < |w.txns|
  {
    if act.WriteTree? then SetPlace(w, GenerationAt(t.generationId), act.found)
    else if act.SwingPointer? then WriteActive(w, RecordFor(t, w.clock)).world
    else Replace(w, act.i, Changed(w, t, act))
  }

  // ---------------------------------------------------------------- runs

  ghost predicate Run(cfg: Config, w: World, acts: seq<Act>, w': World)
    decreases |acts|
  {
    if acts == [] then w' == w
    else Enabled(cfg, w, acts[0]) && Run(cfg, After(w, acts[0]), acts[1..], w')
  }

  /** The disk after these steps. */
  ghost function Replay(w: World, acts: seq<Act>): World
    decreases |acts|
  {
    if acts == [] then w else Replay(After(w, acts[0]), acts[1..])
  }

  lemma {:induction false} RunReplays(cfg: Config, w: World, acts: seq<Act>, w': World)
    requires Run(cfg, w, acts, w')
    ensures w' == Replay(w, acts)
    decreases |acts|
  {
    hide Enabled, After;
    if acts != [] {
      RunReplays(cfg, After(w, acts[0]), acts[1..], w');
    }
  }

  /** What one process did before it ended or died, with the environment backend it met. */
  datatype Session = Session(cfg: Config, acts: seq<Act>)

  /** Processes one after the other, each with a backend of its own. */
  ghost predicate Sessions(w: World, sessions: seq<Session>, w': World)
    decreases |sessions|
  {
    if sessions == [] then w' == w
    else
      var w1 := Replay(w, sessions[0].acts);
      Run(sessions[0].cfg, w, sessions[0].acts, w1) && Sessions(w1, sessions[1..], w')
  }

  /** A managed root no installer has touched. Unknown directories may already be there. */
  ghost predicate Initial(w: World) {
    w.txns == [] && w.malformed == [] && w.active.NoActive? && w.history == []
  }

  // ---------------------------------------------------------------- the invariant

  ghost predicate Verified(t: Txn, found: Option<Tree>) {
    found.Some? && VerifySealedTree(found.value, t.generationId, t.manifestSha, t.sealSha)
  }

  function GenTree(w: World, t: Txn): Option<Tree> {
    TreeOf(w.generations, t.generationId)
  }

  predicate Unsnapshotted(t: Txn) {
    t.beforeKind == Unrecorded && t.beforeGeneration == "" && t.beforeDigest == NoDigest && t.activatedAt.None?
  }

  ghost predicate RecordOk(t: Txn, found: Option<Tree>, clock: Time) {
    && t.updatedAt < clock
    && (t.committedAt.Some? <==> t.state == State.Committed)
    && (t.committedAt.Some? ==> t.committedAt.value < clock)
    && (Nonterminal(t) ==> t.errorCode == NoCode)
    && match t.state
       case Created => found.None? && FreshRecord(t)
       case Building => FreshRecord(t) && (found.Some? ==> BuildTreeOk(found.value, t))
       case Sealed => Unsnapshotted(t) && Verified(t, found)
       case Published => Unsnapshotted(t) && Verified(t, found)
       case Activating => t.beforeKind != Unrecorded && Verified(t, found)
       case Committed => t.beforeKind != Unrecorded
       case Failed => true
  }

  ghost predicate RecordsOk(w: World) {
    forall i :: 0 <= i < |w.txns| ==>
      && RecordOk(w.txns[i], GenTree(w, w.txns[i]), w.clock)
      && w.txns[i].id !in w.staging && w.txns[i].id !in w.failed
  }

  ghost predicate AtMostOne(txns: seq<Txn>) {
    forall i, j :: 0 <= i < |txns| && 0 <= j < |txns| && Nonterminal(txns[i]) && Nonterminal(txns[j]) ==> i == j
  }

  function PointerTo(t: Txn): ActivePointer {
    Valid(t.generationId, t.sealSha, t.manifestSha)
  }

  function Tip(history: seq<PointerWrite>): ActivePointer {
    if history == [] then Missing else history[|history| - 1].to
  }

  function TipWriter(history: seq<PointerWrite>): int {
    if history == [] then -1 else history[|history| - 1].writer
  }

  /** The predecessor recorded in a transaction is exactly this pointer. */
  predicate Recorded(t: Txn, p: ActivePointer) {
    match p
    case Missing => t.beforeKind == BeforeAbsent && t.beforeGeneration == "" && t.beforeDigest == NoDigest
    case Invalid => false
    case Valid(g, seal, _) => t.beforeKind == BeforeValid && t.beforeGeneration == g && t.beforeDigest == seal
  }

  /** One pointer write: by a record that is committed, or activating and the latest writer. */
  ghost predicate LinkOk(txns: seq<Txn>, history: seq<PointerWrite>, n: nat)
    requires n < |history|
  {
    var e := history[n];
    && 0 <= e.writer < |txns|
    && e.from == Tip(history[..n])
    && e.to == PointerTo(txns[e.writer])
    && Recorded(txns[e.writer], e.from)
    && (txns[e.writer].state == State.Committed || (n == |history| - 1 && txns[e.writer].state == State.Activating))
  }

  ghost predicate HistoryOk(txns: seq<Txn>, history: seq<PointerWrite>) {
    && (forall n :: 0 <= n < |history| ==> LinkOk(txns, history, n))
    && (forall m, n :: 0 <= m < n < |history| ==> history[m].writer != history[n].writer)
  }

  ghost predicate PointerOk(w: World) {
    match w.active
    case NoActive => w.history == []
    case Unreadable => false
    case ActiveFile(r) =>
      var k := TipWriter(w.history);
      && 0 <= k < |w.txns|
      && r == RecordFor(w.txns[k], r.activatedAt) && ValidActiveRecord(r)
      && Verified(w.txns[k], GenTree(w, w.txns[k]))
  }

  ghost predicate Wrote(history: seq<PointerWrite>, i: int) {
    exists n :: 0 <= n < |history| && history[n].writer == i
  }

  /** An activating record has swung the pointer last, or not at all and then recorded the current one. */
  ghost predicate ActivatingOk(w: World) {
    forall i :: 0 <= i < |w.txns| && w.txns[i].state == State.Activating ==>
      TipWriter(w.history) == i || (!Wrote(w.history, i) && Recorded(w.txns[i], Tip(w.history)))
  }

  function Replaced(history: seq<PointerWrite>): int {
    if |history| < 2 then -1 else history[|history| - 2].writer
  }

  ghost predicate ReplacedOk(w: World) {
    var p := Replaced(w.history);
    p >= 0 ==> p < |w.txns| && Verified(w.txns[p], GenTree(w, w.txns[p]))
  }

  /** Every other committed record committed before record k. */
  ghost predicate LatestExcept(txns: seq<Txn>, k: int, except: int) {
    0 <= k < |txns| && txns[k].state == State.Committed ==>
      forall j :: 0 <= j < |txns| && j != k && j != except && txns[j].state == State.Committed ==>
            TxnTime(txns[j]) < TxnTime(txns[k])
  }

  ghost predicate TimesOk(w: World) {
    && LatestExcept(w.txns, TipWriter(w.history), -1)
    && LatestExcept(w.txns, Replaced(w.history), TipWriter(w.history))
    && DistinctTimes(w)
  }

  ghost predicate Inv(w: World) {
    && Distinct(w) && w.malformed == []
    && AtMostOne(w.txns) && RecordsOk(w)
    && PointerOk(w) && HistoryOk(w.txns, w.history) && ActivatingOk(w) && ReplacedOk(w) && TimesOk(w)
  }

  lemma InitialInv(w: World)
    requires Initial(w)
    ensures Inv(w)
  {
  }

  // ---------------------------------------------------------------- what the invariant says at once

  lemma VerifiedIsPublished(t: Txn, found: Option<Tree>)
    requires Verified(t, found)
    ensures VerifyPublished(found.value, t.generationId, t.manifestSha, t.sealSha)
    ensures ValidGenId(t.generationId) && t.manifestSha.Sha256? && t.sealSha.Sha256?
  {
  }

  /** Pointer safety: active.json reads missing, or valid and naming the latest writer. Never invalid. */
  lemma PointerReads(w: World)
    requires PointerOk(w) && HistoryOk(w.txns, w.history)
    ensures ReadActive(w) == Tip(w.history)
    ensures !ReadActive(w).Invalid?
    ensures ReadActive(w).Valid? ==>
              0 <= TipWriter(w.history) < |w.txns| && ReadActive(w) == PointerTo(w.txns[TipWriter(w.history)])
    ensures ReadActive(w).Missing? <==> w.history == []
  {
    hide VerifyPublished, VerifySealedTree, ValidActiveRecord, Recorded;
    if w.active.ActiveFile? {
      var k := TipWriter(w.history);
      assert LinkOk(w.txns, w.history, |w.history| - 1);
      VerifiedIsPublished(w.txns[k], GenTree(w, w.txns[k]));
    }
  }

  // ---------------------------------------------------------------- replacing one record

  ghost predicate SameBefore(t: Txn, u: Txn) {
    u.beforeKind == t.beforeKind && u.beforeGeneration == t.beforeGeneration && u.beforeDigest == t.beforeDigest
  }

  /** What a saved change of a nonterminal record must respect. */
  ghost predicate Moves(w: World, i: nat, u: Txn)
    requires i < |w.txns|
  {
    var t := w.txns[i];
    && u.id == t.id && u.generationId == t.generationId && ValidTransaction(u) && Nonterminal(t)
    && RecordOk(u, GenTree(w, t), w.clock + 1)
    && (Wrote(w.history, i) ==>
          SameBuild(t, u) && SameBefore(t, u) && (u.state == State.Committed || u.state == t.state))
    && (u.state == State.Activating ==>
          TipWriter(w.history) == i || (!Wrote(w.history, i) && Recorded(u, Tip(w.history))))
    && (Terminal(u.state) ==> TxnTime(u) == w.clock)
    && (u.state == State.Committed ==> TipWriter(w.history) == i)
  }

  lemma ReplaceDistinct(w: World, i: nat, u: Txn)
    requires Distinct(w) && i < |w.txns| && ValidTransaction(u)
    requires u.id == w.txns[i].id && u.generationId == w.txns[i].generationId
    ensures Distinct(Replace(w, i, u))
  {
    var w' := Replace(w, i, u);
    assert forall j :: 0 <= j < |w.txns| ==>
          w'.txns[j].id == w.txns[j].id && w'.txns[j].generationId == w.txns[j].generationId;
  }

  lemma ReplaceRecords(w: World, i: nat, u: Txn)
    requires AtMostOne(w.txns) && RecordsOk(w) && i < |w.txns| && Moves(w, i, u)
    ensures AtMostOne(Replace(w, i, u).txns) && RecordsOk(Replace(w, i, u))
  {
    hide ValidTransaction, FreshRecord, Unsnapshotted, Verified, BuildTreeOk, Wrote, SameBuild, SameBefore, Recorded;
    var w' := Replace(w, i, u);
    forall j | 0 <= j < |w'.txns|
      ensures RecordOk(w'.txns[j], GenTree(w', w'.txns[j]), w'.clock) && w'.txns[j].id !in w'.staging
      ensures w'.txns[j].id !in w'.failed
    {
      assert RecordOk(w.txns[j], GenTree(w, w.txns[j]), w.clock);
      if j == i { RevisionIrrelevant(u, w.txns[i].revision + 1, GenTree(w, u), w'.clock); }
    }
  }

  lemma RevisionIrrelevant(t: Txn, revision: nat, found: Option<Tree>, clock: Time)
    ensures RecordOk(t.(revision := revision), found, clock) <==> RecordOk(t, found, clock)
  {
  }

  lemma HistoryStays(txns: seq<Txn>, i: nat, u: Txn, history: seq<PointerWrite>)
    requires HistoryOk(txns, history) && i < |txns|
    requires Wrote(history, i) ==>
          SameBuild(txns[i], u) && SameBefore(txns[i], u) && (u.state == State.Committed || u.state == txns[i].state)
    ensures HistoryOk(txns[i := u], history)
  {
    var txns' := txns[i := u];
    forall n | 0 <= n < |history| ensures LinkOk(txns', history, n) {
      assert LinkOk(txns, history, n);
      if history[n].writer == i { assert Wrote(history, i); }
    }
  }

  /** Only committed records, and the latest writer, have written the pointer. */
  lemma WritersAreSwung(w: World, i: nat)
    requires HistoryOk(w.txns, w.history) && i < |w.txns| && Wrote(w.history, i) && Nonterminal(w.txns[i])
    ensures TipWriter(w.history) == i && w.txns[i].state == State.Activating
  {
    var n :| 0 <= n < |w.history| && w.history[n].writer == i;
    assert LinkOk(w.txns, w.history, n);
  }

  lemma TipIsWriter(w: World)
    requires HistoryOk(w.txns, w.history)
    ensures w.history != [] ==> 0 <= TipWriter(w.history) < |w.txns| && Wrote(w.history, TipWriter(w.history))
    ensures |w.history| >= 2 ==> 0 <= Replaced(w.history) < |w.txns| && Wrote(w.history, Replaced(w.history))
    ensures |w.history| >= 2 ==>
              Replaced(w.history) != TipWriter(w.history) && w.txns[Replaced(w.history)].state == State.Committed
  {
    if w.history != [] {
      assert LinkOk(w.txns, w.history, |w.history| - 1);
      assert w.history[|w.history| - 1].writer == TipWriter(w.history);
    }
    if |w.history| >= 2 {
      assert LinkOk(w.txns, w.history, |w.history| - 2);
      assert w.history[|w.history| - 2].writer == Replaced(w.history);
    }
  }

  lemma ReplacePointer(w: World, i: nat, u: Txn)
    requires PointerOk(w) && HistoryOk(w.txns, w.history) && ActivatingOk(w) && ReplacedOk(w) && i < |w.txns|
    requires Moves(w, i, u)
    requires AtMostOne(w.txns)
    ensures PointerOk(Replace(w, i, u)) && ActivatingOk(Replace(w, i, u)) && ReplacedOk(Replace(w, i, u))
  {
    hide HistoryOk, ValidActiveRecord, RecordOk, ValidTransaction, Wrote, VerifySealedTree;
    TipIsWriter(w);
  }

  lemma ReplaceTimes(w: World, i: nat, u: Txn)
    requires TimesOk(w) && HistoryOk(w.txns, w.history) && RecordsOk(w) && i < |w.txns| && Moves(w, i, u)
    ensures TimesOk(Replace(w, i, u))
  {
    hide HistoryOk, ValidTransaction, Wrote, SameBuild, SameBefore, Recorded;
    TipIsWriter(w);
    TimesPast(w);
  }

  lemma TimesPast(w: World)
    requires RecordsOk(w)
    ensures forall j :: 0 <= j < |w.txns| ==> TxnTime(w.txns[j]) < w.clock
  {
    forall j | 0 <= j < |w.txns| ensures TxnTime(w.txns[j]) < w.clock {
      assert RecordOk(w.txns[j], GenTree(w, w.txns[j]), w.clock);
    }
  }

  lemma MovesKeep(w: World, i: nat, u: Txn)
    requires Inv(w) && i < |w.txns| && Moves(w, i, u)
    ensures Inv(Replace(w, i, u))
  {
    hide Distinct, RecordsOk, PointerOk, ActivatingOk, ReplacedOk, TimesOk, AtMostOne, HistoryOk;
    ReplaceDistinct(w, i, u);
    ReplaceRecords(w, i, u);
    HistoryStays(w.txns, i, u.(revision := w.txns[i].revision + 1), w.history);
    ReplacePointer(w, i, u);
    ReplaceTimes(w, i, u);
  }

  // ---------------------------------------------------------------- changing one tree

  /** Only the tree of generation g differs. */
  ghost predicate TreeChanged(w: World, g: string, w': World) {
    && w' == w.(generations := w'.generations)
    && forall h :: h != g ==> TreeOf(w'.generations, h) == TreeOf(w.generations, h)
  }

  /** Generation g belongs to a record, and neither the pointer nor the write before it depends on it. */
  ghost predicate Loose(w: World, k: nat, g: string) {
    && k < |w.txns| && w.txns[k].generationId == g
    && k != TipWriter(w.history) && k != Replaced(w.history)
  }

  lemma TreeChangeKeeps(w: World, k: nat, g: string, w': World)
    requires Inv(w) && TreeChanged(w, g, w') && Loose(w, k, g)
    requires RecordOk(w.txns[k], TreeOf(w'.generations, g), w.clock)
    ensures Inv(w')
  {
    hide VerifySealedTree, BuildTreeOk, ValidTransaction, ValidActiveRecord;
    TipIsWriter(w);
    assert RecordsOk(w') by {
      forall i | 0 <= i < |w.txns| ensures RecordOk(w'.txns[i], GenTree(w', w'.txns[i]), w'.clock) {
        assert RecordOk(w.txns[i], GenTree(w, w.txns[i]), w.clock);
      }
    }
  }

  /** The record a collection retains as the latest superseded one is the one the pointer last replaced. */
  lemma LatestIsReplaced(w: World, latest: int)
    requires Inv(w) && |w.history| >= 2 && LatestAmong(w.txns, ActiveGen(w), |w.txns|, latest)
    ensures latest == Replaced(w.history)
  {
    hide ValidTransaction, RecordsOk, ReplacedOk, ActivatingOk, PointerOk, HistoryOk, DistinctTimes, AtMostOne, Wrote,
      ReadActive;
    TipIsWriter(w);
    PointerReads(w);
    var p, k := Replaced(w.history), TipWriter(w.history);
    assert w.txns[p].generationId != w.txns[k].generationId;
    assert Superseded(w.txns[p], ActiveGen(w));
    assert latest >= 0 && latest != k;
  }

  lemma ReclaimIsLoose(w: World, latest: int, p: Place)
    requires Inv(w) && latest < |w.txns| && LatestAmong(w.txns, ActiveGen(w), |w.txns|, latest)
    requires !Shielded(w, latest, p) && OwnedPlace(w, p) && TreeAt(w, p).Some?
    ensures p.GenerationAt? && exists k: nat :: Loose(w, k, p.generationId) && Terminal(w.txns[k].state)
  {
    hide ValidTransaction, HistoryOk, TimesOk, ActivatingOk, AtMostOne, LatestAmong, RecordOk, PointerOk, ReplacedOk,
      ReadActive;
    var k :| 0 <= k < |w.txns| && Owns(w.txns[k], p);
    PointerReads(w);
    TipIsWriter(w);
    if |w.history| >= 2 { LatestIsReplaced(w, latest); }
    assert Loose(w, k, p.generationId);
    assert !Nonterminal(w.txns[k]);
  }

  lemma TerminalIgnoresTree(t: Txn, found: Option<Tree>, found': Option<Tree>, clock: Time)
    requires RecordOk(t, found, clock) && Terminal(t.state)
    ensures RecordOk(t, found', clock)
  {
  }

  lemma ReclaimKeeps(w: World, latest: int, p: Place, left: Option<Tree>)
    requires Inv(w) && latest < |w.txns| && LatestAmong(w.txns, ActiveGen(w), |w.txns|, latest)
    requires !Shielded(w, latest, p) && OwnedPlace(w, p) && TreeAt(w, p).Some?
    ensures Inv(SetPlace(w, p, left))
  {
    hide Inv, LatestAmong, Shielded, RecordOk;
    ReclaimIsLoose(w, latest, p);
    var k: nat :| Loose(w, k, p.generationId) && Terminal(w.txns[k].state);
    LooseRecord(w, k, p.generationId);
    var w' := SetPlace(w, p, left);
    TerminalIgnoresTree(w.txns[k], GenTree(w, w.txns[k]), TreeOf(w'.generations, p.generationId), w.clock);
    TreeChangeKeeps(w, k, p.generationId, w');
  }

  lemma LooseRecord(w: World, k: nat, g: string)
    requires Inv(w) && Loose(w, k, g)
    ensures k < |w.txns| && RecordOk(w.txns[k], GenTree(w, w.txns[k]), w.clock)
  {
  }

  // ---------------------------------------------------------------- each kind of step

  ghost function Created1(w: World, t: Txn): World {
    w.(txns := w.txns + [t.(revision := 1)], clock := w.clock + 1)
  }

  lemma CreateRecords(w: World, t: Txn)
    requires Distinct(w) && RecordsOk(w) && AtMostOne(w.txns) && ValidTransaction(t) && t.state == Created
    requires FreshRecord(t)
    requires t.updatedAt <= w.clock && w.malformed == [] && Unused(w, t) && !HasNonterminal(w)
    ensures Distinct(Created1(w, t)) && RecordsOk(Created1(w, t)) && AtMostOne(Created1(w, t).txns)
  {
    hide ValidTransaction, VerifySealedTree, BuildTreeOk, Verified;
    var w' := Created1(w, t);
    assert ValidTransaction(t.(revision := 1)) by { RevisionKeepsValid(t, 1); }
    forall i | 0 <= i < |w.txns| ensures RecordOk(w'.txns[i], GenTree(w', w'.txns[i]), w'.clock) {
      assert RecordOk(w.txns[i], GenTree(w, w.txns[i]), w.clock);
    }
  }

  lemma CreatePointer(w: World, t: Txn)
    requires PointerOk(w) && HistoryOk(w.txns, w.history) && ActivatingOk(w) && ReplacedOk(w) && t.state == Created
    ensures var w' := Created1(w, t);
            PointerOk(w') && HistoryOk(w'.txns, w'.history) && ActivatingOk(w') && ReplacedOk(w')
  {
    hide VerifySealedTree, ValidActiveRecord, Recorded, Wrote;
    var w' := Created1(w, t);
    TipIsWriter(w);
    forall n | 0 <= n < |w.history| ensures LinkOk(w'.txns, w'.history, n) { assert LinkOk(w.txns, w.history, n); }
  }

  lemma CreateTimes(w: World, t: Txn)
    requires TimesOk(w) && HistoryOk(w.txns, w.history) && t.state == Created
    ensures TimesOk(Created1(w, t))
  {
    hide HistoryOk;
    TipIsWriter(w);
  }

  lemma CreateKeeps(w: World, t: Txn)
    requires Inv(w) && ValidTransaction(t) && t.state == Created && FreshRecord(t) && t.updatedAt <= w.clock
    requires Unused(w, t) && !HasNonterminal(w)
    ensures Inv(Created1(w, t))
  {
    hide Distinct, RecordsOk, PointerOk, ActivatingOk, ReplacedOk, TimesOk, AtMostOne, HistoryOk, FreshRecord,
      ValidTransaction;
    CreateRecords(w, t);
    CreatePointer(w, t);
    CreateTimes(w, t);
  }

  lemma SwingWrites(w: World, i: nat)
    requires Inv(w) && i < |w.txns| && TreeVerifies(w, w.txns[i]) && ValidActiveRecord(RecordFor(w.txns[i], w.clock))
    ensures var r := RecordFor(w.txns[i], w.clock);
            WriteActive(w, r).world == w.(active := ActiveFile(r), clock := w.clock + 1,
              history := w.history + [PointerWrite(i, ReadActive(w), PointerTo(w.txns[i]))])
  {
    hide ValidActiveRecord, VerifySealedTree, RecordsOk, HistoryOk, PointerOk, ActivatingOk, TimesOk, ReplacedOk,
      AtMostOne;
    IndexFinds(w, i);
    VerifiedIsPublished(w.txns[i], GenTree(w, w.txns[i]));
  }

  lemma SwingHistory(w: World, i: nat)
    requires HistoryOk(w.txns, w.history) && AtMostOne(w.txns) && i < |w.txns| && w.txns[i].state == State.Activating
    requires !Wrote(w.history, i) && Recorded(w.txns[i], Tip(w.history))
    ensures HistoryOk(w.txns, w.history + [PointerWrite(i, Tip(w.history), PointerTo(w.txns[i]))])
  {
    hide Recorded;
    var history := w.history + [PointerWrite(i, Tip(w.history), PointerTo(w.txns[i]))];
    assert history[..|w.history|] == w.history;
    forall n | 0 <= n < |history| ensures LinkOk(w.txns, history, n) {
      if n < |w.history| {
        assert LinkOk(w.txns, w.history, n);
        assert history[..n] == w.history[..n];
        assert Wrote(w.history, w.history[n].writer);
      }
    }
    forall m | 0 <= m < |w.history| ensures w.history[m].writer != i {
      assert w.history[m].writer == i ==> Wrote(w.history, i);
    }
  }

  lemma UnswungActivating(w: World, i: nat)
    requires Inv(w) && i < |w.txns| && w.txns[i].state == State.Activating && !PointerNames(ReadActive(w), w.txns[i])
    ensures TipWriter(w.history) != i && !Wrote(w.history, i) && Recorded(w.txns[i], Tip(w.history))
  {
    hide Distinct, RecordsOk, PointerOk, HistoryOk, ReplacedOk, TimesOk, AtMostOne, Recorded, ReadActive;
    PointerReads(w);
  }

  lemma LaterRecords(w: World, w': World)
    requires RecordsOk(w) && w'.txns == w.txns && w'.generations == w.generations && w'.clock == w.clock + 1
    requires w'.staging == w.staging && w'.failed == w.failed
    ensures RecordsOk(w')
  {
    forall j | 0 <= j < |w.txns| ensures RecordOk(w'.txns[j], GenTree(w', w'.txns[j]), w'.clock) {
      assert RecordOk(w.txns[j], GenTree(w, w.txns[j]), w.clock);
    }
  }

  lemma SwingKeeps(w: World, i: nat)
    requires Inv(w) && i < |w.txns| && w.txns[i].state == State.Activating && TreeVerifies(w, w.txns[i])
    requires !PointerNames(ReadActive(w), w.txns[i]) && ValidActiveRecord(RecordFor(w.txns[i], w.clock))
    ensures Inv(WriteActive(w, RecordFor(w.txns[i], w.clock)).world)
  {
    hide ReadActive, WriteActive, VerifySealedTree, ValidActiveRecord, HistoryOk, Recorded, Wrote, ValidTransaction,
      RecordsOk;
    SwingWrites(w, i);
    UnswungActivating(w, i);
    PointerReads(w);
    TipIsWriter(w);
    SwingHistory(w, i);
    var w' := WriteActive(w, RecordFor(w.txns[i], w.clock)).world;
    LaterRecords(w, w');
    assert Replaced(w'.history) == TipWriter(w.history);
  }

  lemma Unwritten(w: World, i: nat)
    requires HistoryOk(w.txns, w.history) && i < |w.txns| && Nonterminal(w.txns[i])
    requires w.txns[i].state != State.Activating
    ensures !Wrote(w.history, i) && TipWriter(w.history) != i && Replaced(w.history) != i
  {
    hide HistoryOk;
    if Wrote(w.history, i) { WritersAreSwung(w, i); }
    TipIsWriter(w);
  }

  lemma RecordAt(w: World, i: nat)
    requires Inv(w) && i < |w.txns|
    ensures RecordOk(w.txns[i], GenTree(w, w.txns[i]), w.clock) && ValidTransaction(w.txns[i])
  {
  }

  /** BeginBuild, SealRecord, PublishRecord and FailRecord: the record has not touched the pointer. */
  lemma EarlyMoves(cfg: Config, w: World, i: nat, act: Act)
    requires Inv(w) && i < |w.txns| && OnRecord(act) && act.i == i && EnabledOn(cfg, w, w.txns[i], act)
    requires act.BeginBuild? || act.SealRecord? || act.PublishRecord? || act.FailRecord?
    ensures Moves(w, i, Changed(w, w.txns[i], act))
  {
    hide Inv, Names, VerifySealedTree, BuildTreeOk, ValidTxnId, ValidGenId, Wrote;
    RecordAt(w, i);
    InvHistory(w);
    Unwritten(w, i);
  }

  lemma InvHistory(w: World)
    requires Inv(w)
    ensures HistoryOk(w.txns, w.history) && PointerOk(w)
    ensures ReadActive(w) == Tip(w.history)
  {
    hide HistoryOk, PointerOk, ReadActive;
    PointerReads(w);
  }

  lemma TipIsWellFormed(w: World)
    requires Inv(w)
    ensures match Tip(w.history)
            case Missing => true
            case Invalid => false
            case Valid(g, seal, _) => ValidGenId(g) && seal.Sha256?
  {
    hide Distinct, RecordsOk, ActivatingOk, ReplacedOk, TimesOk, AtMostOne, ReadActive;
    PointerReads(w);
    if w.history != [] { VerifiedIsPublished(w.txns[TipWriter(w.history)], GenTree(w, w.txns[TipWriter(w.history)])); }
  }

  lemma MarkMoves(w: World, i: nat, stamp: bool)
    requires Inv(w) && i < |w.txns| && w.txns[i].state == Published
    ensures Moves(w, i, Changed(w, w.txns[i], MarkActive(i, stamp)))
  {
    hide Inv, VerifySealedTree, ValidTxnId, ValidGenId, Wrote, ReadActive;
    RecordAt(w, i);
    InvHistory(w);
    Unwritten(w, i);
    TipIsWellFormed(w);
  }

  lemma StampMoves(w: World, i: nat, at: Time)
    requires Inv(w) && i < |w.txns| && w.txns[i].state == State.Activating && at <= w.clock
    ensures Moves(w, i, Changed(w, w.txns[i], StampActive(i, at)))
  {
    hide Distinct, RecordsOk, PointerOk, HistoryOk, ReplacedOk, TimesOk, AtMostOne, VerifySealedTree, ValidTxnId,
      ValidGenId, Wrote;
    RecordAt(w, i);
  }

  lemma NamedIsTip(w: World, i: nat)
    requires Inv(w) && i < |w.txns| && Names(w, w.txns[i])
    ensures TipWriter(w.history) == i && ReadActive(w) == PointerTo(w.txns[i]) && LoadActive(w).value == w.active.record
  {
    hide RecordsOk, ReplacedOk, TimesOk, AtMostOne, Verified, ValidTransaction, ActivatingOk, ReadActive;
    PointerReads(w);
  }

  lemma CommitMoves(w: World, i: nat)
    requires Inv(w) && i < |w.txns| && w.txns[i].state == State.Activating && Names(w, w.txns[i])
    ensures Moves(w, i, Changed(w, w.txns[i], CommitRecord(i)))
  {
    hide Inv, VerifySealedTree, ValidTxnId, ValidGenId, Wrote, ReadActive, Names;
    RecordAt(w, i);
    NamedIsTip(w, i);
  }

  lemma WriteTreeKeeps(w: World, i: nat, found: Option<Tree>)
    requires Inv(w) && i < |w.txns| && w.txns[i].state == Building
    requires (found.Some? ==> BuildTreeOk(found.value, w.txns[i]))
    ensures Inv(SetPlace(w, GenerationAt(w.txns[i].generationId), found))
  {
    hide Inv, BuildTreeOk, ValidTransaction;
    RecordAt(w, i);
    InvHistory(w);
    Unwritten(w, i);
    var w' := SetPlace(w, GenerationAt(w.txns[i].generationId), found);
    TreeChangeKeeps(w, i, w.txns[i].generationId, w');
  }

  lemma EnvironmentKeeps(w: World, env: Env)
    requires Inv(w)
    ensures Inv(w.(env := env))
  {
    hide VerifySealedTree, BuildTreeOk, ValidTransaction, ValidActiveRecord;
    var w' := w.(env := env);
    assert forall i :: 0 <= i < |w.txns| ==> GenTree(w', w'.txns[i]) == GenTree(w, w.txns[i]);
  }

  /** Every step keeps the invariant. */
  lemma StepKeeps(cfg: Config, w: World, act: Act)
    requires Inv(w) && Enabled(cfg, w, act)
    ensures Inv(After(w, act))
  {
    hide Inv, Moves, ReadActive, WriteActive, CommitObserved, LatestAmong, Shielded, ValidTransaction, FreshRecord,
      Unused, BuildTreeOk, Names, TreeVerifies, Changed, SetPlace, ValidActiveRecord, TreeAt, OwnedPlace, SubTree;
    match act
    case CreateRecord(t) => CreateKeeps(w, t);
    case WriteEnvironment(env) => EnvironmentKeeps(w, env);
    case Reclaim(p, latest, left) => ReclaimKeeps(w, latest, p, left);
    case WriteTree(i, found) => WriteTreeKeeps(w, i, found);
    case SwingPointer(i) => SwingKeeps(w, i);
    case BeginBuild(i) => EarlyMoves(cfg, w, i, act); MovesKeep(w, i, Changed(w, w.txns[i], act));
    case SealRecord(i, _, _) => EarlyMoves(cfg, w, i, act); MovesKeep(w, i, Changed(w, w.txns[i], act));
    case PublishRecord(i) => EarlyMoves(cfg, w, i, act); MovesKeep(w, i, Changed(w, w.txns[i], act));
    case FailRecord(i, _) => EarlyMoves(cfg, w, i, act); MovesKeep(w, i, Changed(w, w.txns[i], act));
    case MarkActive(i, stamp) => MarkMoves(w, i, stamp); MovesKeep(w, i, Changed(w, w.txns[i], act));
    case StampActive(i, at) => StampMoves(w, i, at); MovesKeep(w, i, Changed(w, w.txns[i], act));
    case CommitRecord(i) => CommitMoves(w, i); MovesKeep(w, i, Changed(w, w.txns[i], act));
  }

  lemma {:induction false} RunKeeps(cfg: Config, w: World, acts: seq<Act>, w': World)
    requires Inv(w) && Run(cfg, w, acts, w')
    ensures Inv(w')
    decreases |acts|
  {
    hide Inv, Enabled, After;
    if acts != [] {
      StepKeeps(cfg, w, acts[0]);
      RunKeeps(cfg, After(w, acts[0]), acts[1..], w');
    }
  }

  /** The invariant holds after any number of processes, whatever environment each of them met. */
  lemma {:induction false} SessionsKeep(w: World, sessions: seq<Session>, w': World)
    requires Inv(w) && Sessions(w, sessions, w')
    ensures Inv(w')
    decreases |sessions|
  {
    hide Inv, Run, Replay;
    if sessions != [] {
      var w1 := Replay(w, sessions[0].acts);
      RunKeeps(sessions[0].cfg, w, sessions[0].acts, w1);
      SessionsKeep(w1, sessions[1..], w');
    }
  }

  lemma {:induction false} RunsCompose(cfg: Config, w: World, a: seq<Act>, w1: World, b: seq<Act>, w2: World)
    requires Run(cfg, w, a, w1) && Run(cfg, w1, b, w2)
    ensures Run(cfg, w, a + b, w2)
    decreases |a|
  {
    hide Enabled, After;
    if a == [] {
      assert a + b == b;
    } else {
      assert (a + b)[1..] == a[1..] + b;
      RunsCompose(cfg, After(w, a[0]), a[1..], w1, b, w2);
    }
  }
}
