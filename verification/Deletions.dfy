/** Which trees a collection deletes, told by the files in them and the records beside them. */
module Deletions {
  import opened InstallTypes
  import opened Seal
  import opened World
  import opened Collector
  import opened Runs
  import opened Safety

  // ---------------------------------------------------------------- what identifies a tree

  /** The record carries the digests of a seal. */
  predicate HasSeal(t: Txn) {
    t.manifestSha != NoDigest && t.sealSha != NoDigest
  }

  /** generation.json is there and can be read. */
  ghost predicate SaysGeneration(tree: Tree) {
    && FILE_GENERATION in tree
    && exists rec :: tree[FILE_GENERATION] == GenerationJson(rec) && rec.generationId != ""
  }

  /** Both seal files hash to the digests of the record. */
  predicate HashesToSeal(tree: Tree, t: Txn) {
    && FILE_MANIFEST in tree && FILE_GENERATION in tree
    && Sha256(tree[FILE_MANIFEST]) == t.manifestSha && Sha256(tree[FILE_GENERATION]) == t.sealSha
  }

  /** A candidate record of this transaction and this generation, well formed. */
  ghost predicate HoldsCandidate(tree: Tree, t: Txn) {
    && FILE_CANDIDATE in tree
    && exists kind, at :: tree[FILE_CANDIDATE] == CandidateJson(CandidateRecord(t.id, t.generationId, kind, at))
                          && kind != ""
  }

  /** The tree of an unsealed record: its generation record, or else its candidate, names the record. */
  lemma UnsealedIsProven(tree: Tree, t: Txn)
    requires !HasSeal(t) && ValidTransaction(t)
    ensures LineageProven(tree, t) <==>
              if SaysGeneration(tree) then
                && tree[FILE_GENERATION].generation.generationId == t.generationId
                && tree[FILE_GENERATION].generation.transactionId == t.id
              else HoldsCandidate(tree, t)
  {
    assert SaysGeneration(tree) <==> ReadsGeneration(tree) by {
      if ReadsGeneration(tree) { assert tree[FILE_GENERATION] == GenerationJson(tree[FILE_GENERATION].generation); }
    }
    if FILE_CANDIDATE in tree && tree[FILE_CANDIDATE].CandidateJson? {
      var rec := tree[FILE_CANDIDATE].candidate;
      assert rec == CandidateRecord(rec.transactionId, rec.generationId, rec.runtimeKind, rec.createdAt);
    }
  }

  /** The tree of a record sealed on some tree is proven exactly by the hashes of its two seal files. */
  lemma SealedIsProven(tree: Tree, t: Txn, sealed: Tree)
    requires Verified(t, Some(sealed))
    ensures HasSeal(t) && (LineageProven(tree, t) <==> HashesToSeal(tree, t))
  {
    hide Listing;
  }

  // ---------------------------------------------------------------- on any disk

  /** What a record must be able to show for a tree before the tree may be deleted. */
  ghost predicate ShownBy(tree: Tree, t: Txn) {
    || (HasSeal(t) && HashesToSeal(tree, t))
    || (!HasSeal(t) && SaysGeneration(tree)
        && tree[FILE_GENERATION].generation.generationId == t.generationId
        && tree[FILE_GENERATION].generation.transactionId == t.id)
    || (!HasSeal(t) && !SaysGeneration(tree) && HoldsCandidate(tree, t))
  }

  lemma ProvenIsShown(tree: Tree, t: Txn)
    requires ValidTransaction(t) && LineageProven(tree, t)
    ensures ShownBy(tree, t)
  {
    if !HasSeal(t) { UnsealedIsProven(tree, t); }
  }

  /**
   * Only what a record can show is deleted: on any disk, a tree a collection removes stands where the record leaves its
   * trees, and holds the seal files of its digests, or, without digests, its generation record or its candidate.
   */
  lemma OnlyShownTreesGo(w: World, p: Place)
    requires Filed(w) && TreeAt(Collect(w), p) != TreeAt(w, p)
    ensures TreeAt(w, p).Some? && TreeAt(Collect(w), p).None?
    ensures exists i :: 0 <= i < |w.txns| && Owns(w.txns[i], p) && ShownBy(TreeAt(w, p).value, w.txns[i])
  {
    hide LineageProven, ShownBy, Protected, Superseded, ValidTransaction;
    var c, h := LatestCommitted(w.txns, ActiveGen(w), |w.txns|), LatestHit(w, |w.txns|);
    CollectedPlaces(w, c, h, p);
    var i :| 0 <= i < |w.txns| && ProvenAt(w, w.txns[i], p);
    ProvenIsShown(TreeAt(w, p).value, w.txns[i]);
  }

  /**
   * What a collection never touches, on any disk: the active generation, and the staging and generation trees of every
   * record in flight.
   */
  lemma NeededTreesStay(w: World, i: nat)
    requires i < |w.txns| && Nonterminal(w.txns[i])
    ensures TreeOf(Collect(w).staging, w.txns[i].id) == TreeOf(w.staging, w.txns[i].id)
    ensures TreeOf(Collect(w).generations, w.txns[i].generationId) == TreeOf(w.generations, w.txns[i].generationId)
    ensures ReadActive(w).Valid? ==>
              TreeOf(Collect(w).generations, ReadActive(w).generationId)
              == TreeOf(w.generations, ReadActive(w).generationId)
  {
    hide ReadActive, Candidate, Superseded;
    var c, h := LatestCommitted(w.txns, ActiveGen(w), |w.txns|), LatestHit(w, |w.txns|);
    CollectedPlaces(w, c, h, StagingAt(w.txns[i].id));
    CollectedPlaces(w, c, h, GenerationAt(w.txns[i].generationId));
    if ReadActive(w).Valid? { CollectedPlaces(w, c, h, GenerationAt(ReadActive(w).generationId)); }
  }

  // ---------------------------------------------------------------- on reachable disks

  /** The generation tree of record i is on disk and proven. */
  predicate HasProven(w: World, i: int) {
    0 <= i < |w.txns| && GenTree(w, w.txns[i]).Some? && LineageProven(GenTree(w, w.txns[i]).value, w.txns[i])
  }

  ghost predicate Gone(w: World, i: int) {
    0 <= i < |w.txns| && GenTree(w, w.txns[i]).Some? && GenTree(Collect(w), w.txns[i]).None?
  }

  lemma CandidateIsProven(w: World, i: nat)
    requires Distinct(w) && i < |w.txns|
    ensures Candidate(w, GenerationAt(w.txns[i].generationId)) <==> HasProven(w, i)
  {
    hide LineageProven, Filed;
    var p := GenerationAt(w.txns[i].generationId);
    if HasProven(w, i) { assert ProvenAt(w, w.txns[i], p); }
  }

  /** active.json names the generation of record i. */
  predicate PointsAt(w: World, i: nat)
    requires i < |w.txns|
  {
    ReadActive(w).Valid? && ReadActive(w).generationId == w.txns[i].generationId
  }

  /** Another COMMITTED record that is not the active one committed after record i. */
  ghost predicate LaterCommitted(w: World, i: nat)
    requires i < |w.txns|
  {
    exists j: nat :: j < |w.txns| && w.txns[j].state == State.Committed && !PointsAt(w, j)
                     && TxnTime(w.txns[i]) < TxnTime(w.txns[j])
  }

  /** Another FAILED record failed after record i, and its tree is proven. */
  ghost predicate LaterFailed(w: World, i: nat)
    requires i < |w.txns|
  {
    exists j: nat :: j < |w.txns| && w.txns[j].state == State.Failed && HasProven(w, j)
                     && TxnTime(w.txns[i]) < TxnTime(w.txns[j])
  }

  lemma GoneIsDoomed(w: World, i: nat, c: int, h: Option<Hit>)
    requires Distinct(w) && i < |w.txns| && GenTree(w, w.txns[i]).Some?
    requires c == LatestCommitted(w.txns, ActiveGen(w), |w.txns|) && h == LatestHit(w, |w.txns|)
    ensures var p := GenerationAt(w.txns[i].generationId);
            Gone(w, i) <==> HasProven(w, i) && !Protected(w, c, h, p)
  {
    hide LineageProven, Distinct, Protected, Candidate, Superseded, ReadActive;
    var p := GenerationAt(w.txns[i].generationId);
    CollectedPlaces(w, c, h, p);
    CandidateIsProven(w, i);
    assert TreeAt(w, p) == GenTree(w, w.txns[i]) && TreeAt(Collect(w), p) == GenTree(Collect(w), w.txns[i]);
  }

  /** Among records of distinct times the choice by time is this record exactly when no other one is later. */
  lemma ChoiceIsLatest(w: World, i: nat, c: int)
    requires Inv(w) && i < |w.txns| && w.txns[i].state == State.Committed && !PointsAt(w, i)
    requires LatestAmong(w.txns, ActiveGen(w), |w.txns|, c)
    ensures 0 <= c < |w.txns| && (c == i <==> !LaterCommitted(w, i))
  {
    hide Distinct, PointerOk, HistoryOk, ReplacedOk, ActivatingOk, AtMostOne, RecordsOk, ReadActive;
    GenerationNonempty(w, i);
    assert Superseded(w.txns[i], ActiveGen(w));
    if c != i {
      CommittedOff(w, c);
      assert TxnTime(w.txns[i]) < TxnTime(w.txns[c]);
    } else {
      forall j: nat | j < |w.txns| && w.txns[j].state == State.Committed && !PointsAt(w, j)
        ensures TxnTime(w.txns[j]) <= TxnTime(w.txns[i])
      {
        GenerationNonempty(w, j);
        assert Superseded(w.txns[j], ActiveGen(w));
      }
    }
  }

  lemma CommittedOff(w: World, c: int)
    requires 0 <= c < |w.txns| && Superseded(w.txns[c], ActiveGen(w))
    ensures w.txns[c].state == State.Committed && !PointsAt(w, c)
  {
    hide ReadActive;
  }

  /** A committed generation goes exactly when it is proven, not active, and not the latest of those. */
  lemma CommittedGoes(w: World, i: nat)
    requires Inv(w) && i < |w.txns| && w.txns[i].state == State.Committed && GenTree(w, w.txns[i]).Some?
    ensures Gone(w, i) <==> HasProven(w, i) && !PointsAt(w, i) && LaterCommitted(w, i)
  {
    hide Inv, ReadActive, LatestAmong, LaterCommitted, HasProven, Gone, IsHit;
    var c, h := LatestCommitted(w.txns, ActiveGen(w), |w.txns|), LatestHit(w, |w.txns|);
    InvSingle(w);
    GoneIsDoomed(w, i, c, h);
    LatestHitIsLatest(w, |w.txns|);
    if h.Some? { HitOff(w, i, h.value); }
    TerminalPlace(w, i);
    if !PointsAt(w, i) { ChoiceIsLatest(w, i, c); }
  }

  lemma HitOff(w: World, i: nat, h: Hit)
    requires Distinct(w) && i < |w.txns| && w.txns[i].state != State.Failed && IsHit(w, h)
    ensures h.place != GenerationAt(w.txns[i].generationId)
  {
    hide LineageProven, Filed;
  }

  lemma TerminalPlace(w: World, i: nat)
    requires Distinct(w) && i < |w.txns| && Terminal(w.txns[i].state)
    ensures forall j :: 0 <= j < |w.txns| && Nonterminal(w.txns[j]) ==>
              w.txns[j].generationId != w.txns[i].generationId
  {
    hide Filed;
  }

  /** A failed build goes exactly when it is proven and a later failed build is proven too. */
  lemma FailedGoes(w: World, i: nat)
    requires Inv(w) && i < |w.txns| && w.txns[i].state == State.Failed && GenTree(w, w.txns[i]).Some?
    ensures Gone(w, i) <==> HasProven(w, i) && LaterFailed(w, i)
  {
    hide Inv, ReadActive, LatestAmong, LaterFailed, HasProven, Gone, IsHit, Superseded;
    var c, h := LatestCommitted(w.txns, ActiveGen(w), |w.txns|), LatestHit(w, |w.txns|);
    InvSingle(w);
    GoneIsDoomed(w, i, c, h);
    TerminalPlace(w, i);
    FailedUnnamed(w, i);
    LatestHitIsLatest(w, |w.txns|);
    if HasProven(w, i) { HitIsLatestFailed(w, i, h); }
    if c >= 0 { ChoiceOff(w, i, c); }
  }

  lemma ChoiceOff(w: World, i: nat, c: int)
    requires Distinct(w) && i < |w.txns| && w.txns[i].state == State.Failed
    requires 0 <= c && LatestAmong(w.txns, ActiveGen(w), |w.txns|, c)
    ensures c < |w.txns| && w.txns[c].generationId != w.txns[i].generationId
  {
    hide Filed, ReadActive;
  }

  lemma FailedUnnamed(w: World, i: nat)
    requires Inv(w) && i < |w.txns| && w.txns[i].state == State.Failed
    ensures !PointsAt(w, i)
  {
    hide Inv, ReadActive;
    if PointsAt(w, i) {
      PointerSafe(w);
      InvSingle(w);
    }
  }

  lemma HitIsLatestFailed(w: World, i: nat, h: Option<Hit>)
    requires Inv(w) && i < |w.txns| && w.txns[i].state == State.Failed && HasProven(w, i)
    requires LatestHitAmong(w, |w.txns|, h)
    ensures h.Some? && (h.value.place == GenerationAt(w.txns[i].generationId) <==> !LaterFailed(w, i))
  {
    hide PointerOk, HistoryOk, ReplacedOk, ActivatingOk, AtMostOne, LineageProven, RecordOk, Filed;
    assert IsHit(w, Hit(i, GenerationAt(w.txns[i].generationId)));
    var k := h.value;
    HitHasProven(w, k);
    if k.owner != i {
      assert TxnTime(w.txns[i]) < TxnTime(w.txns[k.owner]);
      assert LaterFailed(w, i);
    } else {
      forall j: nat | j < |w.txns| && w.txns[j].state == State.Failed && HasProven(w, j)
        ensures TxnTime(w.txns[j]) <= TxnTime(w.txns[i])
      {
        assert IsHit(w, Hit(j, GenerationAt(w.txns[j].generationId)));
      }
    }
  }

  lemma HitHasProven(w: World, k: Hit)
    requires Inv(w) && IsHit(w, k)
    ensures k.place == GenerationAt(w.txns[k.owner].generationId) && HasProven(w, k.owner)
  {
    hide Distinct, PointerOk, HistoryOk, ReplacedOk, ActivatingOk, AtMostOne, LineageProven, RecordOk, TimesOk;
  }

  // ---------------------------------------------------------------- told by files alone

  /** A build that failed before it was sealed and left its candidate record. */
  predicate FailedBuild(w: World, i: nat)
    requires i < |w.txns|
  {
    var t := w.txns[i];
    && t.state == State.Failed && t.manifestSha == NoDigest && t.sealSha == NoDigest
    && t.generationId in w.generations && FILE_GENERATION !in w.generations[t.generationId]
    && FILE_CANDIDATE in w.generations[t.generationId]
    && w.generations[t.generationId][FILE_CANDIDATE] == CandidateOf(t)
  }

  lemma FailedBuildIsProven(w: World, i: nat)
    requires Inv(w) && i < |w.txns| && FailedBuild(w, i)
    ensures HasProven(w, i)
  {
    hide Inv, LineageProven, ValidTransaction;
    RecordAt(w, i);
    var t, tree := w.txns[i], w.generations[w.txns[i].generationId];
    UnsealedIsProven(tree, t);
    KindNonempty(t);
  }

  lemma KindNonempty(t: Txn)
    requires ValidTransaction(t)
    ensures t.runtimeKind != ""
  {
  }

  /** Of two failed builds the older one is deleted; the last one is kept. */
  lemma OlderFailedBuildGoes(w0: World, past: seq<Session>, w: World, i: nat, j: nat)
    requires Initial(w0) && Sessions(w0, past, w) && i < |w.txns| && j < |w.txns|
    requires FailedBuild(w, i) && FailedBuild(w, j) && TxnTime(w.txns[i]) < TxnTime(w.txns[j])
    ensures w.txns[i].generationId !in Collect(w).generations
    ensures (forall k: nat :: k < |w.txns| && w.txns[k].state == State.Failed ==>
               TxnTime(w.txns[k]) <= TxnTime(w.txns[j])) ==>
            GenTree(Collect(w), w.txns[j]) == GenTree(w, w.txns[j])
  {
    hide Sessions, Inv, HasProven, Collect, FailedBuild, LaterFailed;
    InitialInv(w0);
    SessionsKeep(w0, past, w);
    FailedBuildOnDisk(w, i);
    FailedBuildOnDisk(w, j);
    FailedBuildIsProven(w, i);
    FailedBuildIsProven(w, j);
    assert LaterFailed(w, i) by { LaterThan(w, i, j); }
    FailedGoes(w, i);
    FailedGoes(w, j);
    CollectedOrSame(w, j);
    if LaterFailed(w, j) { SomeLater(w, j); }
  }

  lemma FailedBuildOnDisk(w: World, i: nat)
    requires i < |w.txns| && FailedBuild(w, i)
    ensures w.txns[i].state == State.Failed && GenTree(w, w.txns[i]).Some?
  {
  }

  lemma LaterThan(w: World, i: nat, j: nat)
    requires i < |w.txns| && j < |w.txns| && w.txns[j].state == State.Failed && HasProven(w, j)
    requires TxnTime(w.txns[i]) < TxnTime(w.txns[j])
    ensures LaterFailed(w, i)
  {
    hide HasProven;
  }

  lemma SomeLater(w: World, i: nat)
    requires i < |w.txns| && LaterFailed(w, i)
    ensures exists k: nat :: k < |w.txns| && w.txns[k].state == State.Failed && TxnTime(w.txns[i]) < TxnTime(w.txns[k])
  {
    hide HasProven;
  }

  lemma CollectedOrSame(w: World, i: nat)
    requires i < |w.txns|
    ensures GenTree(Collect(w), w.txns[i]).None? || GenTree(Collect(w), w.txns[i]) == GenTree(w, w.txns[i])
  {
    hide Doomed;
  }

  /**
   * A committed generation that was sealed goes exactly when it still holds the two files of its seal, is not the
   * active one, and another one that is not active committed later.
   */
  lemma SupersededGenerationGoes(w0: World, past: seq<Session>, w: World, i: nat, sealed: Tree)
    requires Initial(w0) && Sessions(w0, past, w) && i < |w.txns| && w.txns[i].state == State.Committed
    requires Verified(w.txns[i], Some(sealed)) && w.txns[i].generationId in w.generations
    ensures w.txns[i].generationId !in Collect(w).generations <==>
              && HashesToSeal(w.generations[w.txns[i].generationId], w.txns[i])
              && !PointsAt(w, i) && LaterCommitted(w, i)
  {
    hide Sessions, Inv, Collect, LaterCommitted, VerifySealedTree, LineageProven, HashesToSeal, ReadActive;
    InitialInv(w0);
    SessionsKeep(w0, past, w);
    CommittedGoes(w, i);
    SealedIsProven(w.generations[w.txns[i].generationId], w.txns[i], sealed);
  }
}
