/** What a save, a look at a tree and a scan of the root mean on any disk, told by the records and files on it. */
module Records {
  import opened InstallTypes
  import opened Seal
  import opened World
  import opened Collector
  import opened Recovery
  import opened Deletions

  // ---------------------------------------------------------------- saving

  /** The disk holds the record under this identifier at this revision; revision 0 means that there is none. */
  predicate AtRevision(w: World, id: string, revision: nat) {
    if revision == 0 then
      || (forall i :: 0 <= i < |w.txns| ==> w.txns[i].id != id)
      || exists i :: 0 <= i < |w.txns| && w.txns[i].id == id && w.txns[i].revision == 0
    else exists i :: 0 <= i < |w.txns| && w.txns[i].id == id && w.txns[i].revision == revision
  }

  /** The only record that differs is the one saved: in its old place, or as a new one at the end. */
  predicate SavedAs(w: World, t: Txn, w': World) {
    var saved := t.(revision := t.revision + 1);
    && w' == w.(txns := w'.txns, clock := w.clock + 1)
    && ((exists i :: 0 <= i < |w.txns| && w.txns[i].id == t.id && w'.txns == w.txns[i := saved])
        || ((forall i :: 0 <= i < |w.txns| ==> w.txns[i].id != t.id) && w'.txns == w.txns + [saved]))
  }

  /**
   * A save goes through exactly for a valid record, whose file is not malformed, over the very revision it was read at;
   * then the record is there with the next revision, and otherwise nothing changes.
   */
  lemma SaveExactly(w: World, t: Txn)
    requires Filed(w)
    ensures Save(w, t).ok <==> ValidTransaction(t) && t.id !in w.malformed && AtRevision(w, t.id, t.revision)
    ensures if Save(w, t).ok then SavedAs(w, t, Save(w, t).world) else Save(w, t).world == w
  {
    hide ValidTransaction, Save, Filed;
    if exists i :: 0 <= i < |w.txns| && w.txns[i].id == t.id {
      var i :| 0 <= i < |w.txns| && w.txns[i].id == t.id;
      SaveOver(w, i, t);
    } else {
      SaveNew(w, t);
    }
  }

  lemma SaveOver(w: World, i: nat, t: Txn)
    requires Filed(w) && i < |w.txns| && w.txns[i].id == t.id
    ensures forall j :: 0 <= j < |w.txns| && w.txns[j].id == t.id ==> j == i
    ensures Save(w, t).ok <==> ValidTransaction(t) && t.id !in w.malformed && w.txns[i].revision == t.revision
    ensures Save(w, t).world ==
              if Save(w, t).ok then w.(txns := w.txns[i := t.(revision := t.revision + 1)], clock := w.clock + 1) else w
  {
    hide ValidTransaction;
    IndexFinds(w, i);
  }

  lemma SaveNew(w: World, t: Txn)
    requires forall i :: 0 <= i < |w.txns| ==> w.txns[i].id != t.id
    ensures Save(w, t).ok <==> ValidTransaction(t) && t.id !in w.malformed && t.revision == 0
    ensures Save(w, t).world ==
              if Save(w, t).ok then w.(txns := w.txns + [t.(revision := t.revision + 1)], clock := w.clock + 1) else w
  {
    hide ValidTransaction;
  }

  /**
   * persist reports success exactly when the save went through, or the record on disk is newer than the caller's; in
   * the second case nothing is written and the caller is handed the newer record.
   */
  lemma PersistExactly(w: World, t: Txn)
    requires Filed(w)
    ensures var e := Persist(w, t); var found := Load(w, t.id);
            && (e.ok <==> Save(w, t).ok || (found.Some? && found.value.revision > t.revision))
            && (Save(w, t).ok ==> SavedAs(w, t, e.world) && e.txn == t.(revision := t.revision + 1))
            && (!Save(w, t).ok ==> e.world == w && e.txn == if e.ok then found.value else t)
  {
    hide Filed, AtRevision;
    SaveExactly(w, t);
    if Save(w, t).ok { SavedLoads(w, t, Save(w, t).world); }
  }

  lemma SavedLoads(w: World, t: Txn, w': World)
    requires Filed(w) && SavedAs(w, t, w') && t.id !in w.malformed
    ensures Load(w', t.id) == Some(t.(revision := t.revision + 1))
  {
    var k := IndexOf(w'.txns, t.id);
    if i :| 0 <= i < |w.txns| && w.txns[i].id == t.id && w'.txns == w.txns[i := t.(revision := t.revision + 1)] {
      assert w'.txns[i].id == t.id;
      assert k >= 0 && w.txns[k].id == t.id;
    } else {
      assert w'.txns[|w.txns|].id == t.id;
    }
  }

  // ---------------------------------------------------------------- looking

  /**
   * What is seen of a tree: it is sealed exactly when the full check passes for the digests of the record; its lineage
   * matches when it is sealed, or by its generation record, or, with none that can be read, by a candidate record of
   * this very transaction and generation.
   */
  lemma SeenTree(tree: Tree, t: Txn)
    requires ValidTransaction(t)
    ensures var seen := ObserveTree(Some(tree), t);
            && seen.present && (seen.empty <==> tree == map[])
            && (seen.sealed <==> HasSeal(t) && VerifySealedTree(tree, t.generationId, t.manifestSha, t.sealSha))
            && (seen.lineageMatch <==>
                  || seen.sealed
                  || (if SaysGeneration(tree) then tree[FILE_GENERATION].generation.generationId == t.generationId
                      else HoldsCandidate(tree, t)))
  {
    hide Listing;
    assert SaysGeneration(tree) <==> ReadsGeneration(tree) by {
      if ReadsGeneration(tree) { assert tree[FILE_GENERATION] == GenerationJson(tree[FILE_GENERATION].generation); }
    }
    if FILE_CANDIDATE in tree && tree[FILE_CANDIDATE].CandidateJson? {
      var rec := tree[FILE_CANDIDATE].candidate;
      assert rec == CandidateRecord(rec.transactionId, rec.generationId, rec.runtimeKind, rec.createdAt);
    }
  }

  /** The scan notes nothing exactly when every directory under generations/ and staging/ belongs to a record. */
  lemma NothingUnknown(w: World)
    ensures UnknownDirectories(w) == {} <==>
              && w.strange == {}
              && (forall g :: g in w.generations ==> exists i :: 0 <= i < |w.txns| && w.txns[i].generationId == g)
              && (forall s :: s in w.staging ==> exists i :: 0 <= i < |w.txns| && w.txns[i].id == s)
  {
    if UnknownDirectories(w) == {} {
      forall g | g in w.generations ensures !NoRecordOwns(w, g) {
        assert NoRecordOwns(w, g) ==> "generations/" + g in UnknownDirectories(w);
      }
      forall s | s in w.staging ensures exists i :: 0 <= i < |w.txns| && w.txns[i].id == s {
        assert (forall i :: 0 <= i < |w.txns| ==> w.txns[i].id != s) ==> "staging/" + s in UnknownDirectories(w);
      }
    }
  }

  // ---------------------------------------------------------------- the seal of a tree

  /**
   * A seal that disagrees with itself is refused, whatever its files hash to: a generation record of another
   * generation, another place or another manifest, or a manifest of another schema.
   */
  lemma DisagreeingSealIsRefused(tree: Tree, generationId: string, manifestSha: Digest, sealSha: Digest)
    requires FILE_GENERATION in tree && tree[FILE_GENERATION].GenerationJson?
    requires FILE_MANIFEST in tree && tree[FILE_MANIFEST].ManifestJson?
    ensures var rec := tree[FILE_GENERATION].generation;
            rec.generationId != generationId || rec.generationRelativePath != "generations/" + generationId
            || rec.manifestSha != Sha256(tree[FILE_MANIFEST]) || Sha256(tree[FILE_MANIFEST]) != manifestSha
            || Sha256(tree[FILE_GENERATION]) != sealSha ==>
              !VerifyPublished(tree, generationId, manifestSha, sealSha)
    ensures tree[FILE_MANIFEST].manifest.schema != 1
            || Listing(Payload(tree)) != tree[FILE_MANIFEST].manifest.entries ==>
              !VerifySealedTree(tree, generationId, manifestSha, sealSha)
  {
  }

  // ---------------------------------------------------------------- which time counts

  /** A committed record counts by its commit, not by its last save. */
  lemma CommitTimeDecides(w: World, i: nat, j: nat)
    requires i < |w.txns| && j < |w.txns| && !PointsAt(w, j) && w.txns[j].generationId != ""
    requires w.txns[i].state == State.Committed && w.txns[j].state == State.Committed
    requires w.txns[i].committedAt.Some? && w.txns[j].committedAt.Some?
    requires w.txns[i].committedAt.value < w.txns[j].committedAt.value
    ensures LatestCommitted(w.txns, ActiveGen(w), |w.txns|) != i
  {
    hide ReadActive;
    assert Superseded(w.txns[j], ActiveGen(w));
  }
}
