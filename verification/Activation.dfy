/** What an activation leaves, and exactly when it succeeds, on any disk. */
module Activation {
  import opened InstallTypes
  import opened Seal
  import opened World
  import opened Recovery
  import opened Reconcile
  import opened Runs
  import opened Safety
  import opened Convergence
  import opened Evidence
  import opened Losses

  /** The record a swing leaves in active.json, field by field. */
  lemma SwingWritesFields(w: World, t: Txn)
    ensures var e := Swing(w, t);
            if e.ok && !PointerNames(ReadActive(w), t) then
              && e.world.active.ActiveFile? && WrittenBy(e.world.active.record, t)
              && e.world.active.record.activatedAt == w.clock
            else PointerNames(ReadActive(w), t) ==> e.world == w
  {
    hide ReadActive, TreeVerifies, CasAllows, ValidTransaction;
  }

  lemma MarkKeepsActive(w: World, i: nat, t: Txn)
    requires Filed(w) && i < |w.txns| && SameBuild(w.txns[i], t)
    ensures var e := MarkActivating(w, t);
            && e.world.active == w.active && e.world.generations == w.generations && w.clock <= e.world.clock
            && SameBuild(t, e.txn)
  {
    hide ValidTransaction, Kept, Filed;
    MarkKept(w, i, t);
    KeptFiled(w, MarkActivating(w, t).world, []);
    KeptLength(w, MarkActivating(w, t).world);
  }

  lemma SamePointerRead(w: World, w': World)
    requires w'.active == w.active && w'.generations == w.generations
    ensures ReadActive(w') == ReadActive(w)
  {
  }

  /** After an activation active.json is as before, when it named the record, or holds the record field by field. */
  lemma ActivateWritesFields(w: World, i: nat)
    requires Filed(w) && i < |w.txns|
    ensures var t := w.txns[i]; var e := ActivateTxn(w, t);
            && (e.ok && PointerNames(ReadActive(w), t) ==> e.world.active == w.active)
            && (e.ok && !PointerNames(ReadActive(w), t) ==>
                  && e.world.active.ActiveFile? && WrittenBy(e.world.active.record, t)
                  && w.clock <= e.world.active.record.activatedAt)
  {
    hide Swing, MarkActivating, ReadActive, TreeVerifies, Filed;
    var t := w.txns[i];
    var u := SnapshotBefore(t, ReadActive(w));
    MarkKeepsActive(w, i, t);
    MarkKeepsActive(w, i, u);
    SwingWritesFields(w, t);
    var marked := MarkActivating(w, u);
    SamePointerRead(w, marked.world);
    SwingWritesFields(marked.world, marked.txn);
  }

  /** After the compare passed: exactly when the swing goes through, and what it leaves. */
  lemma SwingExactly(w: World, i: nat)
    requires Filed(w) && i < |w.txns| && TreeVerifies(w, w.txns[i]) && w.txns[i].state == State.Activating
    ensures var t := w.txns[i]; var e := Swing(w, t); var p := ReadActive(w);
            && (e.ok <==> !p.Invalid? && (PointerNames(p, t) || (CasAllows(t, p) && Pinned(t))))
            && (!e.ok ==> e.world == w)
            && (e.ok ==> ActivatedAs(e.world, i, t))
            && (e.ok && !PointerNames(p, t) ==> e.world.txns[i].activatedAt.Some?)
  {
    hide ReadActive, VerifySealedTree, CasAllows, Persist, ValidTransaction, Blank, Filed, WriteActive,
      ValidActiveRecord, Pinned;
    var t := w.txns[i];
    var r := RecordFor(t, w.clock);
    IndexFinds(w, i);
    PinnedIsWritable(t, w.clock, GenTree(w, t));
    if Pinned(t) {
      WriteSucceeds(w, r);
      WrittenReads(w, i);
      var written := WriteActive(w, r).world;
      WrittenIsTwin(w, r);
      var u := t.(activatedAt := Some(w.clock), updatedAt := w.clock);
      assert ValidTransaction(u) by { StampIsValid(t, w.clock); }
      PersistReplaces(written, i, u);
      SamePointerRead(written, Replace(written, i, u));
    } else {
      WriteRefuses(w, r);
    }
  }

  lemma WrittenReads(w: World, i: nat)
    requires i < |w.txns| && TreeVerifies(w, w.txns[i]) && ValidActiveRecord(RecordFor(w.txns[i], w.clock))
    ensures ReadActive(WriteActive(w, RecordFor(w.txns[i], w.clock)).world) == PointerTo(w.txns[i])
  {
    VerifiedIsPublished(w.txns[i], GenTree(w, w.txns[i]));
  }

  /** Record i is ACTIVATING, with its build as before, and active.json names it. */
  ghost predicate ActivatedAs(w: World, i: nat, t: Txn) {
    && i < |w.txns| && w.txns[i].state == State.Activating && SameBuild(t, w.txns[i])
    && PointerNames(ReadActive(w), t)
  }

  /** A PUBLISHED record is marked with the pointer as its predecessor, so its compare always passes. */
  lemma MarkedPublished(w: World, i: nat)
    requires Filed(w) && i < |w.txns| && w.txns[i].state == Published && TreeVerifies(w, w.txns[i])
    requires !ReadActive(w).Invalid? && !PointerNames(ReadActive(w), w.txns[i])
    ensures var t := w.txns[i]; var u := SnapshotBefore(t, ReadActive(w)); var e := MarkActivating(w, u);
            && e.ok && Filed(e.world) && i < |e.world.txns| && e.txn == e.world.txns[i] && SameBuild(t, e.txn)
            && e.txn.state == State.Activating && TreeVerifies(e.world, e.txn) && CasAllows(e.txn, ReadActive(e.world))
            && ReadActive(e.world) == ReadActive(w)
  {
    hide VerifySealedTree, ValidTransaction, Persist, Kept, Filed;
    var t := w.txns[i];
    var u := SnapshotBefore(t, ReadActive(w));
    var v := u.(state := State.Activating, updatedAt := w.clock,
        activatedAt := if u.activatedAt.None? then Some(w.clock) else u.activatedAt);
    IndexFinds(w, i);
    SnapshotIsValid(w, t, v);
    PersistReplaces(w, i, v);
    MarkKept(w, i, u);
    KeptFiled(w, MarkActivating(w, u).world, []);
    SamePointerRead(w, MarkActivating(w, u).world);
  }

  lemma SnapshotIsValid(w: World, t: Txn, v: Txn)
    requires ValidTransaction(t) && !ReadActive(w).Invalid?
    requires v == SnapshotBefore(t, ReadActive(w)).(state := v.state, updatedAt := v.updatedAt,
                    activatedAt := v.activatedAt)
    ensures ValidTransaction(v)
  {
  }

  /**
   * Activation on any disk: it succeeds exactly for a PUBLISHED or ACTIVATING record whose tree verifies, under a
   * pointer that is readable, when active.json names the record already, or accepts it and, for an ACTIVATING one,
   * reads as the predecessor the record expects. Then the record is ACTIVATING, dated and named; otherwise
   * active.json is as it was.
   */
  lemma ActivateExactly(w: World, i: nat)
    requires Filed(w) && i < |w.txns|
    ensures var t := w.txns[i]; var a := ActivateTxn(w, t); var p := ReadActive(w);
            && (a.ok <==>
                  && (t.state == Published || t.state == State.Activating) && TreeVerifies(w, t) && !p.Invalid?
                  && (PointerNames(p, t) || (Pinned(t) && (t.state == Published || CasAllows(t, p)))))
            && (a.ok ==> ActivatedAs(a.world, i, t) && a.world.txns[i].activatedAt.Some?)
            && (!a.ok ==> a.world.active == w.active)
            && (!a.ok && (t.state != Published || !TreeVerifies(w, t) || p.Invalid?) ==> a.world == w)
            && (!a.ok && t.state == Published && TreeVerifies(w, t) && !p.Invalid? ==>
                  a.world == MarkActivating(w, SnapshotBefore(t, p)).world)
  {
    hide ReadActive, VerifySealedTree, CasAllows, Swing, MarkActivating, ValidTransaction, Blank, Filed, PointerNames,
      Kept;
    var t, p := w.txns[i], ReadActive(w);
    if (t.state == Published || t.state == State.Activating) && TreeVerifies(w, t) && !p.Invalid? {
      if PointerNames(p, t) {
        NamedMarks(w, i);
      } else if t.state == Published {
        MarkedPublished(w, i);
        var marked := MarkActivating(w, SnapshotBefore(t, p));
        MarkKeepsActive(w, i, SnapshotBefore(t, p));
        SamePins(t, marked.txn);
        SameNames(p, t, marked.txn);
        SwingExactly(marked.world, i);
        if Swing(marked.world, marked.txn).ok {
          SameActivated(Swing(marked.world, marked.txn).world, i, t, marked.txn);
        }
      } else {
        SwingExactly(w, i);
      }
    }
  }

  lemma SamePins(t: Txn, u: Txn)
    requires SameBuild(t, u)
    ensures Pinned(u) <==> Pinned(t)
  {
  }

  lemma SameNames(p: ActivePointer, t: Txn, u: Txn)
    requires SameBuild(t, u)
    ensures PointerNames(p, u) <==> PointerNames(p, t)
  {
  }

  lemma SameActivated(w: World, i: nat, t: Txn, u: Txn)
    requires SameBuild(t, u) && ActivatedAs(w, i, u)
    ensures ActivatedAs(w, i, t)
  {
    hide ReadActive;
  }

  lemma NamedMarks(w: World, i: nat)
    requires Filed(w) && i < |w.txns| && PointerNames(ReadActive(w), w.txns[i])
    requires w.txns[i].state == Published || w.txns[i].state == State.Activating
    ensures var e := MarkActivating(w, w.txns[i]);
            && e.ok && e.world.active == w.active && ActivatedAs(e.world, i, w.txns[i])
            && e.world.txns[i].activatedAt.Some?
  {
    hide ReadActive, Persist, ValidTransaction, Filed;
    var t := w.txns[i];
    var v := t.(state := State.Activating, updatedAt := w.clock,
        activatedAt := if t.activatedAt.None? then Some(w.clock) else t.activatedAt);
    IndexFinds(w, i);
    assert ValidTransaction(v) by { RestateIsValid(t, v); }
    PersistReplaces(w, i, v);
    SamePointerRead(w, MarkActivating(w, t).world);
  }

  lemma RestateIsValid(t: Txn, v: Txn)
    requires ValidTransaction(t) && v == t.(state := v.state, updatedAt := v.updatedAt, activatedAt := v.activatedAt)
    ensures ValidTransaction(v)
  {
  }
}
