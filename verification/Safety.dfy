/** What every run keeps: the pointer, the lifecycle, the activation chain, retention and the commit point. */
module Safety {
  import opened InstallTypes
  import opened Seal
  import opened Decide
  import opened World
  import opened Collector
  import opened Recovery
  import opened ObservedWorlds
  import opened Reconcile
  import opened Runs

  // ---------------------------------------------------------------- the pointer

  /**
   * Pointer safety over all runs: active.json is missing, or names a generation that verifies against its seal
   * and belongs to an ACTIVATING or COMMITTED record. It never reads invalid.
   */
  lemma PointerSafety(w0: World, past: seq<Session>, w: World)
    requires Initial(w0) && Sessions(w0, past, w)
    ensures !ReadActive(w).Invalid?
    ensures ReadActive(w).Missing? <==> w.active.NoActive?
    ensures ReadActive(w).Valid? ==>
              exists i :: 0 <= i < |w.txns| && NamedTxn(w, i) && TreeVerifies(w, w.txns[i])
                && (w.txns[i].state == State.Activating || w.txns[i].state == State.Committed)
  {
    hide Sessions, ReadActive, HistoryOk, VerifySealedTree;
    InitialInv(w0);
    SessionsKeep(w0, past, w);
    PointerSafe(w);
  }

  lemma PointerSafe(w: World)
    requires Inv(w)
    ensures !ReadActive(w).Invalid? && (ReadActive(w).Missing? <==> w.active.NoActive?)
    ensures ReadActive(w).Valid? ==>
              exists i :: 0 <= i < |w.txns| && NamedTxn(w, i) && TreeVerifies(w, w.txns[i])
                && (w.txns[i].state == State.Activating || w.txns[i].state == State.Committed)
  {
    hide ReadActive, HistoryOk, VerifySealedTree, RecordsOk, TimesOk, ReplacedOk, ActivatingOk, AtMostOne, Distinct;
    PointerReads(w);
    if w.history != [] {
      var i := TipWriter(w.history);
      assert LinkOk(w.txns, w.history, |w.history| - 1) by { LastLink(w); }
      assert NamedTxn(w, i);
    }
  }

  lemma LastLink(w: World)
    requires HistoryOk(w.txns, w.history) && w.history != []
    ensures LinkOk(w.txns, w.history, |w.history| - 1)
  {
  }

  /** Every field of active.json is the writer's own. */
  predicate WrittenBy(r: ActiveRecord, t: Txn) {
    && r.runtimeKind == t.runtimeKind && r.sourcePin == t.sourcePin && r.version == t.expectedVersion
    && r.generationId == t.generationId && r.manifestSha == t.manifestSha && r.sealSha == t.sealSha
    && r.transactionId == t.id
  }

  /**
   * What active.json says, in every reachable state: there is one record, ACTIVATING or COMMITTED, whose kind, source
   * pin, version, generation, digests and identifier it holds, each in its own field.
   */
  lemma ActiveRecordIsTheWriters(w0: World, past: seq<Session>, w: World)
    requires Initial(w0) && Sessions(w0, past, w) && w.active.ActiveFile?
    ensures exists i :: 0 <= i < |w.txns| && WrittenBy(w.active.record, w.txns[i])
              && (w.txns[i].state == State.Activating || w.txns[i].state == State.Committed)
  {
    hide Sessions, Inv;
    InitialInv(w0);
    SessionsKeep(w0, past, w);
    WriterOnDisk(w);
  }

  lemma WriterOnDisk(w: World)
    requires Inv(w) && w.active.ActiveFile?
    ensures var i := TipWriter(w.history);
            && 0 <= i < |w.txns| && WrittenBy(w.active.record, w.txns[i])
            && (w.txns[i].state == State.Activating || w.txns[i].state == State.Committed)
            && ReadActive(w) == PointerTo(w.txns[i])
  {
    hide ReadActive, HistoryOk, VerifySealedTree, RecordsOk, TimesOk, ReplacedOk, ActivatingOk, AtMostOne, Distinct;
    PointerReads(w);
    LastLink(w);
  }

  // ---------------------------------------------------------------- the lifecycle graph

  predicate Edge(a: State, b: State) {
    match a
    case Created => b == Building || b == State.Failed
    case Building => b == Sealed || b == State.Failed
    case Sealed => b == Published || b == State.Failed
    case Published => b == State.Activating
    case Activating => b == State.Committed
    case Committed => false
    case Failed => false
  }

  /** Zero or more edges of the intended graph. */
  predicate Path(a: State, b: State) {
    || a == b || Edge(a, b)
    || (a == Created && b != State.Failed)
    || (a == Building && b != Created)
    || (a == Sealed && (b == State.Activating || b == State.Committed))
    || (a == Published && b == State.Committed)
  }

  /** The closure is the right one: a path is no step, or an edge followed by a path. */
  lemma PathIsClosure(a: State, c: State)
    ensures Path(a, c) <==> a == c || exists b :: Edge(a, b) && Path(b, c)
  {
    match a
    case Created => assert Path(a, c) <==>
          a == c || (Edge(a, Building) && Path(Building, c)) || (Edge(a, State.Failed) && Path(State.Failed, c));
    case Building => assert Path(a, c) <==>
          a == c || (Edge(a, Sealed) && Path(Sealed, c)) || (Edge(a, State.Failed) && Path(State.Failed, c));
    case Sealed => assert Path(a, c) <==>
          a == c || (Edge(a, Published) && Path(Published, c)) || (Edge(a, State.Failed) && Path(State.Failed, c));
    case Published => assert Path(a, c) <==> a == c || (Edge(a, State.Activating) && Path(State.Activating, c));
    case Activating => assert Path(a, c) <==> a == c || (Edge(a, State.Committed) && Path(State.Committed, c));
    case Committed =>
    case Failed =>
  }

  /** How the records of one state of the disk relate to those of a later one. */
  ghost predicate Onward(txns: seq<Txn>, txns': seq<Txn>) {
    && |txns| <= |txns'|
    && forall i :: 0 <= i < |txns| ==>
         && txns'[i].id == txns[i].id && txns'[i].generationId == txns[i].generationId
         && Path(txns[i].state, txns'[i].state)
         && (!Failable(txns[i].state) ==> SameBuild(txns[i], txns'[i]))
         && txns[i].revision <= txns'[i].revision
         && (Terminal(txns[i].state) || txns'[i].revision == txns[i].revision ==> txns'[i] == txns[i])
  }

  lemma OnwardTransitive(a: seq<Txn>, b: seq<Txn>, c: seq<Txn>)
    requires Onward(a, b) && Onward(b, c)
    ensures Onward(a, c)
  {
  }

  lemma StepOnward(cfg: Config, w: World, act: Act)
    requires Enabled(cfg, w, act)
    ensures Onward(w.txns, After(w, act).txns)
    ensures w.history <= After(w, act).history
  {
    hide EnabledOn, ReadActive, ValidTransaction, FreshRecord, Unused, Shielded, LatestAmong, OwnedPlace, Changed, Path,
      Onward, SameBuild;
    if SavesOn(act) {
      ChangedOnward(cfg, w, w.txns[act.i], act);
      ReplaceOnward(w, act.i, Changed(w, w.txns[act.i], act));
    } else if act.CreateRecord? {
      AppendOnward(w.txns, act.txn.(revision := 1));
    } else {
      OnwardReflexive(w.txns);
      assert After(w, act).txns == w.txns;
    }
  }

  /** The step saves a changed copy of a record. */
  predicate SavesOn(act: Act) {
    OnRecord(act) && !act.WriteTree? && !act.SwingPointer?
  }

  lemma ReplaceOnward(w: World, i: nat, u: Txn)
    requires i < |w.txns| && !Terminal(w.txns[i].state)
    requires u.id == w.txns[i].id && u.generationId == w.txns[i].generationId && Path(w.txns[i].state, u.state)
    requires !Failable(w.txns[i].state) ==> SameBuild(w.txns[i], u)
    ensures Onward(w.txns, Replace(w, i, u).txns)
  {
    hide Path;
    PathReflexive();
  }

  lemma AppendOnward(txns: seq<Txn>, t: Txn)
    ensures Onward(txns, txns + [t])
  {
    hide Path;
    PathReflexive();
  }

  lemma PathReflexive()
    ensures forall a :: Path(a, a)
  {
  }

  lemma ChangedOnward(cfg: Config, w: World, t: Txn, act: Act)
    requires SavesOn(act) && EnabledOn(cfg, w, t, act)
    ensures var u := Changed(w, t, act);
            && u.id == t.id && u.generationId == t.generationId && !Terminal(t.state)
            && (Edge(t.state, u.state) || Stamped(t, u)) && Path(t.state, u.state)
            && (!Failable(t.state) ==> SameBuild(t, u))
  {
    hide TreeVerifies, ReadActive, CommitObserved, CasAllows, Names;
  }

  /** A save that only gives an ACTIVATING record its activation time. */
  predicate Stamped(t: Txn, u: Txn) {
    && t.state == State.Activating && t.activatedAt.None? && u.activatedAt.Some?
    && u == t.(revision := u.revision, activatedAt := u.activatedAt, updatedAt := u.updatedAt)
  }

  /** One durable step creates one CREATED record, takes one record along one edge, stamps it, or touches no record. */
  ghost predicate EdgeStep(txns: seq<Txn>, txns': seq<Txn>) {
    || txns' == txns
    || (|txns'| == |txns| + 1 && txns'[..|txns|] == txns && txns'[|txns|].state == Created)
    || exists i :: 0 <= i < |txns| && |txns'| == |txns| && EdgeAt(txns, txns', i)
  }

  ghost predicate EdgeAt(txns: seq<Txn>, txns': seq<Txn>, i: nat)
    requires i < |txns| == |txns'|
  {
    txns' == txns[i := txns'[i]] && (Edge(txns[i].state, txns'[i].state) || Stamped(txns[i], txns'[i]))
  }

  lemma StepIsEdge(cfg: Config, w: World, act: Act)
    requires Enabled(cfg, w, act)
    ensures EdgeStep(w.txns, After(w, act).txns)
  {
    hide EnabledOn, ReadActive, ValidTransaction, FreshRecord, Unused, Shielded, LatestAmong, OwnedPlace, Changed, Edge;
    if SavesOn(act) {
      var i := act.i;
      ChangedOnward(cfg, w, w.txns[i], act);
      assert EdgeAt(w.txns, After(w, act).txns, i);
    } else if !act.CreateRecord? {
      assert After(w, act).txns == w.txns;
    }
  }

  lemma {:induction false} RunTakesEdges(cfg: Config, w: World, acts: seq<Act>, w': World, k: nat)
    requires Run(cfg, w, acts, w') && k < |acts|
    ensures EdgeStep(Replay(w, acts[..k]).txns, Replay(w, acts[..k + 1]).txns)
    decreases |acts|
  {
    hide Enabled, After, EdgeStep;
    var w1 := After(w, acts[0]);
    assert acts[..k + 1][1..] == acts[1..][..k];
    if k == 0 {
      StepIsEdge(cfg, w, acts[0]);
    } else {
      assert acts[..k][1..] == acts[1..][..k - 1];
      RunTakesEdges(cfg, w1, acts[1..], w', k - 1);
    }
  }

  /** The disk after k steps of process s and all processes before it. */
  ghost function DiskAt(w: World, sessions: seq<Session>, s: nat, k: nat): World
    requires s < |sessions| && k <= |sessions[s].acts|
    decreases s
  {
    if s == 0 then Replay(w, sessions[0].acts[..k])
    else DiskAt(Replay(w, sessions[0].acts), sessions[1..], s - 1, k)
  }

  /**
   * The lifecycle graph over all histories: although a save accepts any state, every single persisted change of any
   * process is an edge of the intended graph, the creation of a CREATED record, or the stamp of an activation time.
   */
  lemma {:induction false} EveryChangeIsAnEdge(w: World, sessions: seq<Session>, w': World, s: nat, k: nat)
    requires Sessions(w, sessions, w') && s < |sessions| && k < |sessions[s].acts|
    ensures EdgeStep(DiskAt(w, sessions, s, k).txns, DiskAt(w, sessions, s, k + 1).txns)
    decreases |sessions|
  {
    hide Run, Replay, EdgeStep;
    var w1 := Replay(w, sessions[0].acts);
    if s == 0 {
      RunTakesEdges(sessions[0].cfg, w, sessions[0].acts, w1, k);
    } else {
      EveryChangeIsAnEdge(w1, sessions[1..], w', s - 1, k);
    }
  }

  lemma {:induction false} RunMovesOn(cfg: Config, w: World, acts: seq<Act>, w': World)
    requires Run(cfg, w, acts, w')
    ensures Onward(w.txns, w'.txns)
    ensures w.history <= w'.history
    decreases |acts|
  {
    hide Enabled, After, Onward;
    if acts == [] {
      OnwardReflexive(w.txns);
    } else {
      StepOnward(cfg, w, acts[0]);
      RunMovesOn(cfg, After(w, acts[0]), acts[1..], w');
      OnwardTransitive(w.txns, After(w, acts[0]).txns, w'.txns);
    }
  }

  /**
   * Between any two states of a history of processes: each record has followed a path of the intended graph, a sealed
   * one keeps its build, a terminal one is never written again, revisions only grow, and pointer writes are never taken
   * back.
   */
  lemma {:induction false} LifecycleMovesOn(w: World, sessions: seq<Session>, w': World)
    requires Sessions(w, sessions, w')
    ensures Onward(w.txns, w'.txns)
    ensures w.history <= w'.history
    decreases |sessions|
  {
    hide Run, Replay, Onward;
    OnwardReflexive(w.txns);
    if sessions != [] {
      var w1 := Replay(w, sessions[0].acts);
      RunMovesOn(sessions[0].cfg, w, sessions[0].acts, w1);
      LifecycleMovesOn(w1, sessions[1..], w');
      OnwardTransitive(w.txns, w1.txns, w'.txns);
    }
  }

  lemma OnwardReflexive(txns: seq<Txn>)
    ensures Onward(txns, txns)
  {
  }

  /** At most one record is nonterminal, and a FAILED record is never the one active.json names. */
  lemma LifecycleHolds(w0: World, past: seq<Session>, w: World)
    requires Initial(w0) && Sessions(w0, past, w)
    ensures AtMostOne(w.txns)
    ensures forall i :: 0 <= i < |w.txns| && NamedTxn(w, i) ==>
              w.txns[i].state == State.Activating || w.txns[i].state == State.Committed
  {
    hide Sessions, Inv, ReadActive;
    InitialInv(w0);
    SessionsKeep(w0, past, w);
    InvSingle(w);
    PointerSafe(w);
  }

  lemma InvSingle(w: World)
    requires Inv(w)
    ensures AtMostOne(w.txns) && Distinct(w) && w.malformed == []
    ensures forall i, j |
              0 <= i < |w.txns| && 0 <= j < |w.txns| && w.txns[i].generationId == w.txns[j].generationId :: i == j
  {
  }

  // ---------------------------------------------------------------- the activation chain

  /**
   * Activation chain over all runs: each pointer write goes from the pointer left by the write before it, which
   * is exactly the predecessor its transaction recorded, to that transaction's own sealed generation. No
   * transaction writes twice, and every writer but the last has committed.
   */
  lemma ActivationChain(w0: World, past: seq<Session>, w: World)
    requires Initial(w0) && Sessions(w0, past, w)
    ensures ReadActive(w) == Tip(w.history)
    ensures forall n :: 0 <= n < |w.history| ==> LinkOk(w.txns, w.history, n)
    ensures forall m, n :: 0 <= m < n < |w.history| ==> w.history[m].writer != w.history[n].writer
  {
    hide Sessions, Inv, ReadActive;
    InitialInv(w0);
    SessionsKeep(w0, past, w);
    InvHistory(w);
  }

  /** Under the invariant a decided ACTIVATE never fails the compare. */
  lemma ActivatePassesCompare(w: World, i: nat)
    requires Inv(w) && i < |w.txns| && w.txns[i].state == State.Activating
    ensures CasAllows(w.txns[i], ReadActive(w)) && TreeVerifies(w, w.txns[i])
    ensures PointerNames(ReadActive(w), w.txns[i]) <==> Wrote(w.history, i)
    ensures PointerNames(ReadActive(w), w.txns[i]) <==> ActiveNames(ReadActive(w), w.txns[i].generationId)
  {
    hide RecordsOk, TimesOk, ReplacedOk, AtMostOne, ValidTransaction, VerifySealedTree, ReadActive;
    RecordAt(w, i);
    InvHistory(w);
    PointerReads(w);
    TipIsWriter(w);
    GenerationNonempty(w, i);
  }

  lemma GenerationNonempty(w: World, i: nat)
    requires Inv(w) && i < |w.txns|
    ensures w.txns[i].generationId != ""
  {
  }

  // ---------------------------------------------------------------- retention

  /** A record whose build or activation is under way. */
  ghost predicate InFlight(w: World, i: nat) {
    i < |w.txns| && Nonterminal(w.txns[i])
  }

  /**
   * Retention over all runs: in every reachable state the active generation, the one it immediately replaced and
   * the sealed tree of the transaction in flight are on disk and verify.
   */
  lemma RetainedTreesVerify(w0: World, past: seq<Session>, w: World)
    requires Initial(w0) && Sessions(w0, past, w)
    ensures |w.history| >= 1 ==> 0 <= TipWriter(w.history) < |w.txns| && TreeVerifies(w, w.txns[TipWriter(w.history)])
    ensures |w.history| >= 2 ==> 0 <= Replaced(w.history) < |w.txns| && TreeVerifies(w, w.txns[Replaced(w.history)])
    ensures forall i: nat :: InFlight(w, i) && !Failable(w.txns[i].state) ==> TreeVerifies(w, w.txns[i])
  {
    hide Sessions, VerifySealedTree, Distinct, TimesOk, AtMostOne, HistoryOk, ActivatingOk;
    InitialInv(w0);
    SessionsKeep(w0, past, w);
    TipIsWriter(w);
    forall i: nat | InFlight(w, i) && !Failable(w.txns[i].state) ensures TreeVerifies(w, w.txns[i]) {
      RecordAt(w, i);
    }
    PointerReads(w);
  }

  /** A collection leaves those trees, and every tree of a transaction in flight, untouched. */
  lemma CollectRetains(w: World)
    requires Inv(w)
    ensures |w.history| >= 1 ==>
          0 <= TipWriter(w.history) < |w.txns|
                && GenTree(Collect(w), w.txns[TipWriter(w.history)]) == GenTree(w, w.txns[TipWriter(w.history)])
    ensures |w.history| >= 2 ==>
          0 <= Replaced(w.history) < |w.txns|
                && GenTree(Collect(w), w.txns[Replaced(w.history)]) == GenTree(w, w.txns[Replaced(w.history)])
    ensures forall i: nat :: InFlight(w, i) ==> GenTree(Collect(w), w.txns[i]) == GenTree(w, w.txns[i])
  {
    hide Inv, ReadActive, HistoryOk, Superseded, Candidate;
    var c, h := LatestCommitted(w.txns, ActiveGen(w), |w.txns|), LatestHit(w, |w.txns|);
    InvHistory(w);
    TipIsWriter(w);
    PointerReads(w);
    if |w.history| >= 1 { CollectedPlaces(w, c, h, GenerationAt(w.txns[TipWriter(w.history)].generationId)); }
    if |w.history| >= 2 {
      LatestIsReplaced(w, c);
      CollectedPlaces(w, c, h, GenerationAt(w.txns[c].generationId));
    }
    forall i: nat | InFlight(w, i) ensures GenTree(Collect(w), w.txns[i]) == GenTree(w, w.txns[i]) {
      CollectedPlaces(w, c, h, GenerationAt(w.txns[i].generationId));
    }
  }

  lemma OneFailedPlace(w: World)
    requires Inv(w)
    ensures DistinctTimes(w) && OneTreePerFailure(w)
  {
    hide Distinct, PointerOk, HistoryOk, ReplacedOk, ActivatingOk, AtMostOne, LineageProven, RecordOk;
    forall k, l | IsHit(w, k) && IsHit(w, l) && k.owner == l.owner ensures k == l {
    }
  }

  /** In every reachable state a second collection deletes nothing. */
  lemma CollectTwice(w0: World, past: seq<Session>, w: World)
    requires Initial(w0) && Sessions(w0, past, w)
    ensures Collect(Collect(w)) == Collect(w)
  {
    hide Sessions, Inv;
    InitialInv(w0);
    SessionsKeep(w0, past, w);
    CollectIsIdempotent(w);
  }

  lemma CollectIsIdempotent(w: World)
    requires Inv(w)
    ensures Collect(Collect(w)) == Collect(w)
  {
    hide Inv, LatestAmong, LatestHitAmong, DistinctTimes, OneTreePerFailure, ReadActive, CollectWith;
    OneFailedPlace(w);
    var w1 := Collect(w);
    LatestHitIsLatest(w, |w.txns|);
    LatestHitIsLatest(w1, |w1.txns|);
    SecondCollectionIsIdle(w,
      LatestCommitted(w.txns, ActiveGen(w), |w.txns|), LatestHit(w, |w.txns|),
      LatestCommitted(w1.txns, ActiveGen(w1), |w1.txns|), LatestHit(w1, |w1.txns|));
  }

  // ---------------------------------------------------------------- the commit point

  /** The state of the disk at the moment record i was decided to be committed. */
  ghost predicate CommittedFrom(cfg: Config, w: World, i: nat) {
    && i < |w.txns| && w.txns[i].state == State.Activating
    && ReadActive(w) == PointerTo(w.txns[i])
    && TreeVerifies(w, w.txns[i])
    && w.active.ActiveFile? && CommitObserved(cfg, w, w.active.record)
    && cfg.backend.read(w.env).Some? && EnvReady(cfg, cfg.backend.read(w.env).value, w.txns[i].generationId)
  }

  lemma CommitWasObserved(cfg: Config, w: World, act: Act, i: nat)
    requires Inv(w) && Enabled(cfg, w, act) && i < |After(w, act).txns|
    requires After(w, act).txns[i].state == State.Committed
    requires i < |w.txns| ==> w.txns[i].state != State.Committed
    ensures CommittedFrom(cfg, w, i)
  {
    hide Inv, ReadActive, ValidTransaction, CasAllows, Unused, Shielded, LatestAmong, OwnedPlace, CommitObserved,
      VerifySealedTree;
    assert act == CommitRecord(i);
    NamedIsTip(w, i);
    RecordAt(w, i);
    CommitSawValues(cfg, w, LoadActive(w).value);
  }

  lemma {:induction false} RunCommits(cfg: Config, w: World, acts: seq<Act>, w': World, i: nat) returns (k: nat)
    requires Inv(w) && Run(cfg, w, acts, w') && i < |w'.txns| && w'.txns[i].state == State.Committed
    requires i < |w.txns| ==> w.txns[i].state != State.Committed
    ensures k < |acts| && CommittedFrom(cfg, Replay(w, acts[..k]), i)
    decreases |acts|
  {
    hide Inv, Enabled, After, CommittedFrom;
    var w1 := After(w, acts[0]);
    StepKeeps(cfg, w, acts[0]);
    if i < |w1.txns| && w1.txns[i].state == State.Committed {
      CommitWasObserved(cfg, w, acts[0], i);
      k := 0;
    } else {
      var n := RunCommits(cfg, w1, acts[1..], w', i);
      k := n + 1;
      assert acts[..k][0] == acts[0] && acts[..k][1..] == acts[1..][..n];
    }
  }

  /**
   * Commit point over all histories: a record is COMMITTED only if some process passed through a state in which it was
   * ACTIVATING, active.json named its generation, the tree verified, and that process observed home and PATH prefix in
   * place.
   */
  lemma {:induction false} CommitPointInRuns(w: World, sessions: seq<Session>, w': World, i: nat)
    returns (s: nat, k: nat)
    requires Inv(w) && Sessions(w, sessions, w') && i < |w'.txns| && w'.txns[i].state == State.Committed
    requires i < |w.txns| ==> w.txns[i].state != State.Committed
    ensures s < |sessions| && k < |sessions[s].acts|
    ensures CommittedFrom(sessions[s].cfg, DiskAt(w, sessions, s, k), i)
    decreases |sessions|
  {
    hide Inv, Run, Replay, CommittedFrom;
    var w1 := Replay(w, sessions[0].acts);
    if i < |w1.txns| && w1.txns[i].state == State.Committed {
      k := RunCommits(sessions[0].cfg, w, sessions[0].acts, w1, i);
      s := 0;
    } else {
      RunKeeps(sessions[0].cfg, w, sessions[0].acts, w1);
      var n;
      n, k := CommitPointInRuns(w1, sessions[1..], w', i);
      s := n + 1;
    }
  }
}
