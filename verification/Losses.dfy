/** Exactly which trees a commit inside recovery deletes, decided on the disk the recovery starts from. */
module Losses {
  import opened InstallTypes
  import opened Seal
  import opened Environment
  import opened Decide
  import opened World
  import opened Collector
  import opened Recovery
  import opened ObservedWorlds
  import opened Reconcile
  import opened Termination
  import opened Runs
  import opened Safety
  import opened Refinement
  import opened Convergence
  import opened Evidence

  // ---------------------------------------------------------------- the condition

  /** Recovery takes record i to COMMITTED. */
  predicate WillCommit(w: World, i: nat)
    requires i < |w.txns|
  {
    var t := w.txns[i];
    || (t.state == State.Activating && (PointerNames(ReadActive(w), t) || Pinned(t)))
    || ((t.state == Sealed || t.state == Published) && ReadActive(w).Missing? && Pinned(t))
  }

  /**
   * A proven tree the collector does not retain once record i is the active one: not the generation of i, not the
   * latest other committed generation, not the latest failed tree.
   */
  ghost predicate Superfluous(w: World, i: nat, p: Place)
    requires i < |w.txns|
  {
    var g := w.txns[i].generationId;
    var c, h := LatestCommitted(w.txns, g, |w.txns|), LatestHit(w, |w.txns|);
    && Candidate(w, p) && p != GenerationAt(g)
    && !(c >= 0 && p == GenerationAt(w.txns[c].generationId))
    && !(h.Some? && p == h.value.place)
  }

  /** Recovery will commit a record whose environment is not in place, and the tree is superfluous beside it. */
  ghost predicate Loses(cfg: Config, w: World, p: Place) {
    exists i: nat :: i < |w.txns| && LosesFor(cfg, w, i, p)
  }

  ghost predicate LosesFor(cfg: Config, w: World, i: nat, p: Place)
    requires i < |w.txns|
  {
    WillCommit(w, i) && !EnvReady(cfg, w.env, w.txns[i].generationId) && Superfluous(w, i, p)
  }

  lemma OnlyTheSoleLoses(cfg: Config, w: World, i: nat, p: Place)
    requires AtMostOne(w.txns) && i < |w.txns| && Nonterminal(w.txns[i])
    ensures Loses(cfg, w, p) <==> LosesFor(cfg, w, i, p)
  {
    hide EnvReady, Superfluous, ReadActive, Pinned;
  }

  lemma IdleLosesNothing(cfg: Config, w: World, p: Place)
    requires !HasNonterminal(w)
    ensures !Loses(cfg, w, p)
  {
    hide EnvReady, Superfluous, ReadActive, Pinned;
  }

  /** The condition on the record is what was predicted of its end. */
  lemma WillCommitIsPredicted(w: World, i: nat)
    requires i < |w.txns| && Nonterminal(w.txns[i])
    ensures WillCommit(w, i) <==> PredictFor(w, i).states[i] == State.Committed
  {
    hide ReadActive, Pinned, Forgotten;
  }

  lemma EndingLosesNothing(cfg: Config, w: World, p: Place)
    requires Inv(w) && Predict(w) == Outcome(BlockedUnsafe, ReadActive(w), StatesOf(w.txns))
    ensures !Loses(cfg, w, p)
  {
    hide Inv, ReadActive, Predict, LosesFor, PredictFor;
    if HasNonterminal(w) {
      InvSingle(w);
      InvAlone(w);
      var i: nat :| i < |w.txns| && Nonterminal(w.txns[i]);
      PredictSole(w, i);
      WillCommitIsPredicted(w, i);
      OnlyTheSoleLoses(cfg, w, i, p);
      UncommittedKeeps(cfg, w, i, p);
    } else {
      IdleLosesNothing(cfg, w, p);
    }
  }

  lemma UncommittedKeeps(cfg: Config, w: World, i: nat, p: Place)
    requires i < |w.txns| && !WillCommit(w, i)
    ensures !LosesFor(cfg, w, i, p)
  {
  }

  // ---------------------------------------------------------------- disks on which the same trees are superfluous

  /** The same trees; record i keeps its build, is not FAILED on either disk, and no other record differs. */
  predicate Twin(w: World, i: nat, w': World)
    requires i < |w.txns|
  {
    && w'.staging == w.staging && w'.failed == w.failed && w'.generations == w.generations
    && |w'.txns| == |w.txns| && (forall j :: 0 <= j < |w.txns| && j != i ==> w'.txns[j] == w.txns[j])
    && SameBuild(w.txns[i], w'.txns[i])
    && w.txns[i].state != State.Failed && w'.txns[i].state != State.Failed
  }

  lemma {:induction false} SameLatestCommitted(w: World, i: nat, w': World, n: nat)
    requires i < |w.txns| && Twin(w, i, w') && n <= |w.txns|
    ensures LatestCommitted(w'.txns, w.txns[i].generationId, n) == LatestCommitted(w.txns, w.txns[i].generationId, n)
  {
    if n > 0 {
      SameLatestCommitted(w, i, w', n - 1);
    }
  }

  lemma SameHits(w: World, i: nat, w': World, h: Hit)
    requires i < |w.txns| && Twin(w, i, w')
    ensures IsHit(w', h) <==> IsHit(w, h)
    ensures IsHit(w, h) ==> h.owner != i
  {
    hide LineageProven;
  }

  lemma SameLater(w: World, i: nat, w': World, best: Option<Hit>, h: Hit)
    requires i < |w.txns| && Twin(w, i, w') && h.owner < |w.txns|
    requires best.Some? ==> best.value.owner < |w.txns| && best.value.owner != i
    ensures |w'.txns| == |w.txns| && Later(w', best, h) == Later(w, best, h)
    ensures Later(w, best, h).Some? ==> Later(w, best, h).value.owner < |w.txns| && Later(w, best, h).value.owner != i
  {
    hide IsHit, SameBuild;
    SameHits(w, i, w', h);
  }

  lemma SameLaterOf(w: World, i: nat, w': World, j: nat, best: Option<Hit>)
    requires i < |w.txns| && Twin(w, i, w') && j < |w.txns|
    requires best.Some? ==> best.value.owner < |w.txns| && best.value.owner != i
    ensures |w'.txns| == |w.txns| && LaterOf(w', j, best) == LaterOf(w, j, best)
    ensures LaterOf(w, j, best).Some? ==> LaterOf(w, j, best).value.owner != i
  {
    hide Twin, Later;
    SameIdentity(w, i, w', j);
    var t := w.txns[j];
    SameLater(w, i, w', best, Hit(j, StagingAt(t.id)));
    var b1 := Later(w, best, Hit(j, StagingAt(t.id)));
    SameLater(w, i, w', b1, Hit(j, FailedAt(t.id)));
    var b2 := Later(w, b1, Hit(j, FailedAt(t.id)));
    SameLater(w, i, w', b2, Hit(j, GenerationAt(t.generationId)));
  }

  lemma SameIdentity(w: World, i: nat, w': World, j: nat)
    requires i < |w.txns| && Twin(w, i, w') && j < |w.txns|
    ensures |w'.txns| == |w.txns| && w'.txns[j].id == w.txns[j].id
    ensures w'.txns[j].generationId == w.txns[j].generationId
  {
  }

  lemma {:induction false} SameLatestHit(w: World, i: nat, w': World, n: nat)
    requires i < |w.txns| && Twin(w, i, w') && n <= |w.txns|
    ensures |w'.txns| == |w.txns| && LatestHit(w', n) == LatestHit(w, n)
    ensures LatestHit(w, n).Some? ==> LatestHit(w, n).value.owner != i
  {
    hide Twin, LaterOf;
    SameIdentity(w, i, w', i);
    if n > 0 {
      SameLatestHit(w, i, w', n - 1);
      SameLaterOf(w, i, w', n - 1, LatestHit(w, n - 1));
    }
  }

  lemma SameCandidates(w: World, i: nat, w': World, p: Place)
    requires i < |w.txns| && Twin(w, i, w')
    ensures Candidate(w', p) <==> Candidate(w, p)
  {
    forall j | 0 <= j < |w.txns| ensures ProvenAt(w', w'.txns[j], p) <==> ProvenAt(w, w.txns[j], p) {
    }
  }

  lemma SameSuperfluous(w: World, i: nat, w': World, p: Place)
    requires i < |w.txns| && Twin(w, i, w')
    ensures Superfluous(w', i, p) <==> Superfluous(w, i, p)
  {
    hide Candidate;
    SameCandidates(w, i, w', p);
    SameLatestCommitted(w, i, w', |w.txns|);
    SameLatestHit(w, i, w', |w.txns|);
  }

  // ---------------------------------------------------------------- one iteration of the loop

  /** A tree that was there stays, with the same prospects, or is one that recovery was going to lose. */
  ghost predicate LosesAsTold(cfg: Config, w: World, w': World) {
    forall p, tree | TreeAt(w, p) == Some(tree) && tree != map[] :: StaysOrGoes(cfg, w, w', p)
  }

  ghost predicate StaysOrGoes(cfg: Config, w: World, w': World, p: Place) {
    || (TreeAt(w', p) == TreeAt(w, p) && (Loses(cfg, w', p) <==> Loses(cfg, w, p)))
    || (TreeAt(w', p).None? && p.GenerationAt? && Loses(cfg, w, p))
  }

  /** A record in flight that moves on without touching trees or environment keeps the losses. */
  lemma TwinLosesTheSame(cfg: Config, w: World, i: nat, w': World)
    requires Inv(w) && Inv(w') && i < |w.txns| && Twin(w, i, w') && w'.env == w.env
    requires Nonterminal(w.txns[i]) && Nonterminal(w'.txns[i]) && Predict(w') == Predict(w)
    ensures LosesAsTold(cfg, w, w')
  {
    hide Inv, Predict, PredictFor, WillCommit, EnvReady, Superfluous, Loses;
    InvSingle(w);
    InvSingle(w');
    PredictSole(w, i);
    PredictSole(w', i);
    WillCommitIsPredicted(w, i);
    WillCommitIsPredicted(w', i);
    forall p, tree | TreeAt(w, p) == Some(tree) && tree != map[] ensures StaysOrGoes(cfg, w, w', p) {
      SameSuperfluous(w, i, w', p);
      OnlyTheSoleLoses(cfg, w, i, p);
      OnlyTheSoleLoses(cfg, w', i, p);
    }
  }

  /** A record that ends without a collection, on a disk where nothing was to be lost. */
  lemma EndingKeepsTrees(cfg: Config, w: World, w': World)
    requires !HasNonterminal(w') && forall p :: !Loses(cfg, w, p)
    requires forall p, tree | TreeAt(w, p) == Some(tree) && tree != map[] :: TreeAt(w', p) == Some(tree)
    ensures LosesAsTold(cfg, w, w')
  {
    hide Loses, HasNonterminal;
    forall p, tree | TreeAt(w, p) == Some(tree) && tree != map[] ensures StaysOrGoes(cfg, w, w', p) {
      IdleLosesNothing(cfg, w', p);
    }
  }

  /** The collection of a commit takes exactly the superfluous trees. */
  lemma CommitTakesSuperfluous(w: World, i: nat, w': World, p: Place)
    requires i < |w.txns| && Twin(w, i, w') && !HasNonterminal(w')
    requires ReadActive(w').Valid? && ReadActive(w').generationId == w.txns[i].generationId
    ensures TreeAt(Collect(w'), p) == if Superfluous(w, i, p) then None else TreeAt(w, p)
  {
    hide Candidate, ReadActive;
    SameSuperfluous(w, i, w', p);
    var c, h := LatestCommitted(w'.txns, ActiveGen(w'), |w'.txns|), LatestHit(w', |w'.txns|);
    CollectedPlaces(w', c, h, p);
    assert Doomed(w', c, h, p) <==> Superfluous(w', i, p);
  }

  lemma SwingIsTwin(w: World, i: nat)
    requires Distinct(w) && i < |w.txns| && w.txns[i].state == State.Activating
    ensures var w' := Swing(w, w.txns[i]).world;
            Twin(w, i, w') && w'.env == w.env && w'.txns[i].state == State.Activating
  {
    hide ReadActive, TreeVerifies, PointerNames, CasAllows, Persist, ValidTransaction, Filed, WriteActive;
    var t := w.txns[i];
    var written := WriteActive(w, RecordFor(t, w.clock)).world;
    IndexFinds(w, i);
    WrittenIsTwin(w, RecordFor(t, w.clock));
    var u := t.(activatedAt := Some(w.clock), updatedAt := w.clock);
    assert ValidTransaction(u) by { StampIsValid(t, w.clock); }
    PersistReplaces(written, i, u);
  }

  lemma WrittenIsTwin(w: World, r: ActiveRecord)
    requires Filed(w)
    ensures var w' := WriteActive(w, r).world;
            && Filed(w') && w'.txns == w.txns && w'.env == w.env
            && w'.staging == w.staging && w'.failed == w.failed && w'.generations == w.generations
  {
  }

  lemma StampIsValid(t: Txn, now: Time)
    requires ValidTransaction(t)
    ensures ValidTransaction(t.(activatedAt := Some(now), updatedAt := now))
  {
  }

  lemma ActivatedIsTwin(w: World, i: nat)
    requires Inv(w) && i < |w.txns| && w.txns[i].state == State.Activating && !PointerNames(ReadActive(w), w.txns[i])
    ensures var w' := ActivateTxn(w, w.txns[i]).world;
            Twin(w, i, w') && w'.env == w.env && w'.txns[i].state == State.Activating
  {
    hide Inv, ReadActive, TreeVerifies, Swing, CasAllows;
    InvSingle(w);
    ActivatePassesCompare(w, i);
    SwingIsTwin(w, i);
  }

  lemma ReadyIsComplete(cfg: Config, w: World, i: nat)
    requires cfg.backend.read(w.env) == Some(w.env) && Inv(w) && i < |w.txns| && ReadActive(w) == PointerTo(w.txns[i])
    ensures EnvComplete(ObserveEnvironment(cfg, w)) <==> EnvReady(cfg, w.env, w.txns[i].generationId)
  {
    hide Inv, ReadActive, PolicyFromActive, PlannedPath, PathChanges, SamePath, TreeVerifies;
    TipRecord(w, i);
    PolicyExists(cfg, w, i, HasCommitted(w));
    PolicyAsks(cfg, w, w.active.record, HasCommitted(w));
  }

  lemma PolicyAsks(cfg: Config, w: World, r: ActiveRecord, allowStale: bool)
    requires PolicyFromActive(cfg, w, r, allowStale).Some?
    ensures var policy := PolicyFromActive(cfg, w, r, allowStale).value;
            policy.home == cfg.root && policy.desiredBin == BinOf(cfg, r.generationId) && policy.desiredBin != ""
  {
    assert |BinOf(cfg, r.generationId)| >= |cfg.root| + 1;
  }

  /** The named record is ACTIVATING and its environment is not in place: the commit collects. */
  lemma ReconcileLoses(cfg: Config, w: World, i: nat)
    requires Working(cfg) && Inv(w) && i < |w.txns| && w.txns[i].state == State.Activating
    requires ReadActive(w) == PointerTo(w.txns[i]) && !EnvComplete(ObserveEnvironment(cfg, w))
    ensures LosesAsTold(cfg, w, ReconcileEnvironment(cfg, w, w.txns[i].id).world)
  {
    hide Inv, Working, ReadActive, ObserveEnvironment, ReconcileEnvironment, Collect, Superfluous, EnvReady, Loses,
      CommitObserved, FirstPass;
    InvSingle(w);
    ReconcileTurn(cfg, w, i);
    CommitPoint(cfg, w, i);
    WorkingReads(cfg, w.env);
    ReadyIsComplete(cfg, w, i);
    var seen := FirstPass(cfg, w, LoadActive(w).value).world;
    var done, w' := CommitWorld(seen, i), ReconcileEnvironment(cfg, w, w.txns[i].id).world;
    LastOneTerminates(seen, i, CommittedRecord(w.txns[i], w.clock));
    CommittedPointer(w, seen, i);
    CollectSameRecords(done);
    forall p, tree | TreeAt(w, p) == Some(tree) && tree != map[] ensures StaysOrGoes(cfg, w, w', p) {
      CommitTakesSuperfluous(w, i, done, p);
      OnlyTheSoleLoses(cfg, w, i, p);
      IdleLosesNothing(cfg, w', p);
      if Superfluous(w, i, p) { OnlyGenerations(w, i, p); }
    }
  }

  lemma CommittedPointer(w: World, seen: World, i: nat)
    requires i < |w.txns| && EnvOnly(w, seen) && w.txns[i].state == State.Activating
    ensures ReadActive(CommitWorld(seen, i)) == ReadActive(w) && Twin(w, i, CommitWorld(seen, i))
  {
  }

  lemma OnlyGenerations(w: World, i: nat, p: Place)
    requires Inv(w) && i < |w.txns| && Superfluous(w, i, p)
    ensures p.GenerationAt?
  {
    hide Distinct, PointerOk, HistoryOk, ReplacedOk, ActivatingOk, AtMostOne, LineageProven, RecordOk, TimesOk;
  }

  /** The record ends FAILED: nothing was to be lost, and no tree that holds a file is gone. */
  lemma FailingKeepsTrees(cfg: Config, w: World, i: nat, w': World)
    requires AtMostOne(w.txns) && i < |w.txns| && Failable(w.txns[i].state) && Abandoned(w, i, w')
    ensures LosesAsTold(cfg, w, w')
  {
    hide Loses, LosesAsTold;
    forall p ensures !Loses(cfg, w, p) {
      OnlyTheSoleLoses(cfg, w, i, p);
      UncommittedKeeps(cfg, w, i, p);
    }
    assert !HasNonterminal(w');
    EndingKeepsTrees(cfg, w, w');
  }

  /** A record whose environment is in place commits without a collection. */
  lemma ReadyCommitKeepsTrees(cfg: Config, w: World, i: nat)
    requires Working(cfg) && Inv(w) && i < |w.txns| && w.txns[i].state == State.Activating
    requires ReadActive(w) == PointerTo(w.txns[i]) && EnvComplete(ObserveEnvironment(cfg, w))
    ensures LosesAsTold(cfg, w, CommitWorld(w, i))
  {
    hide Inv, Working, ReadActive, ObserveEnvironment, Superfluous, EnvReady, Loses, LosesAsTold, WillCommit;
    InvSingle(w);
    WorkingReads(cfg, w.env);
    ReadyIsComplete(cfg, w, i);
    LastOneTerminates(w, i, CommittedRecord(w.txns[i], w.clock));
    forall p ensures !Loses(cfg, w, p) { OnlyTheSoleLoses(cfg, w, i, p); }
    EndingKeepsTrees(cfg, w, CommitWorld(w, i));
  }

  /** Reconciling a COMMITTED record changes the environment alone. */
  lemma IdleReconcileKeepsTrees(cfg: Config, w: World, k: nat)
    requires Distinct(w) && !HasNonterminal(w) && k < |w.txns|
    ensures LosesAsTold(cfg, w, ReconcileEnvironment(cfg, w, w.txns[k].id).world)
  {
    hide Filed, HasNonterminal, Loses, LosesAsTold, ReconcileOnce, CommitAndCollect, HasCommitted;
    TerminalAt(w, k);
    IndexFinds(w, k);
    if LoadActive(w).Some? {
      OnceTouchesEnvOnly(cfg, w, LoadActive(w).value, true);
      OnceTouchesEnvOnly(cfg, ReconcileOnce(cfg, w, LoadActive(w).value, true).world, LoadActive(w).value, true);
    }
    var w' := ReconcileEnvironment(cfg, w, w.txns[k].id).world;
    assert EnvOnly(w, w');
    SameRecordsIdle(w, w');
    forall p ensures !Loses(cfg, w, p) { IdleLosesNothing(cfg, w, p); }
    EndingKeepsTrees(cfg, w, w');
  }

  lemma SameRecordsIdle(w: World, w': World)
    requires !HasNonterminal(w) && w'.txns == w.txns
    ensures !HasNonterminal(w')
  {
  }

  /** A SEALED record is published, and a PUBLISHED one becomes ACTIVATING. */
  lemma MovedIsTwin(w: World, i: nat, act: Act)
    requires i < |w.txns| && (act == PublishRecord(i) || act == MarkActive(i, false)) && Nonterminal(w.txns[i])
    ensures var w' := After(w, act); Twin(w, i, w') && w'.env == w.env && Nonterminal(w'.txns[i])
  {
    hide ReadActive;
  }

  lemma ActivatingTurnLoses(cfg: Config, w: World, i: nat, obs: Observation, d: Decision)
    requires Working(cfg) && Inv(w) && SoleTxn(w, i) && w.txns[i].state == State.Activating
    requires DecidedAs(cfg, w, obs, d) && Execute(cfg, w, obs, d).ok
    ensures LosesAsTold(cfg, w, Execute(cfg, w, obs, d).world)
  {
    hide Inv, Working, DecidedAs, Execute, ReadActive, RecoveryAct, PointerNames, Pinned, LosesAsTold,
      ObserveEnvironment, Predict, Recovers, ReconcileEnvironment, ActivateTxn, Twin;
    var w' := Execute(cfg, w, obs, d).world;
    ActivatingTurn(cfg, w, i, obs, d);
    if !PointerNames(ReadActive(w), w.txns[i]) {
      RecoversKeeps(cfg, w, w');
      RecoversPredict(cfg, w, w');
      ActivatedIsTwin(w, i);
      TwinLosesTheSame(cfg, w, i, w');
    } else if EnvComplete(ObserveEnvironment(cfg, w)) {
      ReadyCommitKeepsTrees(cfg, w, i);
    } else {
      ReconcileLoses(cfg, w, i);
    }
  }

  /** One successful iteration with a record in flight. */
  lemma SoleTurnLoses(cfg: Config, w: World, i: nat, obs: Observation, d: Decision)
    requires Working(cfg) && Inv(w) && SoleTxn(w, i) && DecidedAs(cfg, w, obs, d)
    requires !Blocks(d) && Execute(cfg, w, obs, d).ok
    ensures LosesAsTold(cfg, w, Execute(cfg, w, obs, d).world)
  {
    hide Inv, Working, DecidedAs, Execute, ReadActive, RecoveryAct, Forgotten, LosesAsTold, Predict, Recovers, After,
      Twin, Abandoned, Blocks, Rests;
    InvSingle(w);
    var w' := Execute(cfg, w, obs, d).world;
    SoleTurn(cfg, w, i, obs, d);
    RecoversKeeps(cfg, w, w');
    RecoversPredict(cfg, w, w');
    match w.txns[i].state
    case Created =>
      CreatedTurn(cfg, w, i, obs, d);
      FailedIsAbandoned(w, i);
      FailingKeepsTrees(cfg, w, i, w');
    case Building =>
      BuildingTurn(cfg, w, i, obs, d);
      FailingKeepsTrees(cfg, w, i, w');
    case Sealed =>
      SealedTurn(cfg, w, i, obs, d);
      MovedIsTwin(w, i, PublishRecord(i));
      TwinLosesTheSame(cfg, w, i, w');
    case Published =>
      PublishedTurn(cfg, w, i, obs, d);
      MovedIsTwin(w, i, MarkActive(i, false));
      TwinLosesTheSame(cfg, w, i, w');
    case Activating => ActivatingTurnLoses(cfg, w, i, obs, d);
    case Committed =>
    case Failed =>
  }

  lemma FailedIsAbandoned(w: World, i: nat)
    requires i < |w.txns|
    ensures Abandoned(w, i, After(w, FailRecord(i, NoCode)))
  {
  }

  /** One successful iteration. */
  lemma TurnLoses(cfg: Config, w: World, obs: Observation, d: Decision)
    requires Working(cfg) && Inv(w) && DecidedAs(cfg, w, obs, d)
    requires !Blocks(d) && !Rests(d) && Execute(cfg, w, obs, d).ok
    ensures LosesAsTold(cfg, w, Execute(cfg, w, obs, d).world)
  {
    hide Inv, Working, DecidedAs, Execute, ReadActive, LosesAsTold, ReconcileEnvironment, Blocks, Rests;
    InvSingle(w);
    if HasNonterminal(w) {
      InvAlone(w);
      var i: nat :| i < |w.txns| && Nonterminal(w.txns[i]);
      assert SoleTxn(w, i);
      SoleTurnLoses(cfg, w, i, obs, d);
    } else {
      IdleTurn(cfg, w, obs, d);
      var k: nat :| NamedTxn(w, k) && Execute(cfg, w, obs, d) == ReconcileEnvironment(cfg, w, w.txns[k].id);
      IdleReconcileKeepsTrees(cfg, w, k);
    }
  }

  // ---------------------------------------------------------------- the whole run

  /** Of the trees that hold a file, exactly the ones told are gone. */
  ghost predicate LostAsTold(cfg: Config, w: World, exit: World) {
    forall p, tree | TreeAt(w, p) == Some(tree) && tree != map[] ::
      TreeAt(exit, p) == if Loses(cfg, w, p) then None else Some(tree)
  }

  lemma LostLater(cfg: Config, w: World, w1: World, exit: World)
    requires LosesAsTold(cfg, w, w1) && LostAsTold(cfg, w1, exit)
    requires forall g :: g in exit.generations ==> g in w1.generations
    ensures LostAsTold(cfg, w, exit)
  {
    hide Loses;
    forall p, tree | TreeAt(w, p) == Some(tree) && tree != map[]
      ensures TreeAt(exit, p) == if Loses(cfg, w, p) then None else Some(tree)
    {
      assert StaysOrGoes(cfg, w, w1, p);
    }
  }

  lemma NothingLost(cfg: Config, w: World)
    requires forall p :: !Loses(cfg, w, p)
    ensures LostAsTold(cfg, w, w)
  {
    hide Loses;
  }

  lemma {:induction false} ExitLoses(cfg: Config, w: World, step: nat, prev: Decision)
    requires Working(cfg) && Inv(w) && step <= MAX_RECOVER_STEPS
    requires Recover(cfg, w, step, prev).stop == Finished || Recover(cfg, w, step, prev).stop == ActionFailed
    ensures LostAsTold(cfg, w, AtExit(cfg, w, step, prev))
    decreases MAX_RECOVER_STEPS - step
  {
    hide Inv, Working, Observe, DecisionFor, Execute, Predict, LostAsTold, Loses, LosesAsTold, Recovers, Collect, Kept,
      ReconcileFails;
    var obs := Observe(cfg, w);
    var d := DecisionFor(obs);
    assert DecidedAs(cfg, w, obs, d);
    Turn(cfg, w, obs, d);
    forall i: nat ensures !ReconcileFails(cfg, w, i, Execute(cfg, w, obs, d).world) {
      WorkingReconciles(cfg, w, i, Execute(cfg, w, obs, d).world);
    }
    if Blocks(d) || (!Rests(d) && !Execute(cfg, w, obs, d).ok) {
      forall p ensures !Loses(cfg, w, p) { EndingLosesNothing(cfg, w, p); }
      NothingLost(cfg, w);
    } else if Rests(d) {
      forall p ensures !Loses(cfg, w, p) { IdleLosesNothing(cfg, w, p); }
      NothingLost(cfg, w);
    } else {
      var w1 := Execute(cfg, w, obs, d).world;
      TurnLoses(cfg, w, obs, d);
      RecoversKeeps(cfg, w, w1);
      InvSingle(w1);
      ExitLoses(cfg, w1, step + 1, d);
      ExitKeepsEvidence(cfg, w1, step + 1, d);
      GenerationsShrink(w1, AtExit(cfg, w1, step + 1, d), Collections(cfg, w1, step + 1, d));
      LostLater(cfg, w, w1, AtExit(cfg, w1, step + 1, d));
    }
  }

  lemma GenerationsShrink(w: World, w': World, disks: seq<World>)
    requires Kept(w, w', disks)
    ensures forall g :: g in w'.generations ==> g in w.generations
  {
    hide Accounted, SameRecords, Distinct;
  }

  /**
   * Exactly what recovery deletes before its final collection, from every disk that any processes left and with a
   * working environment: a tree that holds a file is gone if and only if recovery commits a record whose environment
   * was not in place and the tree is superfluous beside that record. All three are read off the disk before the run.
   */
  lemma RecoveryLosesExactly(cfg: Config, w0: World, past: seq<Session>, w: World, p: Place, tree: Tree)
    requires Working(cfg) && Initial(w0) && Sessions(w0, past, w) && TreeAt(w, p) == Some(tree) && tree != map[]
    ensures TreeAt(ExitDisk(cfg, w), p) == if Loses(cfg, w, p) then None else Some(tree)
  {
    hide Inv, Working, Initial, Sessions, LostAsTold, Loses;
    InitialInv(w0);
    SessionsKeep(w0, past, w);
    InvLosesExactly(cfg, w);
    ToldAt(cfg, w, ExitDisk(cfg, w), p, tree);
  }

  lemma ToldAt(cfg: Config, w: World, exit: World, p: Place, tree: Tree)
    requires LostAsTold(cfg, w, exit) && TreeAt(w, p) == Some(tree) && tree != map[]
    ensures TreeAt(exit, p) == if Loses(cfg, w, p) then None else Some(tree)
  {
  }

  lemma InvLosesExactly(cfg: Config, w: World)
    requires Working(cfg) && Inv(w)
    ensures LostAsTold(cfg, w, ExitDisk(cfg, w))
  {
    hide Inv, Working, LostAsTold, Recover, AtExit;
    InvSingle(w);
    RecoveryTerminates(cfg, w);
    NoPairReachable(w);
    ExitLoses(cfg, w, 0, NoDecision);
  }

  // ---------------------------------------------------------------- a disk that loses a tree

  const ID_C := "cccccccccccccccccccccc"

  ghost function BuiltTree(body: string): Tree {
    WithSeal(map[], "lineage", "txn_" + body, "gen_" + body)
  }

  ghost function BuiltTxn(body: string, state: State, before: ActivePointer, at: Time): Txn {
    var tree := BuiltTree(body);
    SnapshotBefore(SampleTxn(body, state, Sha256(tree[FILE_MANIFEST]), Sha256(tree[FILE_GENERATION])), before)
      .(updatedAt := at, committedAt := if state == State.Committed then Some(at) else None)
  }

  /** Three installs, named by the bodies of their identifiers, that are valid and distinct. */
  predicate ThreeBodies(a: string, b: string, c: string) {
    && ValidGenId("gen_" + a) && ValidTxnId("txn_" + a) && ValidGenId("gen_" + b) && ValidTxnId("txn_" + b)
    && ValidGenId("gen_" + c) && ValidTxnId("txn_" + c)
    && "gen_" + a != "gen_" + b && "gen_" + a != "gen_" + c && "gen_" + b != "gen_" + c
    && "txn_" + a != "txn_" + b && "txn_" + a != "txn_" + c && "txn_" + b != "txn_" + c
  }

  lemma SampleBodies()
    ensures ThreeBodies(ID_A, ID_B, ID_C)
  {
    SampleIdentifiers();
    assert ("gen_" + ID_C)[4] != ("gen_" + ID_A)[4] && ("gen_" + ID_C)[4] != ("gen_" + ID_B)[4];
    assert ("txn_" + ID_C)[4] != ("txn_" + ID_A)[4] && ("txn_" + ID_C)[4] != ("txn_" + ID_B)[4];
  }

  /** Two installs were committed one after the other; the third one crashed after it wrote active.json. */
  ghost function ThirdInstallDisk(a: string, b: string, c: string): World {
    var first := BuiltTxn(a, State.Committed, Missing, 1);
    var second := BuiltTxn(b, State.Committed, PointerTo(first), 2);
    var third := BuiltTxn(c, State.Activating, PointerTo(second), 3);
    World(
      [first, second, third], [], ActiveFile(RecordFor(third, 3)),
      map["gen_" + a := BuiltTree(a), "gen_" + b := BuiltTree(b), "gen_" + c := BuiltTree(c)],
      map[], map[], {}, Env("", []), 4,
      [PointerWrite(0, Missing, PointerTo(first)), PointerWrite(1, PointerTo(first), PointerTo(second)),
       PointerWrite(2, PointerTo(second), PointerTo(third))])
  }

  lemma BuiltVerifies(body: string, state: State, before: ActivePointer, at: Time)
    requires ValidGenId("gen_" + body)
    ensures Verified(BuiltTxn(body, state, before, at), Some(BuiltTree(body))) && BuiltTree(body) != map[]
  {
    hide VerifySealedTree, ValidGenId;
    SealedTreeVerifies(map[], "lineage", "txn_" + body, "gen_" + body);
    assert FILE_MANIFEST in BuiltTree(body);
  }

  lemma ThirdInstallNames(a: string, b: string, c: string)
    requires ThreeBodies(a, b, c)
    ensures var w := ThirdInstallDisk(a, b, c); Distinct(w) && AtMostOne(w.txns)
  {
    hide ValidGenId, ValidTxnId, Blank, BuiltTree;
    SampleIdentifiers();
  }

  lemma ThirdInstallTrees(a: string, b: string, c: string)
    requires ThreeBodies(a, b, c)
    ensures var w := ThirdInstallDisk(a, b, c); RecordsOk(w) && PointerOk(w) && ReplacedOk(w)
  {
    hide ValidGenId, ValidTxnId, Blank, VerifySealedTree, BuiltTree;
    SampleIdentifiers();
    var w := ThirdInstallDisk(a, b, c);
    BuiltVerifies(a, State.Committed, Missing, 1);
    BuiltVerifies(b, State.Committed, PointerTo(w.txns[0]), 2);
    BuiltVerifies(c, State.Activating, PointerTo(w.txns[1]), 3);
  }

  lemma ThirdInstallHistory(a: string, b: string, c: string)
    requires ThreeBodies(a, b, c)
    ensures var w := ThirdInstallDisk(a, b, c); HistoryOk(w.txns, w.history) && ActivatingOk(w) && TimesOk(w)
  {
    hide ThreeBodies, BuiltTree;
  }

  lemma ThirdInstallKeepsInv(a: string, b: string, c: string)
    requires ThreeBodies(a, b, c)
    ensures Inv(ThirdInstallDisk(a, b, c))
  {
    hide ThreeBodies, Distinct, RecordsOk, PointerOk, ReplacedOk, HistoryOk, ActivatingOk, TimesOk, AtMostOne;
    ThirdInstallNames(a, b, c);
    ThirdInstallTrees(a, b, c);
    ThirdInstallHistory(a, b, c);
  }

  lemma FirstIsSuperfluous(a: string, b: string, c: string)
    requires ThreeBodies(a, b, c)
    ensures var w := ThirdInstallDisk(a, b, c); Superfluous(w, 2, GenerationAt("gen_" + a))
    ensures var w := ThirdInstallDisk(a, b, c); TreeAt(w, GenerationAt("gen_" + a)) == Some(BuiltTree(a))
  {
    hide ValidGenId, ValidTxnId, VerifySealedTree, BuiltTree, VerifyPublished;
    var w := ThirdInstallDisk(a, b, c);
    BuiltVerifies(a, State.Committed, Missing, 1);
    VerifiedIsPublished(w.txns[0], Some(BuiltTree(a)));
    assert ProvenAt(w, w.txns[0], GenerationAt("gen_" + a));
    LatestHitIsLatest(w, 3);
  }

  /**
   * The commit inside recovery does delete: the older superseded generation, verified and proven, is gone at the exit
   * of the loop, before the final collection.
   */
  lemma CommitTakesEvidence(cfg: Config)
    requires Working(cfg)
    ensures var w, p := ThirdInstallDisk(ID_A, ID_B, ID_C), GenerationAt("gen_" + ID_A);
            && Inv(w) && TreeVerifies(w, w.txns[0])
            && TreeAt(w, p).Some? && TreeAt(w, p) != Some(map[]) && TreeAt(ExitDisk(cfg, w), p).None?
  {
    hide Inv, Working, ExitDisk, ThreeBodies, ThirdInstallDisk, VerifySealedTree, BuiltTree, LostAsTold;
    SampleBodies();
    FirstInstallGoes(cfg, ID_A, ID_B, ID_C);
  }

  lemma FirstInstallGoes(cfg: Config, a: string, b: string, c: string)
    requires Working(cfg) && ThreeBodies(a, b, c)
    ensures var w, p := ThirdInstallDisk(a, b, c), GenerationAt("gen_" + a);
            && Inv(w) && TreeVerifies(w, w.txns[0])
            && TreeAt(w, p).Some? && TreeAt(w, p) != Some(map[]) && TreeAt(ExitDisk(cfg, w), p).None?
  {
    hide Inv, Working, ExitDisk, VerifySealedTree, BuiltTree, LostAsTold, Superfluous, ReadActive, ValidGenId,
      ValidTxnId;
    var w, p := ThirdInstallDisk(a, b, c), GenerationAt("gen_" + a);
    ThirdInstallKeepsInv(a, b, c);
    InvLosesExactly(cfg, w);
    BuiltVerifies(a, State.Committed, Missing, 1);
    InvHistory(w);
    FirstIsSuperfluous(a, b, c);
    assert LosesFor(cfg, w, 2, p);
    ToldAt(cfg, w, ExitDisk(cfg, w), p, BuiltTree(a));
  }
}
