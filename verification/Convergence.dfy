/** Crash convergence: how recovery ends, from every reachable disk, however often it was itself interrupted. */
module Convergence {
  import opened InstallTypes
  import opened Seal
  import opened Environment
  import opened Decide
  import opened World
  import opened Collector
  import opened Recovery
  import opened ObservedWorlds
  import opened Reconcile
  import opened Termination
  import opened Runs
  import opened Safety
  import opened Refinement

  // ---------------------------------------------------------------- the predicted end

  datatype Outcome = Outcome(gate: Gate, pointer: ActivePointer, states: seq<State>)

  function StatesOf(txns: seq<Txn>): (states: seq<State>)
    ensures |states| == |txns| && forall i :: 0 <= i < |txns| ==> states[i] == txns[i].state
  {
    seq(|txns|, i requires 0 <= i < |txns| => txns[i].state)
  }

  /** WriteActive refuses a record with a blank source pin or version. */
  predicate Pinned(t: Txn) {
    !Blank(t.sourcePin) && !Blank(t.expectedVersion)
  }

  ghost function FailsAt(w: World, i: nat): Outcome
    requires i < |w.txns|
  {
    Outcome(Ready, ReadActive(w), StatesOf(w.txns)[i := State.Failed])
  }

  ghost function CommitsAt(w: World, i: nat): Outcome
    requires i < |w.txns|
  {
    Outcome(Ready, PointerTo(w.txns[i]), StatesOf(w.txns)[i := State.Committed])
  }

  ghost function StopsAt(w: World, i: nat, state: State): Outcome
    requires i < |w.txns|
  {
    Outcome(BlockedUnsafe, ReadActive(w), StatesOf(w.txns)[i := state])
  }

  /** How recovery ends for the record in flight; it depends on what was durable at the crash and nothing else. */
  ghost function PredictFor(w: World, i: nat): Outcome
    requires i < |w.txns|
  {
    var t := w.txns[i];
    match t.state
    case Created => FailsAt(w, i)
    case Building => if Forgotten(t, GenTree(w, t)) then FailsAt(w, i) else StopsAt(w, i, Building)
    case Sealed => PredictSealed(w, i)
    case Published => PredictSealed(w, i)
    case Activating =>
      if PointerNames(ReadActive(w), t) || Pinned(t) then CommitsAt(w, i) else StopsAt(w, i, State.Activating)
    case Committed => Outcome(Ready, ReadActive(w), StatesOf(w.txns))
    case Failed => Outcome(Ready, ReadActive(w), StatesOf(w.txns))
  }

  /** A sealed generation commits exactly when nothing was active before it. */
  ghost function PredictSealed(w: World, i: nat): Outcome
    requires i < |w.txns|
  {
    if !ReadActive(w).Missing? then StopsAt(w, i, Published)
    else if Pinned(w.txns[i]) then CommitsAt(w, i)
    else StopsAt(w, i, State.Activating)
  }

  ghost function Predict(w: World): Outcome {
    if exists i :: SoleTxn(w, i) then
      var i :| SoleTxn(w, i);
      PredictFor(w, i)
    else Outcome(Ready, ReadActive(w), StatesOf(w.txns))
  }

  lemma PredictSole(w: World, i: nat)
    requires AtMostOne(w.txns) && i < |w.txns| && Nonterminal(w.txns[i])
    ensures SoleTxn(w, i) && Predict(w) == PredictFor(w, i)
  {
    hide PredictFor;
    assert SoleTxn(w, i);
    assert forall j :: SoleTxn(w, j) ==> j == i;
  }

  lemma PredictIdle(w: World)
    requires !HasNonterminal(w)
    ensures Predict(w) == Outcome(Ready, ReadActive(w), StatesOf(w.txns))
  {
    forall i ensures !SoleTxn(w, i) { }
  }

  lemma InvAlone(w: World)
    requires AtMostOne(w.txns) && HasNonterminal(w)
    ensures exists i: nat :: i < |w.txns| && Nonterminal(w.txns[i])
  {
  }

  // ------------------------------------------------------------- a crash inside recovery changes nothing about the end

  lemma StatesAfter(w: World, i: nat, u: Txn, state: State)
    requires i < |w.txns|
    ensures StatesOf(Replace(w, i, u).txns)[i := state] == StatesOf(w.txns)[i := state]
    ensures StatesOf(Replace(w, i, u).txns) == StatesOf(w.txns)[i := u.state]
  {
  }

  lemma LastOneTerminates(w: World, i: nat, u: Txn)
    requires AtMostOne(w.txns) && i < |w.txns| && Nonterminal(w.txns[i]) && Terminal(u.state)
    ensures !HasNonterminal(Replace(w, i, u))
  {
  }

  lemma PointerAfter(cfg: Config, w: World, act: Act)
    requires Inv(w) && RecoveryAct(cfg, w, act)
    ensures Inv(After(w, act)) && Inv(w)
    ensures ReadActive(w) == Tip(w.history) && ReadActive(After(w, act)) == Tip(After(w, act).history)
    ensures AtMostOne(w.txns) && AtMostOne(After(w, act).txns)
  {
    hide Inv, After, Enabled, ReadActive;
    StepKeeps(cfg, w, act);
    InvHistory(w);
    InvHistory(After(w, act));
    InvSingle(w);
    InvSingle(After(w, act));
  }

  lemma FailStays(cfg: Config, w: World, i: nat, code: Code)
    requires Inv(w) && RecoveryAct(cfg, w, FailRecord(i, code))
    ensures Predict(After(w, FailRecord(i, code))) == Predict(w)
  {
    hide Inv, ReadActive, Names, Predict;
    PointerAfter(cfg, w, FailRecord(i, code));
    var u := Changed(w, w.txns[i], FailRecord(i, code));
    StatesAfter(w, i, u, State.Failed);
    PredictSole(w, i);
    LastOneTerminates(w, i, u);
    PredictIdle(After(w, FailRecord(i, code)));
  }

  lemma CommitStays(cfg: Config, w: World, i: nat)
    requires Inv(w) && RecoveryAct(cfg, w, CommitRecord(i))
    ensures Predict(After(w, CommitRecord(i))) == Predict(w)
  {
    hide Inv, ReadActive, Names, Predict, CommitObserved;
    PointerAfter(cfg, w, CommitRecord(i));
    var u := Changed(w, w.txns[i], CommitRecord(i));
    StatesAfter(w, i, u, State.Committed);
    PredictSole(w, i);
    LastOneTerminates(w, i, u);
    NamedIsTip(w, i);
    PredictIdle(After(w, CommitRecord(i)));
  }

  /** PublishRecord, MarkActive and StampActive move the record along the branch already predicted. */
  lemma ForwardStays(cfg: Config, w: World, act: Act)
    requires Inv(w) && RecoveryAct(cfg, w, act) && (act.PublishRecord? || act.MarkActive? || act.StampActive?)
    ensures Predict(After(w, act)) == Predict(w)
  {
    hide Inv, ReadActive, Predict, Blank, TreeVerifies;
    PointerAfter(cfg, w, act);
    var w' := After(w, act);
    var u := Changed(w, w.txns[act.i], act);
    StatesAfter(w, act.i, u, Published);
    StatesAfter(w, act.i, u, State.Activating);
    StatesAfter(w, act.i, u, State.Committed);
    PredictSole(w, act.i);
    PredictSole(w', act.i);
  }

  lemma SwingStays(cfg: Config, w: World, i: nat)
    requires Inv(w) && RecoveryAct(cfg, w, SwingPointer(i))
    ensures Predict(After(w, SwingPointer(i))) == Predict(w)
  {
    hide Inv, ReadActive, Predict, Blank, TreeVerifies, WriteActive;
    var act := SwingPointer(i);
    PointerAfter(cfg, w, act);
    SwingWrites(w, i);
    assert After(w, act).txns == w.txns;
    PredictSole(w, i);
    PredictSole(After(w, act), i);
  }

  /** The tree of a record in flight and the pointer survive environment writes and reclaims. */
  lemma SideStays(cfg: Config, w: World, act: Act)
    requires Inv(w) && RecoveryAct(cfg, w, act) && (act.WriteEnvironment? || act.Reclaim?)
    ensures Predict(After(w, act)) == Predict(w)
  {
    hide Inv, ReadActive, Predict, RecoveryAct, PointerNames, Pinned;
    var w' := After(w, act);
    PointerAfter(cfg, w, act);
    assert w'.txns == w.txns && w'.history == w.history;
    if HasNonterminal(w) {
      InvAlone(w);
      var i: nat :| i < |w.txns| && Nonterminal(w.txns[i]);
      PredictSole(w, i);
      PredictSole(w', i);
      InFlightKept(cfg, w, act, i);
    } else {
      PredictIdle(w);
      PredictIdle(w');
    }
  }

  lemma ClearedStays(cfg: Config, w: World, i: nat)
    requires Inv(w) && RecoveryAct(cfg, w, WriteTree(i, None))
    ensures Predict(After(w, WriteTree(i, None))) == Predict(w)
  {
    hide Inv, ReadActive, Predict, PointerNames, Pinned;
    PointerAfter(cfg, w, WriteTree(i, None));
    PredictSole(w, i);
    PredictSole(After(w, WriteTree(i, None)), i);
  }

  lemma InFlightKept(cfg: Config, w: World, act: Act, i: nat)
    requires RecoveryAct(cfg, w, act) && (act.WriteEnvironment? || act.Reclaim?) && i < |w.txns|
    requires Nonterminal(w.txns[i])
    ensures After(w, act).txns == w.txns && GenTree(After(w, act), w.txns[i]) == GenTree(w, w.txns[i])
  {
    hide LatestAmong, OwnedPlace, SubTree;
  }

  lemma PredictionStays(cfg: Config, w: World, act: Act)
    requires Inv(w) && RecoveryAct(cfg, w, act)
    ensures Predict(After(w, act)) == Predict(w)
  {
    hide Inv, Enabled, After, Predict, Forgotten;
    match act
    case FailRecord(i, code) => FailStays(cfg, w, i, code);
    case CommitRecord(i) => CommitStays(cfg, w, i);
    case PublishRecord(_) => ForwardStays(cfg, w, act);
    case MarkActive(_, _) => ForwardStays(cfg, w, act);
    case StampActive(_, _) => ForwardStays(cfg, w, act);
    case SwingPointer(i) => SwingStays(cfg, w, i);
    case WriteEnvironment(_) => SideStays(cfg, w, act);
    case Reclaim(_, _, _) => SideStays(cfg, w, act);
    case WriteTree(i, _) => ClearedStays(cfg, w, i);
    case CreateRecord(_) =>
    case BeginBuild(_) =>
    case SealRecord(_, _, _) =>
  }

  /** Wherever crashed recoveries leave the disk, the predicted end is the one of the disk they started from. */
  lemma {:induction false} CrashedRecoveriesKeepPrediction(cfg: Config, w: World, acts: seq<Act>, w': World)
    requires Inv(w) && RecoverySteps(cfg, w, acts, w')
    ensures Inv(w') && Predict(w') == Predict(w)
    decreases |acts|
  {
    hide Inv, Enabled, After, Predict;
    if acts != [] {
      PredictionStays(cfg, w, acts[0]);
      StepKeeps(cfg, w, acts[0]);
      CrashedRecoveriesKeepPrediction(cfg, After(w, acts[0]), acts[1..], w');
    }
  }

  // ---------------------------------------------------------------- one iteration of the loop

  /** What the decided action does when a record is in flight: acts of the protocol. */
  lemma CreatedTurn(cfg: Config, w: World, i: nat, obs: Observation, d: Decision)
    requires Inv(w) && SoleTxn(w, i) && w.txns[i].state == Created && DecidedAs(cfg, w, obs, d)
    ensures d == FailTxn(NoCode, NoAction)
    ensures Execute(cfg, w, obs, d) == Exec(After(w, FailRecord(i, NoCode)), true)
    ensures RecoveryAct(cfg, w, FailRecord(i, NoCode))
  {
    hide Inv, DecidedAs, ReadActive, ReconcileEnvironment, ActivateTxn, FailExtras, Primary, PersistTxnState,
      ObserveEnvironment;
    ReachableReadable(w);
    ObserveSole(cfg, w, i, obs, d);
    NoStaging(w, i);
    RecordAt(w, i);
    PersistResult(w, i, State.Failed, NoCode);
    NotNamed(w, i);
  }

  /** A record that has not reached ACTIVATING is not the one active.json names. */
  lemma NotNamed(w: World, i: nat)
    requires Inv(w) && i < |w.txns| && Nonterminal(w.txns[i]) && w.txns[i].state != State.Activating
    ensures !Names(w, w.txns[i]) && !ActiveNames(ReadActive(w), w.txns[i].generationId)
  {
    hide Inv, Names, ReadActive, HistoryOk;
    InvHistory(w);
    Unwritten(w, i);
    if ActiveNames(ReadActive(w), w.txns[i].generationId) { NamesFromRead(w, i); }
    if Names(w, w.txns[i]) { NamedIsTip(w, i); }
  }

  lemma NamesFromRead(w: World, i: nat)
    requires i < |w.txns| && ReadActive(w).Valid? && ReadActive(w).generationId == w.txns[i].generationId
    ensures Names(w, w.txns[i])
  {
  }

  /** Record i is FAILED and nothing is gone but an empty generation directory of its own. */
  ghost predicate Abandoned(w: World, i: nat, w': World)
    requires i < |w.txns|
  {
    && w'.staging == w.staging && w'.failed == w.failed
    && (w'.generations == w.generations
        || (GenTree(w, w.txns[i]) == Some(map[]) && w'.generations == w.generations - {w.txns[i].generationId}))
    && |w'.txns| == |w.txns| && w'.txns[i].state == State.Failed
    && forall j :: 0 <= j < |w.txns| && j != i ==> w'.txns[j] == w.txns[j]
  }

  lemma BuildingTurn(cfg: Config, w: World, i: nat, obs: Observation, d: Decision)
    requires Inv(w) && SoleTxn(w, i) && w.txns[i].state == Building && DecidedAs(cfg, w, obs, d)
    ensures Forgotten(w.txns[i], GenTree(w, w.txns[i])) ==>
              (!Blocks(d) && !Rests(d) && Execute(cfg, w, obs, d).ok && Recovers(cfg, w, Execute(cfg, w, obs, d).world)
               && Abandoned(w, i, Execute(cfg, w, obs, d).world))
    ensures !Forgotten(w.txns[i], GenTree(w, w.txns[i])) ==> Blocks(d)
  {
    hide Inv, DecidedAs, ReadActive, ReconcileEnvironment, ActivateTxn, FailExtras, Primary, PersistTxnState,
      ObserveEnvironment, ObserveTree, Recovers, RecoveryAct, ValidTransaction, BuildTreeOk;
    ReachableReadable(w);
    ObserveSole(cfg, w, i, obs, d);
    NoStaging(w, i);
    RecordAt(w, i);
    var found := GenTree(w, w.txns[i]);
    SeenBuilding(w.txns[i], found);
    AbsentSeen(w.txns[i]);
    if found == Some(map[]) {
      EmptyBuildFails(cfg, w, i);
    } else if Forgotten(w.txns[i], found) {
      FailAllowed(cfg, w, i, Interrupted);
      OneStep(cfg, w, FailRecord(i, Interrupted));
      PersistResult(w, i, State.Failed, Interrupted);
    }
  }

  lemma AbsentSeen(t: Txn)
    ensures ObserveTree(None, t) == AbsentTree
  {
  }

  lemma FailAllowed(cfg: Config, w: World, i: nat, code: Code)
    requires Inv(w) && i < |w.txns| && Forgotten(w.txns[i], GenTree(w, w.txns[i])) && code == FailCode(w.txns[i].state)
    ensures RecoveryAct(cfg, w, FailRecord(i, code))
    ensures After(w, FailRecord(i, code)) == Replace(w, i, WithState(w.txns[i], State.Failed, code, w.clock))
  {
    hide Inv, ReadActive;
    NotNamed(w, i);
  }

  lemma EmptyBuildFails(cfg: Config, w: World, i: nat)
    requires Inv(w) && i < |w.txns| && w.txns[i].state == Building && GenTree(w, w.txns[i]) == Some(map[])
    ensures var t := w.txns[i]; var w1 := w.(generations := w.generations - {t.generationId});
            PersistTxnState(w1, t.id, State.Failed, Interrupted).ok
            && Recovers(cfg, w, PersistTxnState(w1, t.id, State.Failed, Interrupted).world)
            && Abandoned(w, i, PersistTxnState(w1, t.id, State.Failed, Interrupted).world)
  {
    hide Inv, Recovers, PersistTxnState, ReadActive;
    var w1 := After(w, WriteTree(i, None));
    assert RecoveryAct(cfg, w, WriteTree(i, None));
    OneStep(cfg, w, WriteTree(i, None));
    RecoversKeeps(cfg, w, w1);
    InvSingle(w1);
    FailAllowed(cfg, w1, i, Interrupted);
    PersistResult(w1, i, State.Failed, Interrupted);
    OneStep(cfg, w1, FailRecord(i, Interrupted));
    RecoversCompose(cfg, w, w1, After(w1, FailRecord(i, Interrupted)));
  }

  lemma SealedTurn(cfg: Config, w: World, i: nat, obs: Observation, d: Decision)
    requires Inv(w) && SoleTxn(w, i) && w.txns[i].state == Sealed && DecidedAs(cfg, w, obs, d)
    ensures d == Do(Reconciling, Some(Published), PersistPublished)
    ensures Execute(cfg, w, obs, d) == Exec(After(w, PublishRecord(i)), true) && RecoveryAct(cfg, w, PublishRecord(i))
  {
    hide Inv, DecidedAs, ReadActive, ReconcileEnvironment, ActivateTxn, FailExtras, Primary, PersistTxnState,
      ObserveEnvironment, ObserveTree, VerifySealedTree, ValidTransaction;
    ReachableReadable(w);
    ObserveSole(cfg, w, i, obs, d);
    NoStaging(w, i);
    RecordAt(w, i);
    SeenSealed(w.txns[i], GenTree(w, w.txns[i]));
    AbsentSeen(w.txns[i]);
    PersistResult(w, i, Published, NoCode);
  }

  lemma PublishedTurn(cfg: Config, w: World, i: nat, obs: Observation, d: Decision)
    requires Inv(w) && SoleTxn(w, i) && w.txns[i].state == Published && DecidedAs(cfg, w, obs, d)
    ensures !ReadActive(w).Missing? ==> Blocks(d)
    ensures ReadActive(w).Missing? ==>
              (d == Do(Reconciling, Some(State.Activating), PersistActivating)
               && Execute(cfg, w, obs, d) == Exec(After(w, MarkActive(i, false)), true)
                     && RecoveryAct(cfg, w, MarkActive(i, false)))
  {
    hide Inv, DecidedAs, ReadActive, ReconcileEnvironment, ActivateTxn, FailExtras, Primary, ObserveEnvironment,
      ObserveTree, VerifySealedTree, ValidTransaction, Save;
    ReachableReadable(w);
    ObserveSole(cfg, w, i, obs, d);
    NoStaging(w, i);
    RecordAt(w, i);
    NotNamed(w, i);
    SeenSealed(w.txns[i], GenTree(w, w.txns[i]));
    IndexFinds(w, i);
    var u := Changed(w, w.txns[i], MarkActive(i, false));
    MarkMoves(w, i, false);
    MovesValid(w, i, u);
    SaveReplaces(w, i, u);
  }

  lemma MovesValid(w: World, i: nat, u: Txn)
    requires i < |w.txns| && Moves(w, i, u)
    ensures ValidTransaction(u)
  {
  }

  lemma CompleteIsCommitObserved(cfg: Config, w: World)
    requires EnvComplete(ObserveEnvironment(cfg, w))
    ensures LoadActive(w).Some? && CommitObserved(cfg, w, LoadActive(w).value)
  {
    hide VerifySealedTree, SamePath, Leads, PlannedPath, PathChanges;
  }

  lemma CommitTurn(cfg: Config, w: World, i: nat)
    requires Inv(w) && i < |w.txns| && w.txns[i].state == State.Activating
    requires ActiveNames(ReadActive(w), w.txns[i].generationId) && EnvComplete(ObserveEnvironment(cfg, w))
    ensures PersistTxnState(w, w.txns[i].id, State.Committed, NoCode) == Exec(After(w, CommitRecord(i)), true)
    ensures RecoveryAct(cfg, w, CommitRecord(i))
  {
    hide Inv, ReadActive, CommitObserved, ObserveEnvironment, PersistTxnState, Names;
    InvSingle(w);
    RecordAt(w, i);
    CompleteIsCommitObserved(cfg, w);
    NamesFromRead(w, i);
    PersistResult(w, i, State.Committed, NoCode);
  }

  lemma PinnedIsWritable(t: Txn, now: Time, found: Option<Tree>)
    requires ValidTransaction(t) && Verified(t, found)
    ensures ValidActiveRecord(RecordFor(t, now)) <==> Pinned(t)
  {
    VerifiedIsPublished(t, found);
  }

  /** Record i is ACTIVATING and active.json names it. */
  ghost predicate ActivatedAt(w: World, i: nat) {
    i < |w.txns| && w.txns[i].state == State.Activating && ReadActive(w) == PointerTo(w.txns[i])
  }

  /** Recovery's second half of activation: swing, then stamp the record if it has no time yet. */
  lemma SwingTurn(cfg: Config, w: World, i: nat)
    requires Inv(w) && i < |w.txns| && w.txns[i].state == State.Activating && !PointerNames(ReadActive(w), w.txns[i])
    ensures Pinned(w.txns[i]) ==> ActivateTxn(w, w.txns[i]).ok && Recovers(cfg, w, ActivateTxn(w, w.txns[i]).world)
    ensures Pinned(w.txns[i]) ==> ActivatedAt(ActivateTxn(w, w.txns[i]).world, i)
    ensures !Pinned(w.txns[i]) ==> ActivateTxn(w, w.txns[i]) == TxnExec(w, w.txns[i], false)
  {
    hide Inv, ReadActive, Recovers, VerifySealedTree, ValidActiveRecord, Blank, WriteActive, Persist, CasAllows,
      RecoveryAct;
    var t := w.txns[i];
    RecordAt(w, i);
    ReachableReadable(w);
    ActivatePassesCompare(w, i);
    PinnedIsWritable(t, w.clock, GenTree(w, t));
    assert ActivateTxn(w, t) == Swing(w, t);
    if Pinned(t) {
      SwingWrites(w, i);
      var w1 := WriteActive(w, RecordFor(t, w.clock)).world;
      SwingAllowed(cfg, w, i);
      OneStep(cfg, w, SwingPointer(i));
      RecoversKeeps(cfg, w, w1);
      InvHistory(w1);
      WriteSucceeds(w, RecordFor(t, w.clock));
      assert PointerNames(ReadActive(w1), t) && TreeVerifies(w1, t);
      if t.activatedAt.None? {
        StampTurn(cfg, w1, i, w.clock);
        RecoversCompose(cfg, w, w1, Persist(w1, t.(activatedAt := Some(w.clock), updatedAt := w.clock)).world);
      }
    } else {
      WriteRefuses(w, RecordFor(t, w.clock));
    }
  }

  lemma WriteSucceeds(w: World, r: ActiveRecord)
    requires ValidActiveRecord(r)
    ensures WriteActive(w, r).ok
  {
  }

  lemma WriteRefuses(w: World, r: ActiveRecord)
    requires !ValidActiveRecord(r)
    ensures WriteActive(w, r) == Exec(w, false)
  {
  }

  lemma SwingAllowed(cfg: Config, w: World, i: nat)
    requires i < |w.txns| && w.txns[i].state == State.Activating && TreeVerifies(w, w.txns[i])
    requires !PointerNames(ReadActive(w), w.txns[i])
    requires CasAllows(w.txns[i], ReadActive(w)) && ValidActiveRecord(RecordFor(w.txns[i], w.clock))
    ensures RecoveryAct(cfg, w, SwingPointer(i))
    ensures After(w, SwingPointer(i)) == WriteActive(w, RecordFor(w.txns[i], w.clock)).world
  {
  }

  lemma StampTurn(cfg: Config, w: World, i: nat, at: Time)
    requires Inv(w) && i < |w.txns| && w.txns[i].state == State.Activating && w.txns[i].activatedAt.None?
    requires at <= w.clock
    ensures var u := w.txns[i].(activatedAt := Some(at), updatedAt := at);
            && Persist(w, u).ok && Recovers(cfg, w, Persist(w, u).world)
            && (ActivatedAt(w, i) ==> ActivatedAt(Persist(w, u).world, i))
  {
    hide Inv, Recovers, Persist, VerifyPublished;
    var u := w.txns[i].(activatedAt := Some(at), updatedAt := at);
    InvSingle(w);
    StampMoves(w, i, at);
    MovesValid(w, i, u);
    PersistReplaces(w, i, u);
    assert RecoveryAct(cfg, w, StampActive(i, at));
    OneStep(cfg, w, StampActive(i, at));
  }

  lemma PolicyExists(cfg: Config, w: World, i: nat, allowStale: bool)
    requires i < |w.txns| && TreeVerifies(w, w.txns[i])
    requires w.active.ActiveFile? && w.active.record == RecordFor(w.txns[i], w.active.record.activatedAt)
    ensures PolicyFromActive(cfg, w, w.active.record, allowStale).Some?
  {
  }

  lemma TipRecord(w: World, i: nat)
    requires Inv(w) && i < |w.txns| && ReadActive(w) == PointerTo(w.txns[i])
    ensures TipWriter(w.history) == i && TreeVerifies(w, w.txns[i]) && w.active.ActiveFile?
    ensures LoadActive(w) == Some(w.active.record)
    ensures w.active.record == RecordFor(w.txns[i], w.active.record.activatedAt)
    ensures w.txns[i].state == State.Activating || w.txns[i].state == State.Committed
  {
    hide RecordsOk, ReplacedOk, TimesOk, AtMostOne, ValidTransaction, ActivatingOk, ReadActive, VerifySealedTree,
      HistoryOk;
    PointerReads(w);
    if w.history != [] { LastLink(w); }
  }

  /** With a working environment the named record is reconciled, and an activating one is committed. */
  lemma ReconcileTurn(cfg: Config, w: World, i: nat)
    requires Working(cfg) && Inv(w) && i < |w.txns| && ReadActive(w) == PointerTo(w.txns[i])
    ensures ReconcileEnvironment(cfg, w, w.txns[i].id).ok
    ensures Recovers(cfg, w, ReconcileEnvironment(cfg, w, w.txns[i].id).world)
  {
    hide Inv, Recovers, ReadActive, VerifySealedTree, CommitAndCollect, ReconcileOnce, CommitObserved, HasCommitted,
      Working;
    InvSingle(w);
    IndexFinds(w, i);
    TipRecord(w, i);
    ReconcileRuns(cfg, w, i);
    var r := w.active.record;
    PolicyExists(cfg, w, i, w.txns[i].state == State.Committed || HasCommitted(w));
    OnceSucceeds(cfg, w, r, w.txns[i].state == State.Committed || HasCommitted(w));
    if w.txns[i].state == State.Activating {
      ActivatingReconciles(cfg, w, i, r);
      PolicyExists(cfg, w, i, HasCommitted(w));
      OnceCompletes(cfg, w, r, HasCommitted(w));
      CommitStep(cfg, FirstPass(cfg, w, r).world, i, r);
    }
  }

  lemma OnceSucceeds(cfg: Config, w: World, r: ActiveRecord, allowStale: bool)
    requires Working(cfg) && PolicyFromActive(cfg, w, r, allowStale).Some?
    ensures ReconcileOnce(cfg, w, r, allowStale).ok
  {
    OnceWorks(cfg, w, r, allowStale);
  }

  lemma ActivatingTurn(cfg: Config, w: World, i: nat, obs: Observation, d: Decision)
    requires Inv(w) && SoleTxn(w, i) && w.txns[i].state == State.Activating && DecidedAs(cfg, w, obs, d)
    ensures !Blocks(d) && !Rests(d) && Recovers(cfg, w, Execute(cfg, w, obs, d).world)
    ensures PointerNames(ReadActive(w), w.txns[i]) ==> ReadActive(w) == PointerTo(w.txns[i])
    ensures PointerNames(ReadActive(w), w.txns[i]) ==>
              Execute(cfg, w, obs, d) ==
              if EnvComplete(ObserveEnvironment(cfg, w)) then Exec(After(w, CommitRecord(i)), true)
              else ReconcileEnvironment(cfg, w, w.txns[i].id)
    ensures PointerNames(ReadActive(w), w.txns[i]) && !EnvComplete(ObserveEnvironment(cfg, w)) ==>
              d.action == ReconcileEnv
    ensures !PointerNames(ReadActive(w), w.txns[i]) && Pinned(w.txns[i]) ==>
              Execute(cfg, w, obs, d) == Exec(ActivateTxn(w, w.txns[i]).world, true)
    ensures !PointerNames(ReadActive(w), w.txns[i]) && !Pinned(w.txns[i]) ==>
              (Execute(cfg, w, obs, d) == Exec(w, false) && d.action == Action.Activate)
  {
    hide Inv, DecidedAs, ReadActive, ReconcileEnvironment, ActivateTxn, FailExtras, Primary, ObserveEnvironment,
      Recovers, ObserveTree, VerifySealedTree, ValidTransaction, PersistTxnState, CasAllows, RecoveryAct, Blank,
      ExpectedPredecessor, After;
    ReachableReadable(w);
    ObserveSole(cfg, w, i, obs, d);
    RecordAt(w, i);
    SeenSealed(w.txns[i], GenTree(w, w.txns[i]));
    IndexFinds(w, i);
    ActivatePassesCompare(w, i);
    if ActiveNames(ReadActive(w), w.txns[i].generationId) {
      NamedPointer(w, i);
      if EnvComplete(obs.environment) {
        CommitTurn(cfg, w, i);
        OneStep(cfg, w, CommitRecord(i));
      } else {
        ReconcileRuns(cfg, w, i);
      }
    } else {
      CasMatchesDecision(w.txns[i], ReadActive(w));
      NoSteps(cfg, w);
      SwingTurn(cfg, w, i);
    }
  }

  lemma NamedPointer(w: World, i: nat)
    requires Inv(w) && i < |w.txns| && ActiveNames(ReadActive(w), w.txns[i].generationId)
    ensures ReadActive(w) == PointerTo(w.txns[i])
  {
    hide Inv, ReadActive;
    NamesFromRead(w, i);
    NamedIsTip(w, i);
  }

  // ---------------------------------------------------------------- the disk at rest

  lemma NamedTurn(cfg: Config, w: World, k: int, obs: Observation, d: Decision)
    requires Inv(w) && !HasNonterminal(w) && NamedTxn(w, k) && DecidedAs(cfg, w, obs, d)
    ensures !Blocks(d) && d.gate == Ready && ReadActive(w) == PointerTo(w.txns[k])
    ensures Rests(d) <==> EnvComplete(ObserveEnvironment(cfg, w))
    ensures !Rests(d) ==>
              d.action == ReconcileEnv && Execute(cfg, w, obs, d) == ReconcileEnvironment(cfg, w, w.txns[k].id)
  {
    hide Inv, DecidedAs, ReadActive, ReconcileEnvironment, ActivateTxn, FailExtras, Primary, ObserveEnvironment,
      ObserveTree, VerifySealedTree, ValidTransaction, PersistTxnState;
    ReachableReadable(w);
    ObserveNamed(cfg, w, k, obs, d);
    NoStaging(w, k);
    NamesFromRead(w, k);
    NamedIsTip(w, k);
    TipRecord(w, k);
    IndexFinds(w, k);
    TerminalAt(w, k);
  }

  lemma TerminalAt(w: World, k: int)
    requires !HasNonterminal(w) && 0 <= k < |w.txns|
    ensures Terminal(w.txns[k].state)
  {
    assert Nonterminal(w.txns[k]) ==> HasNonterminal(w);
  }

  /** A disk recovery has nothing left to do on. */
  ghost predicate AtRest(cfg: Config, w: World) {
    !HasNonterminal(w) && ((exists k :: NamedTxn(w, k)) ==> EnvComplete(ObserveEnvironment(cfg, w)))
  }

  lemma IdleTurn(cfg: Config, w: World, obs: Observation, d: Decision)
    requires Inv(w) && !HasNonterminal(w) && DecidedAs(cfg, w, obs, d)
    ensures !Blocks(d) && d.gate == Ready
    ensures Rests(d) <==> AtRest(cfg, w)
    ensures !Rests(d) ==>
              && d.action == ReconcileEnv
              && exists k: nat ::
                   NamedTxn(w, k) && Execute(cfg, w, obs, d) == ReconcileEnvironment(cfg, w, w.txns[k].id)
  {
    hide Inv, DecidedAs, ReadActive, Execute, ReconcileEnvironment, ObserveEnvironment, HasNonterminal;
    ReachableReadable(w);
    if exists k :: NamedTxn(w, k) {
      var k :| NamedTxn(w, k);
      NamedTurn(cfg, w, k, obs, d);
    } else {
      ObserveUnnamed(cfg, w, obs, d);
    }
  }

  lemma CollectKeepsComplete(cfg: Config, w: World)
    requires EnvComplete(ObserveEnvironment(cfg, w)) && ReadActive(w).Valid?
    ensures EnvComplete(ObserveEnvironment(cfg, Collect(w)))
  {
    hide VerifySealedTree, Superseded, LatestHitAmong, SamePath, Leads, PlannedPath, PathChanges, Candidate;
    var c, h := LatestCommitted(w.txns, ActiveGen(w), |w.txns|), LatestHit(w, |w.txns|);
    CollectedPlaces(w, c, h, GenerationAt(LoadActive(w).value.generationId));
  }

  lemma CollectKeepsRest(cfg: Config, w: World)
    requires Inv(w) && AtRest(cfg, w)
    ensures AtRest(cfg, Collect(w)) && ReadActive(Collect(w)) == ReadActive(w) && Collect(w).txns == w.txns
  {
    hide Inv, ReadActive, ObserveEnvironment, Superseded, LatestHitAmong, CollectWith, Candidate;
    var w1 := Collect(w);
    assert w1.txns == w.txns by { CollectSameRecords(w); }
    CollectKeepsPointer(w, LatestCommitted(w.txns, ActiveGen(w), |w.txns|), LatestHit(w, |w.txns|));
    if exists k :: NamedTxn(w1, k) {
      var k :| NamedTxn(w1, k);
      assert NamedTxn(w, k);
      CollectKeepsComplete(cfg, w);
    }
    assert HasNonterminal(w1) ==> HasNonterminal(w);
  }

  lemma CollectSameRecords(w: World)
    ensures Collect(w).txns == w.txns
  {
  }

  // ---------------------------------------------------------------- the end of a recovery

  /** Recovering this disk once more reports the same gate and changes nothing. */
  ghost predicate Still(cfg: Config, w: World, gate: Gate) {
    RecoverWith(cfg, w).world == w && RecoverWith(cfg, w).gate == gate
  }

  ghost function Ended(r: Recovered): Outcome {
    Outcome(r.gate, ReadActive(r.world), StatesOf(r.world.txns))
  }

  lemma SetSame(txns: seq<Txn>, i: nat)
    requires i < |txns|
    ensures StatesOf(txns)[i := txns[i].state] == StatesOf(txns)
  {
  }

  /** Reconciling the record active.json names fails on this disk, and leaves it so. */
  ghost predicate ReconcileFails(cfg: Config, w: World, i: nat, w': World) {
    && i < |w.txns| && ReadActive(w) == PointerTo(w.txns[i])
    && ReconcileEnvironment(cfg, w, w.txns[i].id) == Exec(w', false)
  }

  /** Each iteration either stops at the predicted end, or acts by steps of the protocol. */
  lemma Turn(cfg: Config, w: World, obs: Observation, d: Decision)
    requires Inv(w) && DecidedAs(cfg, w, obs, d)
    ensures Blocks(d) ==> Predict(w) == Outcome(BlockedUnsafe, ReadActive(w), StatesOf(w.txns))
    ensures !Blocks(d) && Rests(d) ==> (AtRest(cfg, w) && d.gate == Ready)
    ensures !Blocks(d) && !Rests(d) ==> Recovers(cfg, w, Execute(cfg, w, obs, d).world)
    ensures !Blocks(d) && !Rests(d) && !Execute(cfg, w, obs, d).ok ==>
              || (d.action == Action.Activate && Execute(cfg, w, obs, d).world == w
                  && Predict(w) == Outcome(BlockedUnsafe, ReadActive(w), StatesOf(w.txns)))
              || (d.action == ReconcileEnv && exists i: nat :: ReconcileFails(cfg, w, i, Execute(cfg, w, obs, d).world))
  {
    hide Inv, DecidedAs, Execute, Recovers, ReadActive, AtRest, Predict, RecoveryAct, After, PointerNames, Forgotten,
      Pinned, ReconcileFails, Blocks, Rests;
    if HasNonterminal(w) {
      InvSingle(w);
      InvAlone(w);
      var i: nat :| i < |w.txns| && Nonterminal(w.txns[i]);
      PredictSole(w, i);
      SetSame(w.txns, i);
      SoleTurn(cfg, w, i, obs, d);
    } else {
      IdleTurn(cfg, w, obs, d);
      if !Rests(d) { IdleReconciles(cfg, w, obs, d); }
    }
  }

  lemma IdleReconciles(cfg: Config, w: World, obs: Observation, d: Decision)
    requires Inv(w) && !HasNonterminal(w) && DecidedAs(cfg, w, obs, d) && !Rests(d)
    ensures Recovers(cfg, w, Execute(cfg, w, obs, d).world)
    ensures !Execute(cfg, w, obs, d).ok ==>
              exists i: nat :: ReconcileFails(cfg, w, i, Execute(cfg, w, obs, d).world)
  {
    hide Inv, DecidedAs, Execute, Recovers, ReadActive, HasNonterminal, ReconcileEnvironment, Rests, Blocks;
    IdleTurn(cfg, w, obs, d);
    var k: nat :| NamedTxn(w, k) && Execute(cfg, w, obs, d) == ReconcileEnvironment(cfg, w, w.txns[k].id);
    NamedTurn(cfg, w, k, obs, d);
    ReconcileRuns(cfg, w, k);
    if !Execute(cfg, w, obs, d).ok {
      assert ReconcileFails(cfg, w, k, Execute(cfg, w, obs, d).world);
    }
  }

  lemma SoleTurn(cfg: Config, w: World, i: nat, obs: Observation, d: Decision)
    requires Inv(w) && SoleTxn(w, i) && DecidedAs(cfg, w, obs, d)
    ensures Blocks(d) ==> PredictFor(w, i) == StopsAt(w, i, w.txns[i].state)
    ensures !Blocks(d) ==> !Rests(d) && Recovers(cfg, w, Execute(cfg, w, obs, d).world)
    ensures !Blocks(d) && !Execute(cfg, w, obs, d).ok ==>
              || (d.action == Action.Activate && Execute(cfg, w, obs, d).world == w
                  && PredictFor(w, i) == StopsAt(w, i, w.txns[i].state))
              || (d.action == ReconcileEnv && ReconcileFails(cfg, w, i, Execute(cfg, w, obs, d).world))
  {
    hide Inv, DecidedAs, Execute, Recovers, ReadActive, RecoveryAct, After, PointerNames, Forgotten, Pinned,
      ReconcileEnvironment;
    match w.txns[i].state
    case Created =>
      CreatedTurn(cfg, w, i, obs, d);
      OneStep(cfg, w, FailRecord(i, NoCode));
    case Building => BuildingTurn(cfg, w, i, obs, d);
    case Sealed =>
      SealedTurn(cfg, w, i, obs, d);
      OneStep(cfg, w, PublishRecord(i));
    case Published =>
      PublishedTurn(cfg, w, i, obs, d);
      if ReadActive(w).Missing? { OneStep(cfg, w, MarkActive(i, false)); }
    case Activating => ActivatingTurn(cfg, w, i, obs, d);
    case Committed =>
    case Failed =>
  }

  /** The run was stopped by a reconciliation that failed on a disk it had reached. */
  ghost predicate Stuck(cfg: Config, w: World, r: Recovered) {
    && r.stop == ActionFailed && r.decision.action == ReconcileEnv
    && exists v, i: nat :: Recovers(cfg, w, v) && ReconcileFails(cfg, v, i, r.world)
  }

  /** The run ended as predicted, and would end again at the same place. */
  ghost predicate EndsWell(cfg: Config, w: World, r: Recovered) {
    Ended(r) == Predict(w) && Still(cfg, r.world, r.gate) && (r.gate == Ready ==> AtRest(cfg, r.world))
  }

  /**
   * From any iteration on and with any environment, a loop that stops by itself stops at the prediction, and again at
   * the same place; or it is stuck, and then, and only then, the gate is RECONCILING.
   */
  lemma {:induction false} LoopEnds(cfg: Config, w: World, step: nat, prev: Decision)
    requires Inv(w) && step <= MAX_RECOVER_STEPS
    requires Recover(cfg, w, step, prev).stop == Finished || Recover(cfg, w, step, prev).stop == ActionFailed
    ensures var r := Recover(cfg, w, step, prev);
            Recovers(cfg, w, r.world) && if r.gate == Reconciling then Stuck(cfg, w, r) else EndsWell(cfg, w, r)
    decreases MAX_RECOVER_STEPS - step
  {
    hide Inv, Observe, DecisionFor, Execute, Recovers, ReadActive, AtRest, Predict, Collect, ReconcileFails, Still;
    var obs := Observe(cfg, w);
    var d := DecisionFor(obs);
    assert DecidedAs(cfg, w, obs, d);
    Turn(cfg, w, obs, d);
    NoSteps(cfg, w);
    if Blocks(d) {
      StillAt(cfg, w, obs, d);
    } else if Rests(d) {
      RestEnds(cfg, w);
    } else if Execute(cfg, w, obs, d).ok {
      var w1 := Execute(cfg, w, obs, d).world;
      RecoversKeeps(cfg, w, w1);
      RecoversPredict(cfg, w, w1);
      LoopEnds(cfg, w1, step + 1, d);
      var r := Recover(cfg, w1, step + 1, d);
      RecoversCompose(cfg, w, w1, r.world);
      if r.gate == Reconciling { StuckLater(cfg, w, w1, r); }
    } else if d.action == Action.Activate {
      StillAt(cfg, w, obs, d);
    }
  }

  /** A run whose first decision blocks, or fails without a change, ends there again. */
  lemma StillAt(cfg: Config, w: World, obs: Observation, d: Decision)
    requires DecidedAs(cfg, w, obs, d)
    requires Blocks(d) || (!Rests(d) && Execute(cfg, w, obs, d) == Exec(w, false) && d.action != ReconcileEnv)
    ensures Still(cfg, w, BlockedUnsafe)
  {
    hide Observe, DecisionFor, Execute;
  }

  lemma StuckLater(cfg: Config, w: World, w1: World, r: Recovered)
    requires Recovers(cfg, w, w1) && Stuck(cfg, w1, r)
    ensures Stuck(cfg, w, r)
  {
    hide Recovers, ReconcileFails;
    var v, i: nat :| Recovers(cfg, w1, v) && ReconcileFails(cfg, v, i, r.world);
    RecoversCompose(cfg, w, w1, v);
  }

  /** A working environment never fails a reconciliation. */
  lemma WorkingReconciles(cfg: Config, w: World, i: nat, w': World)
    requires Working(cfg) && Inv(w)
    ensures !ReconcileFails(cfg, w, i, w')
  {
    hide Inv, Working, ReadActive, ReconcileEnvironment;
    if ReconcileFails(cfg, w, i, w') { ReconcileTurn(cfg, w, i); }
  }

  lemma WorkingIsNotStuck(cfg: Config, w: World, r: Recovered)
    requires Working(cfg) && Inv(w)
    ensures !Stuck(cfg, w, r)
  {
    hide Inv, Working, Recovers, ReconcileFails;
    if Stuck(cfg, w, r) {
      var v, i: nat :| Recovers(cfg, w, v) && ReconcileFails(cfg, v, i, r.world);
      RecoversKeeps(cfg, w, v);
      WorkingReconciles(cfg, v, i, r.world);
    }
  }

  lemma RecoversPredict(cfg: Config, w: World, w': World)
    requires Inv(w) && Recovers(cfg, w, w')
    ensures Predict(w') == Predict(w)
  {
    hide Inv, RecoverySteps, Predict;
    var acts :| RecoverySteps(cfg, w, acts, w');
    CrashedRecoveriesKeepPrediction(cfg, w, acts, w');
  }

  lemma RestEnds(cfg: Config, w: World)
    requires Inv(w) && AtRest(cfg, w)
    ensures Recovers(cfg, w, Collect(w)) && Still(cfg, Collect(w), Ready) && AtRest(cfg, Collect(w))
    ensures Predict(w) == Outcome(Ready, ReadActive(Collect(w)), StatesOf(Collect(w).txns))
  {
    hide Inv, Observe, DecisionFor, Execute, Recovers, ReadActive, Predict, Collect, ObserveEnvironment, HasNonterminal;
    CollectRuns(cfg, w);
    RecoversKeeps(cfg, w, Collect(w));
    CollectKeepsRest(cfg, w);
    CollectIsIdempotent(w);
    PredictIdle(w);
    var obs := Observe(cfg, Collect(w));
    var d := DecisionFor(obs);
    assert DecidedAs(cfg, Collect(w), obs, d);
    IdleTurn(cfg, Collect(w), obs, d);
  }

  lemma NoPairReachable(w: World)
    requires Inv(w)
    ensures !TwoEmptyStagings(w)
  {
    hide Distinct, PointerOk, HistoryOk, ReplacedOk, ActivatingOk, AtMostOne, RecordOk, TimesOk;
  }

  /** Recoveries cut one after the other, each with a backend of its own. */
  ghost predicate CutRecoveries(w: World, sessions: seq<Session>, w': World)
    decreases |sessions|
  {
    if sessions == [] then w' == w
    else
      var w1 := Replay(w, sessions[0].acts);
      RecoverySteps(sessions[0].cfg, w, sessions[0].acts, w1) && CutRecoveries(w1, sessions[1..], w')
  }

  lemma {:induction false} CutRecoveriesKeepPrediction(w: World, sessions: seq<Session>, w': World)
    requires Inv(w) && CutRecoveries(w, sessions, w')
    ensures Inv(w') && Predict(w') == Predict(w)
    decreases |sessions|
  {
    hide Inv, RecoverySteps, Predict, Replay;
    if sessions != [] {
      var w1 := Replay(w, sessions[0].acts);
      CrashedRecoveriesKeepPrediction(sessions[0].cfg, w, sessions[0].acts, w1);
      CutRecoveriesKeepPrediction(w1, sessions[1..], w');
    }
  }

  /**
   * Crash convergence. Take any processes running installs, recoveries and collections, the last one cut at any durable
   * step, then any number of recoveries that are themselves cut at any durable step, each process with whatever
   * environment it met. A recovery that is not cut and has a working environment ends exactly as predicted from the
   * first cut: gate, pointer and the state of every record. Running it again changes nothing.
   */
  lemma CrashConvergence(cfg: Config, w0: World, past: seq<Session>, w: World, cut: seq<Session>, w1: World)
    requires Working(cfg) && Initial(w0) && Sessions(w0, past, w) && CutRecoveries(w, cut, w1)
    ensures var r := RecoverWith(cfg, w1);
            && Ended(r) == Predict(w)
            && (r.gate == Ready ==> AtRest(cfg, r.world))
            && Still(cfg, r.world, r.gate)
            && Recovers(cfg, w1, r.world)
            && r.steps <= 6 && (r.stop == Finished || r.stop == ActionFailed)
  {
    hide Inv, Working, Sessions, CutRecoveries, Recovers, Predict, Initial, Still, Ended, AtRest, Stuck, Recover;
    InitialInv(w0);
    SessionsKeep(w0, past, w);
    CutRecoveriesKeepPrediction(w, cut, w1);
    InvSingle(w1);
    RecoveryTerminates(cfg, w1);
    NoPairReachable(w1);
    LoopEnds(cfg, w1, 0, NoDecision);
    WorkingIsNotStuck(cfg, w1, RecoverWith(cfg, w1));
  }

  /** A record that a recovery fails carries the code of the state it was found in; no other code changes. */
  predicate CodeTold(t: Txn, u: Txn) {
    && u.errorCode == (if Failable(t.state) && u.state == State.Failed then FailCode(t.state) else t.errorCode)
    && (if Failable(t.state) then u.state == t.state || u.state == State.Failed
        else !Failable(u.state) && (u.state == State.Failed <==> t.state == State.Failed))
  }

  ghost predicate CodesTold(w: World, w': World) {
    |w'.txns| == |w.txns| && forall i :: 0 <= i < |w.txns| ==> CodeTold(w.txns[i], w'.txns[i])
  }

  lemma ChangeTellsCode(cfg: Config, w: World, act: Act)
    requires RecoveryAct(cfg, w, act) && SavesOn(act)
    ensures act.i < |w.txns| && CodeTold(w.txns[act.i], Changed(w, w.txns[act.i], act))
  {
    hide ReadActive, TreeVerifies, CasAllows, CommitObserved, Names;
  }

  lemma StepTellsCodes(cfg: Config, w: World, act: Act)
    requires RecoveryAct(cfg, w, act)
    ensures CodesTold(w, After(w, act))
  {
    hide ReadActive, EnabledOn, Changed, LatestAmong, Shielded, OwnedPlace, SubTree;
    if SavesOn(act) {
      ChangeTellsCode(cfg, w, act);
    } else {
      assert After(w, act).txns == w.txns;
    }
  }

  lemma CodesCompose(w: World, w1: World, w2: World)
    requires CodesTold(w, w1) && CodesTold(w1, w2)
    ensures CodesTold(w, w2)
  {
    forall i | 0 <= i < |w.txns| ensures CodeTold(w.txns[i], w2.txns[i]) {
      assert CodeTold(w.txns[i], w1.txns[i]) && CodeTold(w1.txns[i], w2.txns[i]);
    }
  }

  lemma {:induction false} StepsTellCodes(cfg: Config, w: World, acts: seq<Act>, w': World)
    requires RecoverySteps(cfg, w, acts, w')
    ensures CodesTold(w, w')
    decreases |acts|
  {
    hide RecoveryAct, After;
    if acts != [] {
      StepTellsCodes(cfg, w, acts[0]);
      StepsTellCodes(cfg, After(w, acts[0]), acts[1..], w');
      CodesCompose(w, After(w, acts[0]), w');
    }
  }

  lemma {:induction false} CutRecoveriesTellCodes(w: World, sessions: seq<Session>, w': World)
    requires CutRecoveries(w, sessions, w')
    ensures CodesTold(w, w')
    decreases |sessions|
  {
    hide RecoverySteps, Replay;
    if sessions != [] {
      var w1 := Replay(w, sessions[0].acts);
      StepsTellCodes(sessions[0].cfg, w, sessions[0].acts, w1);
      CutRecoveriesTellCodes(w1, sessions[1..], w');
      CodesCompose(w, w1, w');
    }
  }

  lemma RecoversTellsCodes(cfg: Config, w: World, w': World)
    requires Recovers(cfg, w, w')
    ensures CodesTold(w, w')
  {
    hide RecoverySteps;
    var acts :| RecoverySteps(cfg, w, acts, w');
    StepsTellCodes(cfg, w, acts, w');
  }

  /** How an interrupted install of record i ends, state by state of the crash. */
  ghost predicate EndsAsExpected(w: World, i: nat, r: Recovered)
    requires i < |w.txns|
  {
    var t, end := w.txns[i], Ended(r);
    && |end.states| == |w.txns| == |r.world.txns|
    && (forall j :: 0 <= j < |w.txns| && j != i ==> end.states[j] == w.txns[j].state)
    && (t.state == Created ==> end.gate == Ready && end.states[i] == State.Failed && end.pointer == ReadActive(w))
    && (t.state == Building ==> end.pointer == ReadActive(w))
    && (t.state == Created ==> r.world.txns[i].errorCode == NoCode)
    && (t.state == Building && end.states[i] == State.Failed ==> r.world.txns[i].errorCode == Interrupted)
    && (t.state == Building && Forgotten(t, GenTree(w, t)) ==> end.gate == Ready && end.states[i] == State.Failed)
    && (t.state == Building && !Forgotten(t, GenTree(w, t)) ==> end.gate == BlockedUnsafe && end.states[i] == Building)
    && ((t.state == Sealed || t.state == Published) && ReadActive(w).Valid? ==>
          end.gate == BlockedUnsafe && end.states[i] == Published && end.pointer == ReadActive(w))
    && ((t.state == Sealed || t.state == Published) && ReadActive(w).Missing? && Pinned(t) ==>
          end.gate == Ready && end.states[i] == State.Committed && end.pointer == PointerTo(t))
    && (t.state == State.Activating && (PointerNames(ReadActive(w), t) || Pinned(t)) ==>
          end.gate == Ready && end.states[i] == State.Committed && end.pointer == PointerTo(t))
    && (!Pinned(t) && (Sealed == t.state || t.state == Published || t.state == State.Activating)
          && !PointerNames(ReadActive(w), t) ==>
          end.gate == BlockedUnsafe && end.pointer == ReadActive(w))
  }

  /** The end of an interrupted install, spelled out. */
  lemma InterruptedInstallEnds(cfg: Config, w0: World, past: seq<Session>, w: World, cut: seq<Session>, w1: World,
          i: nat)
    requires Working(cfg) && Initial(w0) && Sessions(w0, past, w) && CutRecoveries(w, cut, w1)
    requires i < |w.txns| && Nonterminal(w.txns[i])
    ensures EndsAsExpected(w, i, RecoverWith(cfg, w1))
  {
    hide Inv, Working, Sessions, CutRecoveries, Recovers, Predict, Initial, Still, AtRest, Forgotten, Pinned,
      RecoverWith, ReadActive;
    CrashConvergence(cfg, w0, past, w, cut, w1);
    CutRecoveriesTellCodes(w, cut, w1);
    RecoversTellsCodes(cfg, w1, RecoverWith(cfg, w1).world);
    InitialInv(w0);
    SessionsKeep(w0, past, w);
    InvSingle(w);
    PredictSole(w, i);
    ReachableReadable(w);
  }

  // ---------------------------------------------------------------- any environment

  lemma TurnTakesSteps(cfg: Config, w: World, obs: Observation, d: Decision)
    requires Inv(w) && DecidedAs(cfg, w, obs, d) && !Blocks(d) && !Rests(d)
    ensures Recovers(cfg, w, Execute(cfg, w, obs, d).world)
  {
    hide Inv, DecidedAs, Execute, Recovers, ReadActive, RecoveryAct, After, Forgotten, Pinned, PointerNames, Blocks,
      Rests;
    if HasNonterminal(w) {
      InvSingle(w);
      InvAlone(w);
      var i: nat :| i < |w.txns| && Nonterminal(w.txns[i]);
      assert SoleTxn(w, i);
      match w.txns[i].state
      case Created => CreatedTurn(cfg, w, i, obs, d); OneStep(cfg, w, FailRecord(i, NoCode));
      case Building => BuildingTurn(cfg, w, i, obs, d);
      case Sealed => SealedTurn(cfg, w, i, obs, d); OneStep(cfg, w, PublishRecord(i));
      case Published =>
        PublishedTurn(cfg, w, i, obs, d);
        if ReadActive(w).Missing? { OneStep(cfg, w, MarkActive(i, false)); }
      case Activating => ActivatingTurn(cfg, w, i, obs, d);
      case Committed =>
      case Failed =>
    } else {
      IdleTurn(cfg, w, obs, d);
      var k: nat :| NamedTxn(w, k) && Execute(cfg, w, obs, d) == ReconcileEnvironment(cfg, w, w.txns[k].id);
      ReconcileRuns(cfg, w, k);
    }
  }

  /** Recovery takes only steps of the protocol, with any environment backend, finished or failed. */
  lemma {:induction false} RecoveryTakesSteps(cfg: Config, w: World, step: nat, prev: Decision)
    requires Inv(w) && step <= MAX_RECOVER_STEPS
    ensures Recovers(cfg, w, Recover(cfg, w, step, prev).world)
    decreases MAX_RECOVER_STEPS - step
  {
    hide Inv, Observe, DecisionFor, Execute, Recovers, Collect;
    NoSteps(cfg, w);
    if step < MAX_RECOVER_STEPS {
      var obs := Observe(cfg, w);
      var d := DecisionFor(obs);
      assert DecidedAs(cfg, w, obs, d);
      CollectRuns(cfg, w);
      if !Blocks(d) && !Rests(d) {
        TurnTakesSteps(cfg, w, obs, d);
        var w1 := Execute(cfg, w, obs, d).world;
        RecoversKeeps(cfg, w, w1);
        RecoveryTakesSteps(cfg, w1, step + 1, d);
        RecoversCompose(cfg, w, w1, Recover(cfg, w1, step + 1, d).world);
      }
    }
  }

  // ---------------------------------------------------------------- a record active.json cannot name

  /** A first install whose record has a blank source pin, crashed once it was sealed. */
  ghost function BlankPinDisk(body: string): World {
    var tree := WithSeal(map[], "lineage", "txn_" + body, "gen_" + body);
    var t := SampleTxn(body, Sealed, Sha256(tree[FILE_MANIFEST]), Sha256(tree[FILE_GENERATION])).(sourcePin := "");
    World([t], [], NoActive, map["gen_" + body := tree], map[], map[], {}, Env("", []), 2, [])
  }

  lemma BlankPinDiskKeepsInv(body: string)
    requires ValidTxnId("txn_" + body) && ValidGenId("gen_" + body)
    ensures var w := BlankPinDisk(body); Inv(w) && ValidTransaction(w.txns[0]) && !Pinned(w.txns[0])
  {
    hide ValidGenId, ValidTxnId, VerifySealedTree, WithSeal;
    SampleIdentifiers();
    SealedTreeVerifies(map[], "lineage", "txn_" + body, "gen_" + body);
    var w := BlankPinDisk(body);
    assert Verified(w.txns[0], GenTree(w, w.txns[0]));
  }

  /** Such a record is valid to the store, and recovery, which publishes and activates it, blocks. */
  lemma BlankPinBlocks(cfg: Config)
    requires Working(cfg)
    ensures var w := BlankPinDisk(ID_A); var r := RecoverWith(cfg, w);
            && Inv(w) && ValidTransaction(w.txns[0]) && !Pinned(w.txns[0])
            && r.gate == BlockedUnsafe && ReadActive(r.world).Missing?
            && |r.world.txns| == 1 && r.world.txns[0].state == State.Activating
  {
    hide Inv, Working, Still, AtRest, Recovers, Predict, RecoverWith, Pinned, ValidTransaction,
      ValidTxnId, ValidGenId;
    var w := BlankPinDisk(ID_A);
    SampleIdentifiers();
    BlankPinDiskKeepsInv(ID_A);
    InvEnds(cfg, w);
    InvSingle(w);
    PredictSole(w, 0);
    assert ReadActive(w).Missing?;
    assert |StatesOf(RecoverWith(cfg, w).world.txns)| == 1;
  }

  lemma InvEnds(cfg: Config, w: World)
    requires Working(cfg) && Inv(w)
    ensures Ended(RecoverWith(cfg, w)) == Predict(w)
  {
    hide Inv, Working, Recovers, Predict, Still, Ended, AtRest, Recover, Stuck;
    InvSingle(w);
    RecoveryTerminates(cfg, w);
    NoPairReachable(w);
    LoopEnds(cfg, w, 0, NoDecision);
    WorkingIsNotStuck(cfg, w, RecoverWith(cfg, w));
  }
}
