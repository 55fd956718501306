/** Every recovery run from any disk stops within six iterations; when its guard can fire. */
module Termination {
  import opened InstallTypes
  import opened Seal
  import opened Environment
  import opened Decide
  import opened World
  import opened Recovery
  import opened ObservedWorlds
  import opened Reconcile

  function One(b: bool): nat { if b then 1 else 0 }

  /** The number of actions recovery can still execute: the measure of the loop. */
  ghost function Remaining(cfg: Config, w: World): nat {
    if !Readable(w) then 0
    else if exists i :: SoleTxn(w, i) then
      var i :| SoleTxn(w, i);
      RemainingFor(w, w.txns[i])
    else if HasNonterminal(w) then (if HasFailable(w) then 5 else 0)
    else if exists k :: NamedTxn(w, k) then
      var k :| NamedTxn(w, k);
      One(Leftover(w, w.txns[k]))
      + One(w.txns[k].state == State.Failed || !EnvComplete(ObserveEnvironment(cfg, w)))
    else 0
  }

  ghost function RemainingFor(w: World, t: Txn): nat {
    match t.state
    case Created => 3
    case Building => 3
    case Sealed => 4
    case Published => 3 + One(Leftover(w, t))
    case Activating => 1 + One(Leftover(w, t)) + One(!ActiveNames(ReadActive(w), t.generationId))
    case Committed => 0
    case Failed => 0
  }

  lemma RemainingSole(cfg: Config, w: World, i: int)
    requires SoleTxn(w, i)
    ensures Readable(w) ==> Remaining(cfg, w) == RemainingFor(w, w.txns[i])
    ensures Remaining(cfg, w) <= RemainingFor(w, w.txns[i])
  {
    assert forall j :: SoleTxn(w, j) ==> j == i;
  }

  lemma RemainingTerminal(cfg: Config, w: World)
    requires !HasNonterminal(w)
    ensures Remaining(cfg, w) <= 2
  {
    forall i ensures !SoleTxn(w, i) { }
  }

  lemma RemainingNamed(cfg: Config, w: World, k: int)
    requires Distinct(w) && Readable(w) && !HasNonterminal(w) && NamedTxn(w, k)
    ensures Remaining(cfg, w) == One(Leftover(w, w.txns[k]))
              + One(w.txns[k].state == State.Failed || !EnvComplete(ObserveEnvironment(cfg, w)))
  {
    forall i ensures !SoleTxn(w, i) { }
    assert forall j :: NamedTxn(w, j) ==> w.txns[j].generationId == w.txns[k].generationId;
    assert forall j :: NamedTxn(w, j) ==> j == k;
  }

  // ---------------------------------------------------------------- changing one record

  /** Changing the state and stamps of one record keeps identifiers, trees and the pointer. */
  ghost predicate Restated(w: World, i: int, w': World) {
    && 0 <= i < |w.txns| && |w'.txns| == |w.txns|
    && w' == w.(txns := w'.txns, clock := w'.clock)
    && (forall j :: 0 <= j < |w.txns| && j != i ==> w'.txns[j] == w.txns[j])
    && SameBuild(w.txns[i], w'.txns[i])
    && ValidTransaction(w'.txns[i])
  }

  lemma DistinctStays(w: World, i: nat, w': World)
    requires Distinct(w) && i < |w.txns| && |w'.txns| == |w.txns| && w'.malformed == w.malformed
    requires forall j :: 0 <= j < |w.txns| && j != i ==> w'.txns[j] == w.txns[j]
    requires SameBuild(w.txns[i], w'.txns[i]) && ValidTransaction(w'.txns[i])
    ensures Distinct(w')
  {
    forall j, k | 0 <= j < |w'.txns| && 0 <= k < |w'.txns| && w'.txns[j].id == w'.txns[k].id ensures j == k {
      assert w.txns[j].id == w.txns[k].id;
    }
    forall j, k | 0 <= j < |w'.txns| && 0 <= k < |w'.txns|
          && w'.txns[j].generationId == w'.txns[k].generationId ensures j == k {
      assert w.txns[j].generationId == w.txns[k].generationId;
    }
  }

  lemma RestatedKeeps(w: World, i: int, w': World)
    requires Distinct(w) && Restated(w, i, w')
    ensures Distinct(w') && ReadActive(w') == ReadActive(w) && (Readable(w) ==> Readable(w'))
    ensures StagingSeen(w', w'.txns[i]) == StagingSeen(w, w.txns[i])
    ensures GenerationSeen(w', w'.txns[i]) == GenerationSeen(w, w.txns[i])
    ensures Leftover(w', w'.txns[i]) == Leftover(w, w.txns[i])
  {
    hide Distinct;
    DistinctStays(w, i, w');
  }

  lemma PersistResult(w: World, i: nat, state: State, code: Code)
    requires Distinct(w) && i < |w.txns|
    ensures var t := w.txns[i];
            PersistTxnState(w, t.id, state, code) ==
            Exec(if t.state == state && t.errorCode == code then w
                  else Replace(w, i, WithState(t, state, code, w.clock)), true)
  {
    IndexFinds(w, i);
    SaveReplaces(w, i, WithState(w.txns[i], state, code, w.clock));
  }

  lemma PersistRestates(w: World, i: nat, state: State, code: Code)
    requires Distinct(w) && i < |w.txns|
    ensures var e := PersistTxnState(w, w.txns[i].id, state, code);
            e.ok && Restated(w, i, e.world) && e.world.txns[i].state == state && e.world.txns[i].errorCode == code
  {
    PersistResult(w, i, state, code);
    IndexFinds(w, i);
  }

  /**
   * What a persisted state says about the record: when it was entered for the first time, and when it was saved. A
   * record that is in the state already, under the same code, is not written at all.
   */
  lemma PersistEnters(w: World, i: nat, state: State, code: Code)
    requires Distinct(w) && i < |w.txns|
    ensures var t := w.txns[i]; var e := PersistTxnState(w, t.id, state, code);
            if t.state == state && t.errorCode == code then e == Exec(w, true)
            else
              && e.ok && i < |e.world.txns| && e.world == w.(txns := w.txns[i := e.world.txns[i]], clock := w.clock + 1)
              && SameBuild(t, e.world.txns[i]) && e.world.txns[i].revision == t.revision + 1
              && e.world.txns[i].state == state && e.world.txns[i].errorCode == code
              && e.world.txns[i].updatedAt == w.clock
              && e.world.txns[i].activatedAt ==
                 (if state == State.Activating && t.activatedAt == None then Some(w.clock) else t.activatedAt)
              && e.world.txns[i].committedAt ==
                 (if state == State.Committed && t.committedAt == None then Some(w.clock) else t.committedAt)
  {
    hide Distinct, Save;
    PersistResult(w, i, state, code);
  }

  lemma SoleLeft(w: World, i: int, w': World)
    requires SoleTxn(w, i) && Restated(w, i, w')
    ensures Nonterminal(w'.txns[i]) ==> SoleTxn(w', i)
    ensures Terminal(w'.txns[i].state) ==> !HasNonterminal(w')
  {
  }

  lemma NoFailableWhenTerminal(w: World)
    requires !HasNonterminal(w)
    ensures !HasFailable(w)
  {
    forall i | 0 <= i < |w.txns| ensures !Failable(w.txns[i].state) {
      assert !Nonterminal(w.txns[i]);
    }
  }

  lemma SoleNotFailable(w: World, i: nat)
    requires SoleTxn(w, i) && !Failable(w.txns[i].state)
    ensures !HasFailable(w)
  {
    forall j | 0 <= j < |w.txns| ensures !Failable(w.txns[j].state) {
      if Nonterminal(w.txns[j]) { assert j == i; }
    }
  }

  // ---------------------------------------------------------------- what one step establishes

  /** The guard of the loop has nothing to object to in the decision after `d`. */
  predicate Passes(d: Decision, next: Decision) {
    Blocks(next) || Rests(next) || ForwardOrNoop(d, next)
  }

  ghost predicate GuardPasses(cfg: Config, d: Decision, w': World) {
    forall obs', next :: DecidedAs(cfg, w', obs', next) ==> Passes(d, next)
  }

  ghost predicate Advances(cfg: Config, w: World, d: Decision, w': World) {
    && Distinct(w') && !HasFailable(w')
    && Remaining(cfg, w') < Remaining(cfg, w)
    && (GuardPasses(cfg, d, w') || TwoEmptyStagings(w))
  }

  /** An active committed generation that is sealed and still has an empty staging directory. */
  ghost predicate EmptyBesideActive(w: World, k: int) {
    && NamedTxn(w, k) && w.txns[k].state == State.Committed && SealedHere(GenerationSeen(w, w.txns[k]))
    && HasEmptyStaging(w, w.txns[k])
  }

  predicate HasEmptyStaging(w: World, t: Txn) {
    t.id in w.staging && w.staging[t.id] == map[]
  }

  ghost predicate EmptyStagingPair(w: World, i: int, k: int) {
    && SoleTxn(w, i) && Failable(w.txns[i].state) && w.txns[i].generationId !in w.generations
    && HasEmptyStaging(w, w.txns[i]) && EmptyBesideActive(w, k)
  }

  /**
   * The one disk on which two consecutive actions coincide: a CREATED or BUILDING record with nothing but
   * an empty staging directory, next to an active committed generation that also left one.
   */
  ghost predicate TwoEmptyStagings(w: World) {
    Readable(w) && exists i, k :: EmptyStagingPair(w, i, k)
  }

  // ---------------------------------------------------------------- once a record has failed

  lemma NamedNext(cfg: Config, w: World, k: int, obs: Observation, next: Decision)
    requires Distinct(w) && Readable(w) && !HasNonterminal(w) && NamedTxn(w, k) && DecidedAs(cfg, w, obs, next)
    ensures !Blocks(next)
    ensures || Rests(next) || next.action == ReconcileEnv || next.action == GCStaging
            || (next.action == Action.Commit && w.txns[k].state == State.Failed)
            || (next.action == RemoveEmptyStaging && EmptyBesideActive(w, k))
  {
    hide DecidedAs, Distinct, Readable, ReadActive, ObserveEnvironment;
    ObserveNamed(cfg, w, k, obs, next);
  }

  /** With no nonterminal record left, the action differs unless an empty staging waits beside the active tree. */
  lemma TerminalNext(cfg: Config, w: World, d: Decision, obs: Observation, next: Decision)
    requires Distinct(w) && !HasNonterminal(w) && DecidedAs(cfg, w, obs, next)
    requires d.action == NoAction || d.action == RemoveEmptyGeneration || d.action == MoveStagingToFailed
             || d.action == RemoveEmptyStaging
    ensures Passes(d, next) || (d.action == RemoveEmptyStaging && exists k :: EmptyBesideActive(w, k))
  {
    hide DecidedAs, Distinct, Readable, HasNonterminal;
    if !Readable(w) {
      UnreadableBlocks(cfg, w, obs, next);
    } else if exists k :: NamedTxn(w, k) {
      var k :| NamedTxn(w, k);
      NamedNext(cfg, w, k, obs, next);
    } else {
      ObserveUnnamed(cfg, w, obs, next);
    }
  }

  /** Clearing the directories of a sole CREATED or BUILDING record leaves records and pointer alone. */
  ghost predicate Cleared(w: World, t: Txn, w1: World) {
    && w1 == w.(staging := w1.staging, failed := w1.failed, generations := w1.generations)
    && (w1.staging == w.staging || w1.staging == w.staging - {t.id})
    && (w1.generations == w.generations
        || (TreeOf(w.generations, t.generationId) == Some(map[]) && w1.generations == w.generations - {t.generationId}))
  }

  lemma ClearedKeepsPointer(w: World, t: Txn, w1: World)
    requires Cleared(w, t, w1)
    ensures !ReadActive(w).Invalid? ==> ReadActive(w1) == ReadActive(w)
    ensures Distinct(w) ==> Distinct(w1)
  {
  }

  lemma SoleFails(w: World, i: nat, w1: World, w': World)
    requires SoleTxn(w, i) && w1.txns == w.txns && Restated(w1, i, w') && w'.txns[i].state == State.Failed
    ensures !HasNonterminal(w') && !HasFailable(w')
  {
    SoleLeft(w1, i, w');
    NoFailableWhenTerminal(w');
  }

  /** An empty staging beside the active tree after the step was there before it. */
  lemma PairBefore(w: World, i: nat, k: int, w1: World, w': World)
    requires SoleTxn(w, i) && Failable(w.txns[i].state) && w.txns[i].generationId !in w.generations
    requires HasEmptyStaging(w, w.txns[i])
    requires Cleared(w, w.txns[i], w1) && Restated(w1, i, w') && w'.txns[i].state == State.Failed
    requires ReadActive(w') == ReadActive(w) && EmptyBesideActive(w', k)
    ensures EmptyStagingPair(w, i, k)
  {
    assert k != i && w'.txns[k] == w.txns[k];
    assert w1.generations == w.generations;
  }

  predicate FailingAction(w: World, t: Txn, action: Action) {
    || action == NoAction || action == RemoveEmptyGeneration || action == MoveStagingToFailed
    || (action == RemoveEmptyStaging && Failable(t.state) && t.generationId !in w.generations && HasEmptyStaging(w, t))
  }

  /** Once the sole nonterminal record is FAILED the loop has at most two actions left. */
  lemma FailedAdvances(cfg: Config, w: World, i: nat, d: Decision, w1: World, w': World)
    requires Readable(w) && SoleTxn(w, i) && RemainingFor(w, w.txns[i]) > 2 && FailingAction(w, w.txns[i], d.action)
    requires Distinct(w) && Cleared(w, w.txns[i], w1) && Restated(w1, i, w') && w'.txns[i].state == State.Failed
    ensures Advances(cfg, w, d, w')
  {
    hide DecidedAs, Distinct, Remaining, RemainingFor, ReadActive, SoleTxn, EmptyBesideActive;
    ClearedKeepsPointer(w, w.txns[i], w1);
    RestatedKeeps(w1, i, w');
    SoleFails(w, i, w1, w');
    RemainingSole(cfg, w, i);
    RemainingTerminal(cfg, w');
    forall obs', next | DecidedAs(cfg, w', obs', next) ensures Passes(d, next) || TwoEmptyStagings(w) {
      TerminalNext(cfg, w', d, obs', next);
      if !Passes(d, next) {
        var k :| EmptyBesideActive(w', k);
        PairBefore(w, i, k, w1, w');
      }
    }
  }

  // ---------------------------------------------------------------- a CREATED or BUILDING record

  ghost function ClearDirs(w: World, obs: Observation, action: Action): Exec {
    match action
    case RemoveEmptyStaging => RemoveEmptyStagingDir(w, obs)
    case RemoveEmptyGeneration => RemoveEmptyGenerationDir(w, obs)
    case MoveStagingToFailed => MoveStagingAside(w, obs)
    case _ => Exec(w, true)
  }

  /** The actions that clear directories and then persist the next state of the primary record. */
  lemma ClearThenPersist(cfg: Config, w: World, i: nat, obs: Observation, d: Decision)
    requires Distinct(w) && i < |w.txns| && PrimaryOf(obs) == Some(ViewOf(w.txns[i])) && d.next.Some?
    requires d.action == NoAction || d.action == RemoveEmptyGeneration || d.action == MoveStagingToFailed
             || d.action == RemoveEmptyStaging || d.action == PersistPublished
    requires Execute(cfg, w, obs, d).ok
    ensures var w1, w' := ClearDirs(w, obs, d.action).world, Execute(cfg, w, obs, d).world;
            && ClearDirs(w, obs, d.action).ok
            && (Distinct(w1) ==> Restated(w1, i, w') && w'.txns[i].state == d.next.value)
  {
    hide Distinct, ReconcileEnvironment, ActivateTxn, FailExtras, PrimaryOf, Restated;
    var w1 := ClearDirs(w, obs, d.action).world;
    assert w1.txns == w.txns && w1.malformed == w.malformed;
    if Distinct(w1) {
      PersistRestates(w1, i, d.next.value, d.code);
    }
  }

  lemma ClearDirsClears(cfg: Config, w: World, t: Txn, obs: Observation, code: Code)
    requires Shows(cfg, w, t, obs) && Failable(t.state)
    requires var d := DecideFailable(obs, code); !Blocks(d) && ClearDirs(w, obs, d.action).ok
    ensures var d := DecideFailable(obs, code);
            && Cleared(w, t, ClearDirs(w, obs, d.action).world)
            && d.next == Some(State.Failed) && FailingAction(w, t, d.action)
  {
    hide ReadActive, ObserveEnvironment;
  }

  lemma FailableAdvances(cfg: Config, w: World, i: nat, obs: Observation, d: Decision)
    requires i < |w.txns| && Distinct(w) && Readable(w) && SoleTxn(w, i) && Failable(w.txns[i].state)
    requires DecidedAs(cfg, w, obs, d) && !Blocks(d) && Execute(cfg, w, obs, d).ok
    ensures Advances(cfg, w, d, Execute(cfg, w, obs, d).world)
  {
    hide DecidedAs, Distinct, Readable, Execute, SoleTxn, Cleared, Advances, ClearDirs;
    ObserveSole(cfg, w, i, obs, d);
    var t, code := w.txns[i], if w.txns[i].state == State.Created then NoCode else Interrupted;
    assert d == DecideFailable(obs, code);
    ClearThenPersist(cfg, w, i, obs, d);
    ClearDirsClears(cfg, w, t, obs, code);
    ClearedKeepsPointer(w, t, ClearDirs(w, obs, d.action).world);
    FailedAdvances(cfg, w, i, d, ClearDirs(w, obs, d.action).world, Execute(cfg, w, obs, d).world);
  }

  // ---------------------------------------------------------------- reconciling the named record

  lemma ReconciledWorld(cfg: Config, w: World, i: nat, w': World)
    requires Distinct(w) && Readable(w) && i < |w.txns| && NamedTxn(w, i) && Reconciled(cfg, w, i, w')
    requires forall j :: 0 <= j < |w.txns| && j != i ==> Terminal(w.txns[j].state)
    ensures Distinct(w') && Readable(w') && NamedTxn(w', i) && !HasNonterminal(w') && !HasFailable(w')
    ensures Leftover(w', w'.txns[i]) ==> Leftover(w, w.txns[i])
    ensures Remaining(cfg, w') == One(Leftover(w', w'.txns[i]))
  {
    hide Filed, Remaining, ReadActive, ObserveEnvironment;
    IndexFinds(w, i);
    DistinctStays(w, i, w');
    forall j | 0 <= j < |w'.txns| ensures !Nonterminal(w'.txns[j]) { }
    NoFailableWhenTerminal(w');
    RemainingNamed(cfg, w', i);
  }

  /** Marking the named record ACTIVATING and reconciling it, from PUBLISHED, ACTIVATING, COMMITTED or FAILED. */
  lemma ReconcileEnvRuns(cfg: Config, w: World, i: nat, obs: Observation, d: Decision)
    requires Working(cfg) && Distinct(w) && Readable(w) && i < |w.txns| && NamedTxn(w, i)
    requires PrimaryOf(obs) == Some(ViewOf(w.txns[i])) && d.action == ReconcileEnv
    requires d.next != Some(State.Activating) ==>
              d.next == None && (w.txns[i].state == State.Activating || w.txns[i].state == State.Committed)
    requires Execute(cfg, w, obs, d).ok
    ensures var w1, w' := PersistPrimary(w, obs, d).world, Execute(cfg, w, obs, d).world;
            && (w1 == w || Restated(w, i, w1))
            && |w1.txns| == |w.txns| && Reconciled(cfg, w1, i, w')
  {
    hide ActivateTxn, FailExtras, ReconcileEnvironment, Reconciled, Distinct, ReadActive, Working, Persist;
    var w1 := PersistPrimary(w, obs, d).world;
    if d.next.Some? {
      PersistRestates(w, i, State.Activating, d.code);
      RestatedKeeps(w, i, w1);
    }
    assert w1.txns[i].id == w.txns[i].id && NamedTxn(w1, i);
    if w1.txns[i].state == State.Activating {
      ActivatingIsReconciled(cfg, w1, i);
    } else {
      CommittedReconciles(cfg, w1, i);
    }
  }

  lemma ReconcileEnvAdvances(cfg: Config, w: World, i: nat, obs: Observation, d: Decision)
    requires Working(cfg) && Distinct(w) && Readable(w) && i < |w.txns| && NamedTxn(w, i)
    requires forall j :: 0 <= j < |w.txns| && j != i ==> Terminal(w.txns[j].state)
    requires PrimaryOf(obs) == Some(ViewOf(w.txns[i])) && d.action == ReconcileEnv
    requires d.next != Some(State.Activating) ==>
              d.next == None && (w.txns[i].state == State.Activating || w.txns[i].state == State.Committed)
    requires Execute(cfg, w, obs, d).ok && One(Leftover(w, w.txns[i])) < Remaining(cfg, w)
    ensures Advances(cfg, w, d, Execute(cfg, w, obs, d).world)
  {
    hide DecidedAs, Distinct, Remaining, Execute, ReadActive, Leftover, PersistPrimary, Reconciled, Working;
    ReconcileEnvRuns(cfg, w, i, obs, d);
    var w1, w' := PersistPrimary(w, obs, d).world, Execute(cfg, w, obs, d).world;
    if w1 != w {
      RestatedKeeps(w, i, w1);
    }
    assert NamedTxn(w1, i);
    ReconciledWorld(cfg, w1, i, w');
    forall obs', next | DecidedAs(cfg, w', obs', next) ensures Passes(d, next) {
      NamedNext(cfg, w', i, obs', next);
    }
  }

  // ---------------------------------------------------------------- a SEALED record

  lemma SealedExecutes(cfg: Config, w: World, t: Txn, obs: Observation)
    requires Shows(cfg, w, t, obs)
    requires var d := DecideSealed(obs); !Blocks(d) && ClearDirs(w, obs, d.action).ok
    ensures var d := DecideSealed(obs); var w1 := ClearDirs(w, obs, d.action).world;
            && Cleared(w, t, w1)
            && (d.action == MoveStagingToFailed ==> d.next == Some(State.Failed))
            && (d.action != MoveStagingToFailed ==>
                  (d.action == PersistPublished || d.action == RemoveEmptyStaging) && d.next == Some(State.Published)
                  && t.id !in w1.staging && w1.generations == w.generations)
  {
    hide ReadActive, ObserveEnvironment;
  }

  /** From PUBLISHED without staging, the next action is none of those that lead there. */
  lemma PublishedNext(cfg: Config, w: World, i: nat, obs: Observation, next: Decision)
    requires Distinct(w) && SoleTxn(w, i) && w.txns[i].state == State.Published && w.txns[i].id !in w.staging
    requires DecidedAs(cfg, w, obs, next)
    ensures Blocks(next) || next.action == ReconcileEnv || next.action == PersistActivating
  {
    hide DecidedAs, Distinct, SoleTxn, Readable, ReadActive, ObserveEnvironment;
    if Readable(w) {
      ObserveSole(cfg, w, i, obs, next);
    } else {
      UnreadableBlocks(cfg, w, obs, next);
    }
  }

  lemma PublishedAlone(cfg: Config, w: World, i: nat, d: Decision, w': World)
    requires Remaining(cfg, w) > 3 && Distinct(w') && SoleTxn(w', i)
    requires w'.txns[i].state == State.Published && w'.txns[i].id !in w'.staging
    requires d.action == PersistPublished || d.action == RemoveEmptyStaging || d.action == GCStaging
    ensures Advances(cfg, w, d, w')
  {
    hide DecidedAs, Distinct, Remaining, SoleTxn, Readable, ReadActive;
    RemainingSole(cfg, w', i);
    SoleNotFailable(w', i);
    forall obs', next | DecidedAs(cfg, w', obs', next) ensures Passes(d, next) {
      PublishedNext(cfg, w', i, obs', next);
    }
  }

  lemma PublishedFromSealed(cfg: Config, w: World, i: nat, d: Decision, w1: World, w': World)
    requires Readable(w) && Distinct(w) && SoleTxn(w, i) && w.txns[i].state == State.Sealed
    requires Cleared(w, w.txns[i], w1) && Restated(w1, i, w') && w'.txns[i].state == State.Published
    requires w.txns[i].id !in w1.staging && (d.action == PersistPublished || d.action == RemoveEmptyStaging)
    ensures Advances(cfg, w, d, w')
  {
    hide Distinct, Remaining, Readable, Advances;
    ClearedKeepsPointer(w, w.txns[i], w1);
    RestatedKeeps(w1, i, w');
    assert SoleTxn(w1, i);
    SoleLeft(w1, i, w');
    RemainingSole(cfg, w, i);
    PublishedAlone(cfg, w, i, d, w');
  }

  lemma SealedAdvances(cfg: Config, w: World, i: nat, obs: Observation, d: Decision)
    requires i < |w.txns| && Distinct(w) && Readable(w) && SoleTxn(w, i) && w.txns[i].state == State.Sealed
    requires DecidedAs(cfg, w, obs, d) && !Blocks(d) && Execute(cfg, w, obs, d).ok
    ensures Advances(cfg, w, d, Execute(cfg, w, obs, d).world)
  {
    hide DecidedAs, Distinct, Readable, Execute, SoleTxn, Cleared, Advances, ClearDirs, Restated;
    ObserveSole(cfg, w, i, obs, d);
    assert d == DecideSealed(obs);
    ClearThenPersist(cfg, w, i, obs, d);
    SealedExecutes(cfg, w, w.txns[i], obs);
    var w1, w' := ClearDirs(w, obs, d.action).world, Execute(cfg, w, obs, d).world;
    ClearedKeepsPointer(w, w.txns[i], w1);
    if d.action == MoveStagingToFailed {
      FailedAdvances(cfg, w, i, d, w1, w');
    } else {
      PublishedFromSealed(cfg, w, i, d, w1, w');
    }
  }

  // ---------------------------------------------------------------- a PUBLISHED record

  lemma LeftoverSeen(cfg: Config, w: World, t: Txn, obs: Observation)
    requires Shows(cfg, w, t, obs)
    ensures Leftover(w, t) <==> LeftoverStaging(obs).Some?
  {
    hide ReadActive, ObserveEnvironment;
  }

  /** Clearing leftover staging removes exactly that directory. */
  lemma LeftoverClears(cfg: Config, w: World, t: Txn, obs: Observation, d: Decision)
    requires Shows(cfg, w, t, obs) && LeftoverStaging(obs).Some? && d.action == LeftoverStaging(obs).value
    requires d.next.None?
    ensures Execute(cfg, w, obs, d) == Exec(w.(staging := w.staging - {t.id}), true)
  {
    hide ReadActive, ObserveEnvironment, ReconcileEnvironment, ActivateTxn, FailExtras;
  }

  lemma PublishedLeftoverAdvances(cfg: Config, w: World, i: nat, d: Decision)
    requires Distinct(w) && Readable(w) && SoleTxn(w, i) && w.txns[i].state == State.Published && Leftover(w, w.txns[i])
    requires d.action == RemoveEmptyStaging || d.action == GCStaging
    ensures Advances(cfg, w, d, w.(staging := w.staging - {w.txns[i].id}))
  {
    hide Readable, Remaining, Advances, Leftover, ReadActive;
    var w' := w.(staging := w.staging - {w.txns[i].id});
    assert SoleTxn(w', i) && Distinct(w');
    RemainingSole(cfg, w, i);
    PublishedAlone(cfg, w, i, d, w');
  }

  lemma ActivatingNext(cfg: Config, w: World, i: nat, obs: Observation, next: Decision)
    requires Distinct(w) && SoleTxn(w, i) && w.txns[i].state == State.Activating && DecidedAs(cfg, w, obs, next)
    ensures || Blocks(next) || next.action == ReconcileEnv || next.action == Action.Commit
            || (next.action == Action.Activate && !ActiveNames(ReadActive(w), w.txns[i].generationId))
  {
    hide DecidedAs, Distinct, SoleTxn, Readable, ReadActive, ObserveEnvironment;
    if Readable(w) {
      ObserveSole(cfg, w, i, obs, next);
    } else {
      UnreadableBlocks(cfg, w, obs, next);
    }
  }

  lemma ActivatingRecord(cfg: Config, w: World, i: nat, obs: Observation, d: Decision)
    requires Distinct(w) && i < |w.txns| && PrimaryOf(obs) == Some(ViewOf(w.txns[i])) && obs.active == ReadActive(w)
    requires d.action == PersistActivating && Execute(cfg, w, obs, d).ok
    ensures Restated(w, i, Execute(cfg, w, obs, d).world)
    ensures Execute(cfg, w, obs, d).world.txns[i].state == State.Activating
  {
    hide ReconcileEnvironment, ActivateTxn, FailExtras, ReadActive, Filed, IndexOf, Save, ValidTransaction;
    IndexFinds(w, i);
    var t := SnapshotBefore(w.txns[i], obs.active).(state := State.Activating, updatedAt := w.clock);
    if ValidTransaction(t) {
      SaveReplaces(w, i, t);
      RevisionKeepsValid(t, w.txns[i].revision + 1);
    } else {
      InvalidIsRefused(w, t);
    }
  }

  lemma InvalidIsRefused(w: World, t: Txn)
    requires !ValidTransaction(t)
    ensures Save(w, t) == Exec(w, false)
  {
  }

  lemma PersistedActivating(cfg: Config, w: World, i: nat, d: Decision, w': World)
    requires Distinct(w) && Readable(w) && SoleTxn(w, i) && w.txns[i].state == State.Published
    requires !Leftover(w, w.txns[i])
    requires Restated(w, i, w') && w'.txns[i].state == State.Activating && d.action == PersistActivating
    ensures Advances(cfg, w, d, w')
  {
    hide DecidedAs, Distinct, Readable, Remaining, ReadActive, Leftover;
    RestatedKeeps(w, i, w');
    SoleLeft(w, i, w');
    RemainingSole(cfg, w, i);
    RemainingSole(cfg, w', i);
    SoleNotFailable(w', i);
    forall obs', next | DecidedAs(cfg, w', obs', next) ensures Passes(d, next) {
      ActivatingNext(cfg, w', i, obs', next);
    }
  }

  lemma PublishedAdvances(cfg: Config, w: World, i: nat, obs: Observation, d: Decision)
    requires Working(cfg) && Distinct(w) && Readable(w) && SoleTxn(w, i) && w.txns[i].state == State.Published
    requires DecidedAs(cfg, w, obs, d) && !Blocks(d) && Execute(cfg, w, obs, d).ok
    ensures Advances(cfg, w, d, Execute(cfg, w, obs, d).world)
  {
    hide DecidedAs, Distinct, Readable, Execute, Advances, Working, ReadActive, Remaining, Leftover;
    ObserveSole(cfg, w, i, obs, d);
    LeftoverSeen(cfg, w, w.txns[i], obs);
    if LeftoverStaging(obs).Some? {
      LeftoverClears(cfg, w, w.txns[i], obs, d);
      PublishedLeftoverAdvances(cfg, w, i, d);
    } else if d.action == PersistActivating {
      ActivatingRecord(cfg, w, i, obs, d);
      PersistedActivating(cfg, w, i, d, Execute(cfg, w, obs, d).world);
    } else {
      RemainingSole(cfg, w, i);
      ReconcileEnvAdvances(cfg, w, i, obs, d);
    }
  }

  // ---------------------------------------------------------------- an ACTIVATING record

  ghost predicate Swung(w: World, i: nat, w': World) {
    && i < |w.txns| && PointerNames(ReadActive(w'), w.txns[i])
    && w' == w.(txns := w'.txns, active := w'.active, clock := w'.clock, history := w'.history)
    && (w'.txns == w.txns || (Restated(w, i, w.(txns := w'.txns)) && w'.txns[i].state == w.txns[i].state))
  }

  lemma SwungWritten(w: World, i: nat, written: Exec)
    requires Distinct(w) && i < |w.txns| && written == WriteActive(w, RecordFor(w.txns[i], w.clock)) && written.ok
    requires PointerNames(ReadActive(written.world), w.txns[i])
    ensures Swung(w, i, written.world)
    ensures var done := Persist(written.world, w.txns[i].(activatedAt := Some(w.clock), updatedAt := w.clock));
            done.ok && Swung(w, i, done.world)
  {
    hide ReadActive, Persist, Filed;
    IndexFinds(w, i);
    var t := w.txns[i];
    assert Distinct(written.world) by { DistinctStays(w, i, written.world); }
    PersistReplaces(written.world, i, t.(activatedAt := Some(w.clock), updatedAt := w.clock));
    var stamped := t.(activatedAt := Some(w.clock), updatedAt := w.clock);
    PointerIgnoresRecords(written.world, Replace(written.world, i, stamped));
  }

  lemma PointerIgnoresRecords(w: World, w': World)
    requires w'.active == w.active && w'.generations == w.generations
    ensures ReadActive(w') == ReadActive(w)
  {
  }

  /** A successful activation leaves active.json naming the record, which at most gained its activation time. */
  lemma ActivateSwings(w: World, i: nat)
    requires Distinct(w) && i < |w.txns| && w.txns[i].state == State.Activating
    requires !PointerNames(ReadActive(w), w.txns[i]) && ActivateTxn(w, w.txns[i]).ok
    ensures Swung(w, i, ActivateTxn(w, w.txns[i]).world)
  {
    hide ReadActive, Persist, Distinct, WriteActive, TreeVerifies, CasAllows, Swung;
    SwungWritten(w, i, WriteActive(w, RecordFor(w.txns[i], w.clock)));
  }

  lemma SwungWorld(cfg: Config, w: World, i: nat, d: Decision, w': World)
    requires Distinct(w) && Readable(w) && SoleTxn(w, i) && w.txns[i].state == State.Activating && Swung(w, i, w')
    requires !ActiveNames(ReadActive(w), w.txns[i].generationId) && d.action == Action.Activate
    ensures Advances(cfg, w, d, w')
  {
    hide DecidedAs, Filed, Remaining, ReadActive;
    IndexFinds(w, i);
    DistinctStays(w, i, w');
    assert SoleTxn(w', i);
    RemainingSole(cfg, w, i);
    RemainingSole(cfg, w', i);
    SoleNotFailable(w', i);
    forall obs', next | DecidedAs(cfg, w', obs', next) ensures Passes(d, next) {
      ActivatingNext(cfg, w', i, obs', next);
    }
  }

  lemma ActivateAdvances(cfg: Config, w: World, i: nat, obs: Observation, d: Decision)
    requires Distinct(w) && Readable(w) && SoleTxn(w, i) && w.txns[i].state == State.Activating
    requires Shows(cfg, w, w.txns[i], obs) && d.action == Action.Activate && Execute(cfg, w, obs, d).ok
    requires !ActiveNames(ReadActive(w), w.txns[i].generationId)
    ensures Advances(cfg, w, d, Execute(cfg, w, obs, d).world)
  {
    hide Filed, ReconcileEnvironment, FailExtras, ActivateTxn, ReadActive, Advances, Readable, ObserveEnvironment;
    IndexFinds(w, i);
    ActivateSwings(w, i);
    SwungWorld(cfg, w, i, d, ActivateTxn(w, w.txns[i]).world);
  }

  lemma SameEnvironment(cfg: Config, w: World, w': World)
    requires w'.active == w.active && w'.generations == w.generations && w'.env == w.env
    ensures ObserveEnvironment(cfg, w') == ObserveEnvironment(cfg, w)
  {
  }

  /** Persisting COMMITTED on the record active.json names, the environment being complete. */
  lemma CommittedAdvances(cfg: Config, w: World, i: nat, d: Decision, w': World)
    requires Distinct(w) && Readable(w) && i < |w.txns| && NamedTxn(w, i)
    requires forall j :: 0 <= j < |w.txns| && j != i ==> Terminal(w.txns[j].state)
    requires EnvComplete(ObserveEnvironment(cfg, w)) && One(Leftover(w, w.txns[i])) < Remaining(cfg, w)
    requires Restated(w, i, w') && w'.txns[i].state == State.Committed && d.action == Action.Commit
    ensures Advances(cfg, w, d, w')
  {
    hide DecidedAs, Distinct, Remaining, ReadActive, ObserveEnvironment, Leftover;
    RestatedKeeps(w, i, w');
    forall j | 0 <= j < |w'.txns| ensures !Nonterminal(w'.txns[j]) { }
    NoFailableWhenTerminal(w');
    RemainingNamed(cfg, w', i);
    SameEnvironment(cfg, w, w');
    forall obs', next | DecidedAs(cfg, w', obs', next) ensures Passes(d, next) {
      NamedNext(cfg, w', i, obs', next);
    }
  }

  lemma CommitRuns(cfg: Config, w: World, i: nat, obs: Observation, d: Decision)
    requires Distinct(w) && i < |w.txns| && PrimaryOf(obs) == Some(ViewOf(w.txns[i]))
    requires d.action == Action.Commit && d.code == NoCode && Execute(cfg, w, obs, d).ok
    ensures Restated(w, i, Execute(cfg, w, obs, d).world)
    ensures Execute(cfg, w, obs, d).world.txns[i].state == State.Committed
  {
    hide ReconcileEnvironment, ActivateTxn, FailExtras, Distinct;
    PersistRestates(w, i, State.Committed, NoCode);
  }

  lemma ActivatingAdvances(cfg: Config, w: World, i: nat, obs: Observation, d: Decision)
    requires Working(cfg) && Distinct(w) && Readable(w) && SoleTxn(w, i) && w.txns[i].state == State.Activating
    requires DecidedAs(cfg, w, obs, d) && !Blocks(d) && Execute(cfg, w, obs, d).ok
    ensures Advances(cfg, w, d, Execute(cfg, w, obs, d).world)
  {
    hide DecidedAs, Distinct, Readable, Execute, Advances, Working, ReadActive, Remaining, Leftover, ObserveEnvironment;
    ObserveSole(cfg, w, i, obs, d);
    if d.action == Action.Activate {
      ActivateAdvances(cfg, w, i, obs, d);
    } else {
      RemainingSole(cfg, w, i);
      assert NamedTxn(w, i);
      if d.action == Action.Commit {
        CommitRuns(cfg, w, i, obs, d);
        CommittedAdvances(cfg, w, i, d, Execute(cfg, w, obs, d).world);
      } else {
        ReconcileEnvAdvances(cfg, w, i, obs, d);
      }
    }
  }

  // ---------------------------------------------------------------- no nonterminal record

  lemma LeftoverGone(cfg: Config, w: World, k: nat, d: Decision)
    requires Distinct(w) && Readable(w) && !HasNonterminal(w) && k < |w.txns| && NamedTxn(w, k)
    requires w.txns[k].state != State.Failed && Leftover(w, w.txns[k])
    requires d.action == RemoveEmptyStaging || d.action == GCStaging
    ensures Advances(cfg, w, d, w.(staging := w.staging - {w.txns[k].id}))
  {
    hide DecidedAs, Remaining, ReadActive, ObserveEnvironment;
    var w' := w.(staging := w.staging - {w.txns[k].id});
    PointerIgnoresRecords(w, w');
    SameEnvironment(cfg, w, w');
    NoFailableWhenTerminal(w');
    RemainingNamed(cfg, w, k);
    RemainingNamed(cfg, w', k);
    forall obs', next | DecidedAs(cfg, w', obs', next) ensures Passes(d, next) {
      AfterLeftover(cfg, w', k, obs', next);
    }
  }

  lemma AfterLeftover(cfg: Config, w: World, k: nat, obs: Observation, next: Decision)
    requires Distinct(w) && Readable(w) && !HasNonterminal(w) && k < |w.txns| && NamedTxn(w, k)
    requires w.txns[k].state != State.Failed && w.txns[k].id !in w.staging && DecidedAs(cfg, w, obs, next)
    ensures Rests(next) || next.action == ReconcileEnv
    ensures !Blocks(next)
  {
    hide DecidedAs, Distinct, Readable, ReadActive, ObserveEnvironment;
    ObserveNamed(cfg, w, k, obs, next);
  }

  lemma NamedAdvances(cfg: Config, w: World, k: nat, obs: Observation, d: Decision)
    requires Working(cfg) && Distinct(w) && Readable(w) && !HasNonterminal(w) && k < |w.txns| && NamedTxn(w, k)
    requires DecidedAs(cfg, w, obs, d) && !Blocks(d) && !Rests(d) && Execute(cfg, w, obs, d).ok
    ensures Advances(cfg, w, d, Execute(cfg, w, obs, d).world)
  {
    hide DecidedAs, Distinct, Readable, Execute, Advances, Working, ReadActive, Remaining, Leftover, ObserveEnvironment;
    ObserveNamed(cfg, w, k, obs, d);
    LeftoverSeen(cfg, w, w.txns[k], obs);
    RemainingNamed(cfg, w, k);
    assert forall j :: 0 <= j < |w.txns| ==> !Nonterminal(w.txns[j]);
    if d.action == Action.Commit {
      CommitRuns(cfg, w, k, obs, d);
      CommittedAdvances(cfg, w, k, d, Execute(cfg, w, obs, d).world);
    } else if d.action == ReconcileEnv {
      ReconcileEnvAdvances(cfg, w, k, obs, d);
    } else {
      LeftoverClears(cfg, w, w.txns[k], obs, d);
      LeftoverGone(cfg, w, k, d);
    }
  }

  // ---------------------------------------------------------------- several nonterminal records

  /** The first n records, when CREATED or BUILDING, are FAILED now; nothing else changed but the clock. */
  ghost predicate ExtrasFailed(w: World, n: nat, w': World) {
    && n <= |w.txns| == |w'.txns|
    && w' == w.(txns := w'.txns, clock := w'.clock)
    && forall j :: 0 <= j < |w.txns| ==>
         if j < n && Failable(w.txns[j].state) then
           && w'.txns[j].state == State.Failed && w'.txns[j].errorCode == Interrupted
           && SameBuild(w.txns[j], w'.txns[j]) && ValidTransaction(w'.txns[j])
         else w'.txns[j] == w.txns[j]
  }

  lemma ExtrasDistinct(w: World, n: nat, w': World)
    requires Distinct(w) && ExtrasFailed(w, n, w')
    ensures Distinct(w')
  {
    forall j ensures 0 <= j < |w.txns| ==>
          w'.txns[j].id == w.txns[j].id && w'.txns[j].generationId == w.txns[j].generationId {}
    forall j, k | 0 <= j < |w'.txns| && 0 <= k < |w'.txns| && w'.txns[j].id == w'.txns[k].id ensures j == k {
      assert w.txns[j].id == w.txns[k].id;
    }
    forall j, k | 0 <= j < |w'.txns| && 0 <= k < |w'.txns|
          && w'.txns[j].generationId == w'.txns[k].generationId ensures j == k {
      assert w.txns[j].generationId == w.txns[k].generationId;
    }
  }

  lemma {:induction false} FailExtrasRuns(w: World, views: seq<View>, n: nat)
    requires Distinct(w) && n <= |w.txns| == |views| && forall j :: 0 <= j < n ==> views[j] == ViewOf(w.txns[j])
    ensures FailExtras(w, views, n).ok && ExtrasFailed(w, n, FailExtras(w, views, n).world)
  {
    hide Distinct, PersistTxnState, ValidTransaction;
    if n > 0 {
      FailExtrasRuns(w, views, n - 1);
      var before := FailExtras(w, views, n - 1).world;
      if Failable(w.txns[n - 1].state) {
        ExtrasDistinct(w, n - 1, before);
        PersistRestates(before, n - 1, State.Failed, Interrupted);
      }
    }
  }

  lemma ExtrasLeaveNone(w: World, w': World)
    requires ExtrasFailed(w, |w.txns|, w')
    ensures !HasFailable(w')
  {
  }

  lemma OneIsNoExtra(obs: Observation, txn: View)
    requires txn.View?
    ensures DecideOne(obs, txn).action != Action.FailFailableExtras
  {
  }

  lemma ExtrasNext(cfg: Config, w: World, obs: Observation, next: Decision)
    requires Distinct(w) && !HasFailable(w) && DecidedAs(cfg, w, obs, next)
    ensures Blocks(next) || next.action != Action.FailFailableExtras
  {
    hide DecidedAs, Distinct, Readable, HasNonterminal, ReadActive, ObserveEnvironment, DecideOne, Shows;
    if !Readable(w) {
      UnreadableBlocks(cfg, w, obs, next);
    } else if exists i :: SoleTxn(w, i) {
      var i :| SoleTxn(w, i);
      ObserveSole(cfg, w, i, obs, next);
      OneIsNoExtra(obs, ViewOf(w.txns[i]));
    } else if HasNonterminal(w) {
      ObserveMany(cfg, w, obs, next);
    } else if exists k :: NamedTxn(w, k) {
      var k :| NamedTxn(w, k);
      NamedNext(cfg, w, k, obs, next);
    } else {
      ObserveUnnamed(cfg, w, obs, next);
    }
  }

  lemma RemainingWithoutFailable(cfg: Config, w: World)
    requires !HasFailable(w)
    ensures Remaining(cfg, w) <= 4
  {
  }

  lemma ManyRemaining(cfg: Config, w: World)
    requires Readable(w) && HasNonterminal(w) && HasFailable(w) && forall i :: !SoleTxn(w, i)
    ensures Remaining(cfg, w) == 5
  {
  }

  lemma ManyAdvances(cfg: Config, w: World, obs: Observation, d: Decision)
    requires Distinct(w) && Readable(w) && HasNonterminal(w) && forall i :: !SoleTxn(w, i)
    requires DecidedAs(cfg, w, obs, d) && !Blocks(d)
    ensures Execute(cfg, w, obs, d).ok && Advances(cfg, w, d, Execute(cfg, w, obs, d).world)
  {
    hide DecidedAs, Distinct, ReconcileEnvironment, ActivateTxn, ReadActive, Remaining, FailExtras, ExtrasFailed,
      SoleTxn, HasFailable;
    ViewsOfWorld(w);
    ObserveMany(cfg, w, obs, d);
    assert HasFailable(w);
    ManyRemaining(cfg, w);
    FailExtrasRuns(w, obs.transactions, |w.txns|);
    var w' := Execute(cfg, w, obs, d).world;
    ExtrasDistinct(w, |w.txns|, w');
    ExtrasLeaveNone(w, w');
    RemainingWithoutFailable(cfg, w');
    forall obs', next | DecidedAs(cfg, w', obs', next) ensures Passes(d, next) {
      ExtrasNext(cfg, w', obs', next);
    }
  }

  // ---------------------------------------------------------------- the loop

  /** Every action that succeeds brings recovery closer to rest. */
  lemma StepAdvances(cfg: Config, w: World, obs: Observation, d: Decision)
    requires Working(cfg) && Distinct(w)
    requires DecidedAs(cfg, w, obs, d) && !Blocks(d) && !Rests(d) && Execute(cfg, w, obs, d).ok
    ensures Advances(cfg, w, d, Execute(cfg, w, obs, d).world)
  {
    hide DecidedAs, Distinct, Readable, HasNonterminal, ReadActive, ObserveEnvironment, Execute, Advances, Working;
    if !Readable(w) {
      UnreadableBlocks(cfg, w, obs, d);
    } else if exists i :: SoleTxn(w, i) {
      var i :| SoleTxn(w, i);
      match w.txns[i].state
      case Created => FailableAdvances(cfg, w, i, obs, d);
      case Building => FailableAdvances(cfg, w, i, obs, d);
      case Sealed => SealedAdvances(cfg, w, i, obs, d);
      case Published => PublishedAdvances(cfg, w, i, obs, d);
      case Activating => ActivatingAdvances(cfg, w, i, obs, d);
      case Committed => assert false;
      case Failed => assert false;
    } else if HasNonterminal(w) {
      ManyAdvances(cfg, w, obs, d);
    } else if exists k :: NamedTxn(w, k) {
      var k :| NamedTxn(w, k);
      NamedAdvances(cfg, w, k, obs, d);
    } else {
      ObserveUnnamed(cfg, w, obs, d);
    }
  }

  lemma RemainingBound(cfg: Config, w: World)
    ensures Remaining(cfg, w) <= 5
  {
  }

  /** From any later iteration the loop stops by itself, and the guard has nothing to say. */
  lemma {:induction false} LaterIterationsStop(cfg: Config, w: World, step: nat, prev: Decision)
    requires Working(cfg) && Distinct(w) && !HasFailable(w) && GuardPasses(cfg, prev, w)
    requires 0 < step && step + Remaining(cfg, w) < MAX_RECOVER_STEPS
    ensures var r := Recover(cfg, w, step, prev);
            && (r.stop == Finished || r.stop == ActionFailed)
            && r.steps <= step + Remaining(cfg, w) + 1
    decreases MAX_RECOVER_STEPS - step
  {
    hide Observe, DecisionFor, Execute, Remaining, Distinct, Working, HasFailable, TwoEmptyStagings;
    var obs := Observe(cfg, w);
    var d := DecisionFor(obs);
    assert DecidedAs(cfg, w, obs, d);
    if !Blocks(d) && !Rests(d) && Execute(cfg, w, obs, d).ok {
      StepAdvances(cfg, w, obs, d);
      NoPairWithoutFailable(w);
      LaterIterationsStop(cfg, Execute(cfg, w, obs, d).world, step + 1, d);
    }
  }

  lemma NoPairWithoutFailable(w: World)
    requires !HasFailable(w)
    ensures !TwoEmptyStagings(w)
  {
  }

  /** On the exceptional disk the first action succeeds and the second one trips the guard. */
  lemma PairTripsGuard(cfg: Config, w: World)
    requires Working(cfg) && Distinct(w) && TwoEmptyStagings(w)
    ensures RecoverWith(cfg, w).stop == GuardTripped && RecoverWith(cfg, w).steps == 2
    ensures !HasFailable(RecoverWith(cfg, w).world) && Distinct(RecoverWith(cfg, w).world)
  {
    hide Observe, DecisionFor, Execute, Remaining, Distinct, Working, HasFailable, Readable, EmptyStagingPair;
    var i, k :| EmptyStagingPair(w, i, k);
    var obs := Observe(cfg, w);
    var d := DecisionFor(obs);
    assert DecidedAs(cfg, w, obs, d);
    PairDecision(cfg, w, i, k, obs, d);
    StepAdvances(cfg, w, obs, d);
    var w' := Execute(cfg, w, obs, d).world;
    var obs' := Observe(cfg, w');
    var next := DecisionFor(obs');
    assert DecidedAs(cfg, w', obs', next);
    PairNext(cfg, w, i, k, obs, d, obs', next);
    assert RecoverWith(cfg, w) == Recover(cfg, w, 0, NoDecision);
    assert Recover(cfg, w, 0, NoDecision) == Recover(cfg, w', 1, d);
  }

  lemma PairDecision(cfg: Config, w: World, i: int, k: int, obs: Observation, d: Decision)
    requires Distinct(w) && Readable(w) && EmptyStagingPair(w, i, k) && DecidedAs(cfg, w, obs, d)
    ensures !Blocks(d) && !Rests(d) && d.action == RemoveEmptyStaging && d.next == Some(State.Failed)
    ensures Execute(cfg, w, obs, d).ok
    ensures var w' := Execute(cfg, w, obs, d).world;
            Restated(w.(staging := w.staging - {w.txns[i].id}), i, w') && w'.txns[i].state == State.Failed
  {
    hide DecidedAs, Readable, Distinct, ReadActive, ObserveEnvironment, ReconcileEnvironment, ActivateTxn, FailExtras,
      PersistTxnState, Primary, ValidTransaction, VerifySealedTree;
    ObserveSole(cfg, w, i, obs, d);
    var w1 := w.(staging := w.staging - {w.txns[i].id});
    assert Distinct(w1) by { PairDistinct(w, i); }
    PersistRestates(w1, i, State.Failed, d.code);
  }

  lemma PairDistinct(w: World, i: int)
    requires Distinct(w) && 0 <= i < |w.txns|
    ensures Distinct(w.(staging := w.staging - {w.txns[i].id}))
  {
  }

  lemma PairNext(cfg: Config, w: World, i: int, k: int, obs: Observation, d: Decision, obs': Observation,
          next: Decision)
    requires Distinct(w) && Readable(w) && EmptyStagingPair(w, i, k) && DecidedAs(cfg, w, obs, d)
    requires DecidedAs(cfg, Execute(cfg, w, obs, d).world, obs', next)
    ensures next == Do(Ready, None, RemoveEmptyStaging)
  {
    hide DecidedAs, ReadActive, ObserveEnvironment, Execute, Distinct;
    PairDecision(cfg, w, i, k, obs, d);
    var w1 := w.(staging := w.staging - {w.txns[i].id});
    var w' := Execute(cfg, w, obs, d).world;
    PairDistinct(w, i);
    PointerIgnoresRecords(w, w1);
    RestatedKeeps(w1, i, w');
    assert SoleTxn(w1, i);
    SoleLeft(w1, i, w');
    KeptApart(w, i, k);
    assert w'.txns[k] == w.txns[k];
    ObserveNamed(cfg, w', k, obs', next);
  }

  lemma KeptApart(w: World, i: int, k: int)
    requires Distinct(w) && 0 <= i < |w.txns| && 0 <= k < |w.txns| && i != k
    ensures w.txns[i].id != w.txns[k].id
  {
  }

  /**
   * Recovery from any disk with a working environment: at most six iterations, never the step cap, and the
   * forward guard fires exactly on the two-empty-stagings disk.
   */
  lemma RecoveryTerminates(cfg: Config, w: World)
    requires Working(cfg) && Distinct(w)
    ensures RecoverWith(cfg, w).steps <= 6
    ensures RecoverWith(cfg, w).stop != StepsExhausted
    ensures RecoverWith(cfg, w).stop == GuardTripped <==> TwoEmptyStagings(w)
  {
    hide Observe, DecisionFor, Execute, Remaining, Distinct, Working, HasFailable, TwoEmptyStagings;
    if TwoEmptyStagings(w) {
      PairTripsGuard(cfg, w);
    } else {
      var obs := Observe(cfg, w);
      var d := DecisionFor(obs);
      assert DecidedAs(cfg, w, obs, d);
      assert RecoverWith(cfg, w) == Recover(cfg, w, 0, NoDecision);
      if !Blocks(d) && !Rests(d) && Execute(cfg, w, obs, d).ok {
        StepAdvances(cfg, w, obs, d);
        RemainingBound(cfg, w);
        LaterIterationsStop(cfg, Execute(cfg, w, obs, d).world, 1, d);
      }
    }
  }

  /** After the guard fired, the next start of the daemon recovers without it. */
  lemma GuardFiresOnce(cfg: Config, w: World)
    requires Working(cfg) && Distinct(w) && RecoverWith(cfg, w).stop == GuardTripped
    ensures RecoverWith(cfg, RecoverWith(cfg, w).world).stop != GuardTripped
  {
    hide RecoverWith, Distinct, Working, HasFailable, TwoEmptyStagings;
    RecoveryTerminates(cfg, w);
    PairTripsGuard(cfg, w);
    NoPairWithoutFailable(RecoverWith(cfg, w).world);
    RecoveryTerminates(cfg, RecoverWith(cfg, w).world);
  }

  // ---------------------------------------------------------------- the exceptional disk exists

  const ID_A := "aaaaaaaaaaaaaaaaaaaaaa"
  const ID_B := "bbbbbbbbbbbbbbbbbbbbbb"

  ghost function SampleTxn(body: string, state: State, manifestSha: Digest, sealSha: Digest): Txn {
    Txn(1, "txn_" + body, "hermes", "gen_" + body, state, "pin", "1", manifestSha, sealSha,
        Unrecorded, "", NoDigest, NoCode, 1, 1, None, if state == State.Committed then Some(1) else None)
  }

  /** An active committed generation and a later BUILDING record, each with an empty staging directory. */
  ghost function TwoStagingsDisk(): World {
    var tree := WithSeal(map[], "lineage", "txn_" + ID_A, "gen_" + ID_A);
    var manifestSha, sealSha := Sha256(tree[FILE_MANIFEST]), Sha256(tree[FILE_GENERATION]);
    World(
      [SampleTxn(ID_A, State.Committed, manifestSha, sealSha), SampleTxn(ID_B, State.Building, NoDigest, NoDigest)],
      [],
      ActiveFile(ActiveRecord("hermes", "gen_" + ID_A, manifestSha, sealSha, "pin", "1", "txn_" + ID_A, 1)),
      map["gen_" + ID_A := tree],
      map["txn_" + ID_A := map[], "txn_" + ID_B := map[]],
      map[], {}, Env("", []), 2, [])
  }

  lemma SampleIdentifiers()
    ensures ValidGenId("gen_" + ID_A) && ValidGenId("gen_" + ID_B) && ValidTxnId("txn_" + ID_A)
    ensures ValidTxnId("txn_" + ID_B)
    ensures "gen_" + ID_A != "gen_" + ID_B && "txn_" + ID_A != "txn_" + ID_B
    ensures !Blank("hermes") && !Blank("pin") && !Blank("1")
  {
    assert ("gen_" + ID_A)[4] != ("gen_" + ID_B)[4];
    assert ("txn_" + ID_A)[4] != ("txn_" + ID_B)[4];
    assert !IsSpace("hermes"[0]) && !IsSpace("pin"[0]) && !IsSpace("1"[0]);
  }

  lemma TwoStagingsDiskReads()
    ensures var w := TwoStagingsDisk(); var t := w.txns[0];
            && ReadActive(w) == Valid(t.generationId, t.sealSha, t.manifestSha)
            && SealedHere(GenerationSeen(w, t))
  {
    hide ValidGenId, ValidTxnId, Blank, VerifySealedTree, VerifyPublished;
    SampleIdentifiers();
    SealedTreeVerifies(map[], "lineage", "txn_" + ID_A, "gen_" + ID_A);
    var w := TwoStagingsDisk();
    VerifyMeta(w.generations["gen_" + ID_A], "gen_" + ID_A, w.txns[0].manifestSha, w.txns[0].sealSha);
  }

  lemma TwoStagingsDiskExists()
    ensures Distinct(TwoStagingsDisk()) && TwoEmptyStagings(TwoStagingsDisk())
  {
    hide ValidGenId, ValidTxnId, Blank, ReadActive, GenerationSeen;
    SampleIdentifiers();
    TwoStagingsDiskReads();
    var w := TwoStagingsDisk();
    assert SoleTxn(w, 1) && NamedTxn(w, 0);
    assert EmptyStagingPair(w, 1, 0);
  }

  lemma VerifyMeta(tree: Tree, g: string, m: Digest, s: Digest)
    requires VerifySealedTree(tree, g, m, s)
    ensures VerifyPublished(tree, g, m, s)
  {
  }

  /** The forward guard can fire: recovery of this disk stops with an error after failing the transaction. */
  lemma GuardCanFire(cfg: Config)
    requires Working(cfg)
    ensures RecoverWith(cfg, TwoStagingsDisk()).stop == GuardTripped
  {
    hide RecoverWith, TwoStagingsDisk, Distinct, TwoEmptyStagings;
    TwoStagingsDiskExists();
    RecoveryTerminates(cfg, TwoStagingsDisk());
  }

  // ---------------------------------------------------------------- a generation identifier used twice

  /** A COMMITTED record and a FAILED one claim the active generation, and the environment is in place. */
  ghost function SharedGenerationDisk(cfg: Config, a: string, b: string): World {
    var tree := WithSeal(map[], "lineage", "txn_" + a, "gen_" + a);
    var manifestSha, sealSha := Sha256(tree[FILE_MANIFEST]), Sha256(tree[FILE_GENERATION]);
    World(
      [SampleTxn(a, State.Committed, manifestSha, sealSha),
       SampleTxn(b, State.Failed, manifestSha, sealSha).(generationId := "gen_" + a)],
      [],
      ActiveFile(ActiveRecord("hermes", "gen_" + a, manifestSha, sealSha, "pin", "1", "txn_" + a, 1)),
      map["gen_" + a := tree], map[], map[], {}, Env(cfg.root, [BinOf(cfg, "gen_" + a)]), 2, [])
  }

  lemma SharedGenerationReads(cfg: Config, a: string, b: string)
    requires Working(cfg) && ValidGenId("gen_" + a) && ValidTxnId("txn_" + a) && "txn_" + a != "txn_" + b
    ensures var w := SharedGenerationDisk(cfg, a, b); var t := w.txns[0];
            && ReadActive(w) == Valid(t.generationId, t.sealSha, t.manifestSha)
            && EnvComplete(ObserveEnvironment(cfg, w)) && Load(w, t.id) == Some(t)
  {
    hide ValidGenId, ValidTxnId, Blank, VerifySealedTree, VerifyPublished, WithSeal, PlannedPath, PathChanges;
    SampleIdentifiers();
    SealedTreeVerifies(map[], "lineage", "txn_" + a, "gen_" + a);
    var w := SharedGenerationDisk(cfg, a, b);
    VerifyMeta(w.generations["gen_" + a], "gen_" + a, w.txns[0].manifestSha, w.txns[0].sealSha);
    assert IndexOf(w.txns, w.txns[0].id) == 0;
  }

  lemma SharedGenerationPrimary(cfg: Config, a: string, b: string)
    requires ReadActive(SharedGenerationDisk(cfg, a, b)).Valid?
    requires ReadActive(SharedGenerationDisk(cfg, a, b)).generationId == "gen_" + a
    ensures var w := SharedGenerationDisk(cfg, a, b); Primary(Views(w), ReadActive(w)) == Some(ViewOf(w.txns[0]))
  {
    hide ReadActive, WithSeal;
    var w := SharedGenerationDisk(cfg, a, b);
    assert FirstNamed(Views(w), ReadActive(w).generationId, 0);
    assert forall j :: FirstNamed(Views(w), ReadActive(w).generationId, j) ==> j == 0;
  }

  /** Recovery persists the record that is COMMITTED already, over and over, until the guard stops it. */
  lemma SharedGenerationTurn(cfg: Config, a: string, b: string, obs: Observation, d: Decision)
    requires Working(cfg) && ValidGenId("gen_" + a) && ValidTxnId("txn_" + a) && "txn_" + a != "txn_" + b
    requires DecidedAs(cfg, SharedGenerationDisk(cfg, a, b), obs, d)
    ensures d == Do(Ready, Some(State.Committed), Action.Commit)
    ensures var w := SharedGenerationDisk(cfg, a, b); Execute(cfg, w, obs, d) == Exec(w, true)
  {
    hide ValidGenId, ValidTxnId, ReadActive, ObserveEnvironment, WithSeal, Load, Primary, ObserveTree, Working;
    SharedGenerationReads(cfg, a, b);
    SharedGenerationPrimary(cfg, a, b);
    assert ActiveRecordAt(obs, 1) && obs.transactions[1].state == State.Failed;
  }

  /**
   * Where two records share a generation the exact condition of RecoveryTerminates is lost: the guard fires on this
   * disk although no staging directory is there.
   */
  lemma SharedGenerationTripsGuard(cfg: Config)
    requires Working(cfg)
    ensures var w := SharedGenerationDisk(cfg, ID_A, ID_B);
            RecoverWith(cfg, w).stop == GuardTripped && !TwoEmptyStagings(w)
  {
    hide SharedGenerationDisk, RecoverWith, TwoEmptyStagings, Working;
    SampleIdentifiers();
    SharedGenerationRun(cfg, ID_A, ID_B);
  }

  lemma SharedGenerationRun(cfg: Config, a: string, b: string)
    requires Working(cfg) && ValidGenId("gen_" + a) && ValidTxnId("txn_" + a) && "txn_" + a != "txn_" + b
    ensures var w := SharedGenerationDisk(cfg, a, b);
            RecoverWith(cfg, w).stop == GuardTripped && !TwoEmptyStagings(w)
  {
    hide ValidGenId, ValidTxnId, Observe, DecisionFor, Execute, WithSeal, Working, SharedGenerationDisk, Readable,
      TwoEmptyStagings;
    var w := SharedGenerationDisk(cfg, a, b);
    var obs := Observe(cfg, w);
    var d := DecisionFor(obs);
    assert DecidedAs(cfg, w, obs, d);
    SharedGenerationTurn(cfg, a, b, obs, d);
    assert RecoverWith(cfg, w) == Recover(cfg, w, 1, d);
    SharedGenerationStaging(cfg, a, b);
    WithoutStagings(w);
  }

  lemma SharedGenerationStaging(cfg: Config, a: string, b: string)
    ensures SharedGenerationDisk(cfg, a, b).staging == map[]
  {
  }

  lemma WithoutStagings(w: World)
    requires w.staging == map[]
    ensures !TwoEmptyStagings(w)
  {
    hide Readable;
  }
}
