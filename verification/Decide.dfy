/** The recovery decision: what one observation of the disk calls for. */
module Decide {
  import opened InstallTypes

  function Blocked(): Decision {
    Decision(BlockedUnsafe, None, BlockUnsafe, Unsafe)
  }

  function FailClosed(): Decision {
    Decision(BlockedUnsafe, None, BlockUnsafe, Inconsistent)
  }

  function FailTxn(code: Code, action: Action): Decision {
    Decision(Ready, Some(Failed), action, code)
  }

  function Do(gate: Gate, next: Option<State>, action: Action): Decision {
    Decision(gate, next, action, NoCode)
  }

  // ---------------------------------------------------------------- pure branches

  predicate SealedHere(tree: TreeObservation) {
    tree.present && tree.sealed && tree.lineageMatch
  }

  /** CREATED and BUILDING differ only in the code they record. */
  function DecideFailable(obs: Observation, code: Code): Decision {
    if !obs.staging.present && obs.generation.present then
      if obs.generation.empty then FailTxn(code, RemoveEmptyGeneration)
      else if obs.generation.lineageMatch then FailTxn(code, NoAction)
      else FailClosed()
    else if !obs.staging.present then FailTxn(code, NoAction)
    else if !obs.generation.present then
      if obs.staging.empty then FailTxn(code, RemoveEmptyStaging) else FailTxn(code, MoveStagingToFailed)
    else FailClosed()
  }

  function DecideSealed(obs: Observation): Decision {
    var s, g := obs.staging, obs.generation;
    if SealedHere(g) && SealedHere(s) && !s.empty then Blocked()
    else if g.present && g.lineageId != "" && !g.lineageMatch then Blocked()
    else if !s.present && SealedHere(g) then Do(Reconciling, Some(Published), PersistPublished)
    else if s.present && s.empty && SealedHere(g) then Do(Reconciling, Some(Published), RemoveEmptyStaging)
    else if SealedHere(s) && !g.present then FailTxn(Interrupted, MoveStagingToFailed)
    else if s.present && !s.sealed && !g.present then FailTxn(SealInvalid, MoveStagingToFailed)
    else FailClosed()
  }

  function LeftoverStaging(obs: Observation): Option<Action> {
    if !obs.staging.present || !SealedHere(obs.generation) then None
    else if obs.staging.empty then Some(RemoveEmptyStaging)
    else if obs.staging.lineageMatch then Some(GCStaging)
    else None
  }

  predicate ActiveNames(active: ActivePointer, generationId: string) {
    active.Valid? && generationId != "" && active.generationId == generationId
  }

  /** An unrecorded kind is read as ABSENT without a generation and as VALID with one. */
  function EffectiveKind(kind: BeforeKind, before: string): BeforeKind {
    if kind.Unrecorded? then (if before == "" then BeforeAbsent else BeforeValid) else kind
  }

  predicate ExpectedPredecessor(active: ActivePointer, kind: BeforeKind, before: string, digest: Digest) {
    match EffectiveKind(kind, before)
    case BeforeAbsent => active.Missing?
    case BeforeValid =>
      active.Valid? && active.generationId == before && (digest == NoDigest || active.sealSha == digest)
    case Unrecorded => false
  }

  predicate ExpectedFor(obs: Observation, txn: View)
    requires txn.View?
  {
    ExpectedPredecessor(obs.active, txn.beforeKind, txn.before, txn.beforeDigest)
  }

  function DecidePublished(obs: Observation, txn: View): Decision
    requires txn.View?
  {
    if !SealedHere(obs.generation) then FailClosed()
    else if LeftoverStaging(obs).Some? then Do(Reconciling, None, LeftoverStaging(obs).value)
    else if ActiveNames(obs.active, txn.generationId) then Do(Reconciling, Some(State.Activating), ReconcileEnv)
    else if ExpectedFor(obs, txn) then Do(Reconciling, Some(State.Activating), PersistActivating)
    else if obs.active.Valid? then Blocked()
    else FailClosed()
  }

  function DecideActivating(obs: Observation, txn: View): Decision
    requires txn.View?
  {
    var names := ActiveNames(obs.active, txn.generationId);
    if !SealedHere(obs.generation) then FailClosed()
    else if obs.active.Valid? && !names && !ExpectedFor(obs, txn) then Blocked()
    else if names then
      if EnvComplete(obs.environment) then Do(Reconciling, Some(State.Committed), Action.Commit)
      else Do(Reconciling, None, ReconcileEnv)
    else if ExpectedFor(obs, txn) then Do(Reconciling, None, Action.Activate)
    else FailClosed()
  }

  function DecideOne(obs: Observation, txn: View): Decision
    requires txn.View?
  {
    match txn.state
    case Created => DecideFailable(obs, NoCode)
    case Building => DecideFailable(obs, Interrupted)
    case Sealed => DecideSealed(obs)
    case Published => DecidePublished(obs, txn)
    case Activating => DecideActivating(obs, txn)
    case Committed => Blocked()
    case Failed => Blocked()
  }

  // ---------------------------------------------------------------- what the loops look for

  predicate Pending(v: View) {
    v.View? && !Terminal(v.state)
  }

  ghost predicate Sole(views: seq<View>, i: int) {
    && 0 <= i < |views| && Pending(views[i])
    && forall j :: 0 <= j < |views| && Pending(views[j]) ==> j == i
  }

  ghost predicate AnyPending(views: seq<View>) {
    exists i :: 0 <= i < |views| && Pending(views[i])
  }

  ghost predicate ReservedNameTaken(views: seq<View>) {
    exists i :: 0 <= i < |views| && views[i].Malformed? && views[i].occupiesReservedName
  }

  ghost predicate AnyFailable(views: seq<View>) {
    exists i :: 0 <= i < |views| && Pending(views[i]) && Failable(views[i].state)
  }

  /** A terminal record in the given state names the active generation. */
  ghost predicate ActiveInState(obs: Observation, state: State) {
    exists i :: 0 <= i < |obs.transactions| && ActiveRecordAt(obs, i) && obs.transactions[i].state == state
  }

  predicate ActiveRecordAt(obs: Observation, i: nat)
    requires i < |obs.transactions|
  {
    obs.active.Valid? && obs.transactions[i].View? && obs.transactions[i].generationId == obs.active.generationId
  }

  ghost predicate PointerUnrelated(obs: Observation) {
    && obs.active.Valid?
    && (forall i :: 0 <= i < |obs.transactions| ==> !ActiveRecordAt(obs, i))
    && (exists i :: 0 <= i < |obs.transactions| && obs.transactions[i].View?)
  }

  ghost function DecideTerminalWorld(obs: Observation): Decision {
    if PointerUnrelated(obs) then Do(Ready, None, NoAction)
    else if ActiveInState(obs, State.Failed) then
      if EnvComplete(obs.environment) then Do(Ready, Some(State.Committed), Action.Commit)
      else Do(Reconciling, Some(State.Activating), ReconcileEnv)
    else if ActiveInState(obs, State.Committed) then
      if LeftoverStaging(obs).Some? then Do(Ready, None, LeftoverStaging(obs).value)
      else if !EnvComplete(obs.environment) && obs.active.Valid? then Do(Ready, None, ReconcileEnv)
      else Do(Ready, None, NoAction)
    else if obs.unknownDirectories != {} then Do(Ready, None, DiagnoseRetain)
    else Do(Ready, None, NoAction)
  }

  ghost function DecisionFor(obs: Observation): Decision {
    if obs.active.Invalid? || obs.reservedIdCollision || ReservedNameTaken(obs.transactions) then Blocked()
    else if !AnyPending(obs.transactions) then DecideTerminalWorld(obs)
    else if exists i :: Sole(obs.transactions, i) then
      var i :| Sole(obs.transactions, i);
      DecideOne(obs, obs.transactions[i])
    else if AnyFailable(obs.transactions) then Decision(Reconciling, None, FailFailableExtras, Interrupted)
    else Blocked()
  }

  // ---------------------------------------------------------------- the loops of the source

  /** The nonterminal views, with where each one stands. */
  ghost predicate Filled(views: seq<View>, n: nat, pending: seq<View>, at: seq<int>)
    requires n <= |views|
  {
    && |at| == |pending|
    && (forall k :: 0 <= k < |at| ==> 0 <= at[k] < n && views[at[k]] == pending[k] && Pending(pending[k]))
    && (forall k, l :: 0 <= k < l < |at| ==> at[k] < at[l])
    && (forall k :: 0 <= k < n && Pending(views[k]) ==> k in at)
  }

  /** The first loop: a malformed view on a reserved name stops it, the nonterminal ones are kept. */
  method FillPending(views: seq<View>) returns (taken: bool, pending: seq<View>, ghost at: seq<int>)
    ensures taken <==> ReservedNameTaken(views)
    ensures !taken ==> Filled(views, |views|, pending, at)
  {
    pending, at := [], [];
    for i := 0 to |views|
      invariant forall k :: 0 <= k < i ==> !(views[k].Malformed? && views[k].occupiesReservedName)
      invariant Filled(views, i, pending, at)
    {
      var txn := views[i];
      if txn.Malformed? {
        if txn.occupiesReservedName {
          return true, pending, at;
        }
      } else if !Terminal(txn.state) {
        pending := pending + [txn];
        at := at + [i];
      }
    }
    taken := false;
  }

  /** The loop over several nonterminal views. */
  method HasFailablePending(views: seq<View>, pending: seq<View>, ghost at: seq<int>) returns (failable: bool)
    requires Filled(views, |views|, pending, at)
    ensures failable <==> AnyFailable(views)
  {
    for k := 0 to |pending|
      invariant forall j :: 0 <= j < k ==> !Failable(pending[j].state)
    {
      if Failable(pending[k].state) {
        assert Failable(views[at[k]].state);
        return true;
      }
    }
    failable := false;
    forall i | 0 <= i < |views| && Pending(views[i]) ensures !Failable(views[i].state) {
      assert i in at;
    }
  }

  lemma FilledCases(views: seq<View>, pending: seq<View>, at: seq<int>)
    requires Filled(views, |views|, pending, at)
    ensures |pending| == 0 <==> !AnyPending(views)
    ensures |pending| == 1 ==> Sole(views, at[0]) && forall i :: Sole(views, i) ==> i == at[0]
    ensures |pending| > 1 ==> forall i :: !Sole(views, i)
  {
    if |pending| > 0 { assert Pending(views[at[0]]); }
    if |pending| > 1 {
      assert at[0] < at[1] && Pending(views[at[1]]);
    }
  }

  /** DecideRecovery: one pass fills the nonterminal views, then the branches apply. */
  method DecideRecovery(obs: Observation) returns (d: Decision)
    ensures d == DecisionFor(obs)
  {
    hide DecideOne, DecideTerminalWorld, Filled, Sole, AnyPending, AnyFailable, ReservedNameTaken;
    if obs.active.Invalid? || obs.reservedIdCollision {
      return Blocked();
    }
    var taken, pending;
    ghost var at;
    taken, pending, at := FillPending(obs.transactions);
    if taken {
      return Blocked();
    }
    FilledCases(obs.transactions, pending, at);
    if |pending| > 1 {
      var failable := HasFailablePending(obs.transactions, pending, at);
      if failable {
        return Decision(Reconciling, None, FailFailableExtras, Interrupted);
      }
      return Blocked();
    }
    if |pending| == 0 {
      d := DecideWithoutPending(obs);
      return;
    }
    assert pending[0].View? && obs.transactions[at[0]] == pending[0] by { FilledHead(obs.transactions, pending, at); }
    return DecideOne(obs, pending[0]);
  }

  lemma FilledHead(views: seq<View>, pending: seq<View>, at: seq<int>)
    requires Filled(views, |views|, pending, at) && |pending| > 0
    ensures |at| == |pending| && 0 <= at[0] < |views| && views[at[0]] == pending[0] && pending[0].View?
  {
  }

  method DecideWithoutPending(obs: Observation) returns (d: Decision)
    ensures d == DecideTerminalWorld(obs)
  {
    var anyValid, failed, committed, related := false, false, false, false;
    for i := 0 to |obs.transactions|
      invariant anyValid <==> exists k :: 0 <= k < i && obs.transactions[k].View?
      invariant related <==> exists k :: 0 <= k < i && ActiveRecordAt(obs, k)
      invariant failed <==>
                exists k :: 0 <= k < i && ActiveRecordAt(obs, k) && obs.transactions[k].state == State.Failed
      invariant committed <==>
                exists k :: 0 <= k < i && ActiveRecordAt(obs, k) && obs.transactions[k].state == State.Committed
    {
      if obs.transactions[i].View? {
        anyValid := true;
        if ActiveRecordAt(obs, i) {
          related := true;
          failed := failed || obs.transactions[i].state == State.Failed;
          committed := committed || obs.transactions[i].state == State.Committed;
        }
      }
    }
    if obs.active.Valid? && !related && anyValid {
      return Do(Ready, None, NoAction);
    }
    if failed {
      if EnvComplete(obs.environment) {
        return Do(Ready, Some(State.Committed), Action.Commit);
      }
      return Do(Reconciling, Some(State.Activating), ReconcileEnv);
    }
    if committed {
      if LeftoverStaging(obs).Some? {
        return Do(Ready, None, LeftoverStaging(obs).value);
      }
      if !EnvComplete(obs.environment) && obs.active.Valid? {
        return Do(Ready, None, ReconcileEnv);
      }
      return Do(Ready, None, NoAction);
    }
    if obs.unknownDirectories != {} {
      return Do(Ready, None, DiagnoseRetain);
    }
    return Do(Ready, None, NoAction);
  }
}
