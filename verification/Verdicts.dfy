/** What recovery decides, read from its effects back to the observations that call for them. */
module Verdicts {
  import opened InstallTypes
  import opened Decide
  import opened Recovery

  /** The trees of a record as observed: sealed for it. */
  predicate SealedFor(tree: TreeObservation) {
    tree.present && tree.sealed && tree.lineageMatch
  }

  /** active.json names this generation. */
  predicate NamesView(obs: Observation, txn: View)
    requires txn.View?
  {
    obs.active.Valid? && txn.generationId != "" && obs.active.generationId == txn.generationId
  }

  /** active.json reads as the record says it did before: absent, or this generation under this seal if it kept one. */
  predicate ReadsAsBefore(active: ActivePointer, kind: BeforeKind, before: string, digest: Digest) {
    || (active.Missing? && (kind.BeforeAbsent? || (kind.Unrecorded? && before == "")))
    || (active.Valid? && (kind.BeforeValid? || (kind.Unrecorded? && before != ""))
        && active.generationId == before && (digest == NoDigest || active.sealSha == digest))
  }

  lemma ExpectedIsAsBefore(active: ActivePointer, kind: BeforeKind, before: string, digest: Digest)
    ensures ExpectedPredecessor(active, kind, before, digest) <==> ReadsAsBefore(active, kind, before, digest)
  {
  }

  /** The compare of the swap, for a pointer that can be read. */
  lemma CompareIsAsBefore(t: Txn, p: ActivePointer)
    ensures CasAllows(t, p) <==>
              || (p.Valid? && p.generationId == t.generationId && p.sealSha == t.sealSha)
              || ReadsAsBefore(p, t.beforeKind, t.beforeGeneration, t.beforeDigest)
  {
  }

  // ---------------------------------------------------------------- one record in flight

  /**
   * A record is failed exactly when it never got a sealed generation and nothing contradicts that: a CREATED or
   * BUILDING one with trees in one place at most, and no foreign tree as its generation; or a SEALED one whose tree
   * is still in staging, sealed for it or not sealed at all. The code says why.
   */
  lemma WhatFails(obs: Observation, txn: View)
    requires txn.View? && !Terminal(txn.state)
    ensures var d, s, g := DecideOne(obs, txn), obs.staging, obs.generation;
            && (d.next == Some(State.Failed) <==>
                  || (Failable(txn.state) && !(s.present && g.present) && (g.present ==> g.empty || g.lineageMatch))
                  || (txn.state == Sealed && s.present && !g.present && (s.sealed ==> s.lineageMatch)))
            && (d.next == Some(State.Failed) ==>
                  && d.gate == Ready
                  && d.code == (if txn.state == Created then NoCode
                                else if txn.state == Building || s.sealed then Interrupted
                                else SealInvalid)
                  && d.action == (if s.present then (if txn.state != Sealed && s.empty then RemoveEmptyStaging
                                                     else MoveStagingToFailed)
                                  else if g.present && g.empty then RemoveEmptyGeneration
                                  else NoAction))
  {
  }

  /**
   * A record moves on exactly along the lifecycle, and only with its sealed generation in place: SEALED without a
   * tree in staging; PUBLISHED and ACTIVATING as active.json allows.
   */
  lemma WhatMovesOn(obs: Observation, txn: View)
    requires txn.View? && !Terminal(txn.state)
    ensures var d, s, g := DecideOne(obs, txn), obs.staging, obs.generation;
            var clear := !s.present || (!s.empty && !s.lineageMatch);
            var before := ReadsAsBefore(obs.active, txn.beforeKind, txn.before, txn.beforeDigest);
            && (d.next == Some(Published) <==> txn.state == Sealed && SealedFor(g) && (!s.present || s.empty))
            && (d.next == Some(State.Activating) <==>
                  txn.state == Published && SealedFor(g) && clear && (NamesView(obs, txn) || before))
            && (d.next == Some(State.Committed) <==>
                  txn.state == State.Activating && SealedFor(g) && NamesView(obs, txn) && EnvComplete(obs.environment))
            && (d.action == Action.Activate <==>
                  txn.state == State.Activating && SealedFor(g) && !NamesView(obs, txn) && before)
            && (d.action == ReconcileEnv <==>
                  && SealedFor(g) && NamesView(obs, txn)
                  && (if txn.state == Published then clear
                      else txn.state == State.Activating && !EnvComplete(obs.environment)))
            && (d.action == PersistActivating <==> d.next == Some(State.Activating) && !NamesView(obs, txn))
            && (d.action == Action.Commit <==> d.next == Some(State.Committed))
            && (d.action == PersistPublished <==> d.next == Some(Published) && !s.present)
            && (!Blocks(d) && d.next != Some(State.Failed) ==> d.gate == Reconciling && d.code == NoCode)
  {
    ExpectedIsAsBefore(obs.active, txn.beforeKind, txn.before, txn.beforeDigest);
  }

  /** A staging tree is touched only when it is empty, moved aside with its record's failure, or superseded. */
  lemma WhatIsCleared(obs: Observation, txn: View)
    requires txn.View? && !Terminal(txn.state)
    ensures var d, s, g := DecideOne(obs, txn), obs.staging, obs.generation;
            && (d.action == GCStaging <==>
                  txn.state == Published && SealedFor(g) && s.present && !s.empty && s.lineageMatch)
            && (d.action == RemoveEmptyStaging <==>
                  && s.present && s.empty
                  && (if Failable(txn.state) then !g.present
                      else (txn.state == Sealed || txn.state == Published) && SealedFor(g)))
            && (d.action == RemoveEmptyGeneration <==> Failable(txn.state) && !s.present && g.present && g.empty)
            && (d.action == GCStaging ==> d.next.None?)
            && d.action != DiagnoseRetain && d.action != FailTransaction && d.action != FailFailableExtras
  {
  }

  /** Recovery blocks exactly on these contradictions; an inconsistent disk and an unsafe one carry different codes. */
  lemma WhatBlocks(obs: Observation, txn: View)
    requires txn.View? && !Terminal(txn.state)
    ensures var d, s, g := DecideOne(obs, txn), obs.staging, obs.generation;
            var before := ReadsAsBefore(obs.active, txn.beforeKind, txn.before, txn.beforeDigest);
            && (Blocks(d) <==> d == Decision(BlockedUnsafe, None, BlockUnsafe, d.code))
            && (Blocks(d) ==> d.code == Unsafe || d.code == Inconsistent)
            && (d.code == Unsafe <==>
                  || (txn.state == Sealed && SealedFor(g) && SealedFor(s) && !s.empty)
                  || (txn.state == Sealed && g.present && g.lineageId != "" && !g.lineageMatch)
                  || (txn.state == Published && SealedFor(g) && !(s.present && (s.empty || s.lineageMatch))
                      && obs.active.Valid? && !NamesView(obs, txn) && !before)
                  || (txn.state == State.Activating && SealedFor(g)
                      && obs.active.Valid? && !NamesView(obs, txn) && !before))
            && (Failable(txn.state) ==>
                  (Blocks(d) <==> g.present && (s.present || (!g.empty && !g.lineageMatch))))
  {
    ExpectedIsAsBefore(obs.active, txn.beforeKind, txn.before, txn.beforeDigest);
  }

  // ---------------------------------------------------------------- the whole observation

  /** A record of the given state names the active generation. */
  ghost predicate NamedIn(obs: Observation, state: State) {
    exists i :: 0 <= i < |obs.transactions| && obs.transactions[i].View? && obs.transactions[i].state == state
                && obs.active.Valid? && obs.transactions[i].generationId == obs.active.generationId
  }

  /** active.json is valid, there are records, and it names none of them. */
  ghost predicate PointsElsewhere(obs: Observation) {
    && obs.active.Valid? && (exists i :: 0 <= i < |obs.transactions| && obs.transactions[i].View?)
    && forall i :: 0 <= i < |obs.transactions| && obs.transactions[i].View? ==>
         obs.transactions[i].generationId != obs.active.generationId
  }

  /**
   * With no record in flight: an active FAILED record is committed, or reconciled first; an active COMMITTED one has
   * its staging leftovers cleared, then its environment reconciled; otherwise nothing is done, and unknown
   * directories are only noted when no pointer stands apart from every record.
   */
  lemma WhatTerminalNeeds(obs: Observation)
    requires forall i :: 0 <= i < |obs.transactions| ==> !Pending(obs.transactions[i])
    ensures var d, s := DecideTerminalWorld(obs), obs.staging;
            var failed, committed := NamedIn(obs, State.Failed), NamedIn(obs, State.Committed);
            var leftover := s.present && SealedFor(obs.generation) && (s.empty || s.lineageMatch);
            && d.code == NoCode
            && (d.action == Action.Commit <==> failed && EnvComplete(obs.environment))
            && (d.action == Action.Commit ==> d.gate == Ready && d.next == Some(State.Committed))
            && (d.action == ReconcileEnv <==>
                  !EnvComplete(obs.environment) && (failed || (committed && !leftover)))
            && (d.action == ReconcileEnv ==>
                  if failed then d.gate == Reconciling && d.next == Some(State.Activating)
                  else d.gate == Ready && d.next.None?)
            && (d.action == RemoveEmptyStaging <==> !failed && committed && leftover && s.empty)
            && (d.action == GCStaging <==> !failed && committed && leftover && !s.empty)
            && (d.action == DiagnoseRetain <==>
                  !failed && !committed && obs.unknownDirectories != {} && !PointsElsewhere(obs))
            && (d.action == DiagnoseRetain || d.action == GCStaging || d.action == RemoveEmptyStaging ==>
                  d.gate == Ready && d.next.None?)
            && (d.action == NoAction ==> d.gate == Ready && d.next.None?)
  {
    if NamedIn(obs, State.Failed) { assert ActiveInState(obs, State.Failed); }
    if NamedIn(obs, State.Committed) { assert ActiveInState(obs, State.Committed); }
  }

  /** Before any record is looked at: what blocks at once, and what several records in flight lead to. */
  lemma WhatComesFirst(obs: Observation)
    ensures var d := DecisionFor(obs);
            && (obs.active.Invalid? || obs.reservedIdCollision || ReservedNameTaken(obs.transactions) ==>
                  d == Decision(BlockedUnsafe, None, BlockUnsafe, Unsafe))
            && (!obs.active.Invalid? && !obs.reservedIdCollision && !ReservedNameTaken(obs.transactions)
                  && AnyPending(obs.transactions) && (forall i :: !Sole(obs.transactions, i)) ==>
                  d == if AnyFailable(obs.transactions)
                       then Decision(Reconciling, None, FailFailableExtras, Interrupted)
                       else Decision(BlockedUnsafe, None, BlockUnsafe, Unsafe))
  {
  }

  // ---------------------------------------------------------------- the guard of the loop

  /** The order the guard reads states in: FAILED before everything, then along the lifecycle. */
  const GUARD_ORDER := [State.Failed, Created, Building, Sealed, Published, State.Activating, State.Committed]

  /**
   * The guard lets a decision follow another one exactly when it does not block and is idle, reconciles, asks for a
   * different action, or asks for the same action towards a later state.
   */
  lemma GuardLetsPass(prev: Decision, next: Decision)
    ensures ForwardOrNoop(prev, next) <==>
              && !Blocks(next)
              && (|| next.action == NoAction || next.action == DiagnoseRetain || next.action == ReconcileEnv
                  || prev.action != next.action
                  || exists i, j :: 0 <= i < j < |GUARD_ORDER|
                       && prev.next == Some(GUARD_ORDER[i]) && next.next == Some(GUARD_ORDER[j]))
  {
    forall i, j | 0 <= i < |GUARD_ORDER| && 0 <= j < |GUARD_ORDER|
      ensures i < j <==> RankState(GUARD_ORDER[i]) < RankState(GUARD_ORDER[j])
    {
    }
    if prev.next.Some? && next.next.Some? {
      var i, j := RankState(prev.next.value), RankState(next.next.value);
      assert GUARD_ORDER[i] == prev.next.value && GUARD_ORDER[j] == next.next.value;
    }
  }
}
