/** The stored operation of an install, and the view of it that follows the install transaction. */
module Projection {
  import opened InstallTypes

  datatype OpType = RuntimeInstall | Prerequisites | OtherType

  datatype Status = Pending | Running | Succeeded | OpFailed | Cancelled

  datatype Stage = Preflight | SourceDownload | BootstrapMarker | InstallPath | Postcheck | Cleanup | OtherStage

  datatype OpCode = NoError | FromTransaction(code: Code) | OpInterrupted | OpCancelled | OpOther(text: string)

  datatype Operation = Operation(
    id: string,
    kind: OpType,
    status: Status,
    stage: Stage,
    errorCode: OpCode,
    retryable: bool,
    transactionId: string,
    startedAt: Option<Time>,
    completedAt: Option<Time>,
    updatedAt: Time)

  predicate IsTerminal(s: Status) {
    s == Succeeded || s == OpFailed || s == Cancelled
  }

  /** What is read of a linked transaction. */
  datatype Linked = Linked(state: State, errorCode: Code)

  function StageFor(state: State): Stage {
    match state
    case Created => Preflight
    case Building => SourceDownload
    case Sealed => BootstrapMarker
    case Published => InstallPath
    case Activating => InstallPath
    case Committed => Cleanup
    case Failed => Preflight
  }

  predicate Owns(txn: Option<Linked>) {
    txn.Some? && (txn.value.state == State.Activating || txn.value.state == State.Committed)
  }

  // ---------------------------------------------------------------- the projection as a function

  /** The answer of a projection, and what it leaves stored. */
  datatype Projected = Projected(view: Operation, stored: Operation)

  /** A store answers each update it is asked for; it may refuse any of them. */
  datatype Answers = Answers(first: bool, second: bool)

  function Started(op: Operation, now: Time): Option<Time> {
    if op.startedAt.Some? then op.startedAt else Some(now)
  }

  function Completed(op: Operation, now: Time): Operation {
    op.(status := Succeeded, stage := Cleanup, errorCode := NoError, retryable := false,
        startedAt := Started(op, now), completedAt := Some(now), updatedAt := now)
  }

  function ProjectCommitted(op: Operation, now: Time, answers: Answers): Projected {
    if op.status == Succeeded && op.stage == Cleanup then Projected(op, op)
    else if op.status == Pending then
      var running := op.(stage := Cleanup, status := Running, startedAt := Some(now), updatedAt := now);
      if !answers.first then Projected(running.(status := Succeeded, completedAt := Some(now)), op)
      else Projected(Completed(running, now), if answers.second then Completed(running, now) else running)
    else Projected(Completed(op, now), if answers.first then Completed(op, now) else op)
  }

  function ProjectActivating(op: Operation, now: Time, answers: Answers): Projected {
    if op.status == Running && op.stage == InstallPath then Projected(op, op)
    else
      var next := op.(stage := InstallPath, status := Running, errorCode := NoError, retryable := false,
                      startedAt := Started(op, now), completedAt := None, updatedAt := now);
      Projected(next, if answers.first then next else op)
  }

  function ProjectOther(op: Operation, txn: Linked, now: Time, answers: Answers): Projected {
    var staged := op.(stage := StageFor(txn.state));
    if txn.state == State.Failed && !IsTerminal(op.status) then
      var next := staged.(status := OpFailed, retryable := true, completedAt := Some(now), updatedAt := now,
                          errorCode := if txn.errorCode == NoCode then op.errorCode
                                else FromTransaction(txn.errorCode));
      Projected(next, if answers.first then next else op)
    else if staged.stage != op.stage && !IsTerminal(op.status) then
      Projected(staged.(updatedAt := now), if answers.first then staged.(updatedAt := now) else op)
    else Projected(staged, op)
  }

  /** projectOperation. */
  function Project(op: Operation, txn: Option<Linked>, now: Time, answers: Answers): Projected {
    match txn
    case None => Projected(op, op)
    case Some(t) =>
      if t.state == State.Committed then ProjectCommitted(op, now, answers)
      else if t.state == State.Activating then ProjectActivating(op, now, answers)
      else ProjectOther(op, t, now, answers)
  }

  /** Whatever is stored and whichever updates the store refuses, the view follows an owning transaction. */
  lemma ViewFollowsTransaction(op: Operation, txn: Option<Linked>, now: Time, answers: Answers)
    ensures var view := Project(op, txn, now, answers).view;
            && view.id == op.id && view.kind == op.kind && view.transactionId == op.transactionId
            && (txn.Some? ==> view.stage == StageFor(txn.value.state))
            && (txn.Some? && txn.value.state == State.Committed ==> view.status == Succeeded && view.stage == Cleanup)
            && (txn.Some? && txn.value.state == State.Activating ==>
                  view.status == Running && view.stage == InstallPath)
            && (txn.Some? && txn.value.state == State.Failed ==> IsTerminal(view.status))
            && (!Owns(txn) && IsTerminal(op.status) ==> view.status == op.status)
  {
  }

  /**
   * The rest of the view: a completed install has no code, is not retryable and is dated; a running one is not
   * completed; a failed one is retryable and carries the transaction's code if it has one; otherwise only the stage
   * differs.
   */
  lemma ViewFields(op: Operation, txn: Option<Linked>, now: Time, answers: Answers)
    requires txn.Some?
    ensures var state, view := txn.value.state, Project(op, txn, now, answers).view;
            && (state == State.Committed && !(op.status == Succeeded && op.stage == Cleanup) ==>
                  view.completedAt == Some(now) && view.startedAt.Some? && view.updatedAt == now)
            && (state == State.Committed && op.status != Succeeded && (op.status != Pending || answers.first) ==>
                  view.errorCode == NoError && !view.retryable)
            && (state == State.Activating && !(op.status == Running && op.stage == InstallPath) ==>
                  && view.errorCode == NoError && !view.retryable && view.completedAt == None && view.startedAt.Some?
                  && view.updatedAt == now)
            && (state == State.Failed && !IsTerminal(op.status) ==>
                  && view.status == OpFailed && view.retryable && view.completedAt == Some(now)
                  && view.errorCode == (if txn.value.errorCode == NoCode then op.errorCode
                                        else FromTransaction(txn.value.errorCode)))
            && (!Owns(txn) && (state != State.Failed || IsTerminal(op.status)) ==>
                  view == op.(stage := view.stage, updatedAt := view.updatedAt))
            && (op.startedAt.Some? && op.status != Pending ==> view.startedAt == op.startedAt)
            && (state == Created || state == State.Failed ==> view.stage == Preflight)
            && (state == Building ==> view.stage == SourceDownload)
            && (state == Sealed ==> view.stage == BootstrapMarker)
            && (state == Published || state == State.Activating ==> view.stage == InstallPath)
  {
  }

  /**
   * What is stored is the view when every update is taken, except that a terminal unowned operation is not rewritten.
   */
  lemma StoredFollowsView(op: Operation, txn: Option<Linked>, now: Time, answers: Answers)
    ensures var p := Project(op, txn, now, answers);
            && (!answers.first ==> p.stored == op)
            && (answers.first && answers.second ==>
                  p.stored == if !Owns(txn) && IsTerminal(op.status) then op else p.view)
  {
  }

  /** Projecting a view again gives the same view, and asks the store for nothing. */
  lemma ProjectionIsIdempotent(op: Operation, txn: Option<Linked>, now: Time, answers: Answers, later: Time,
          others: Answers)
    ensures var view := Project(op, txn, now, answers).view;
            Project(view, txn, later, others) == Projected(view, view)
  {
  }

  /** An operation without its times. */
  function Timeless(op: Operation): Operation {
    op.(startedAt := None, completedAt := None, updatedAt := 1)
  }

  /** The store's refusal shows: a pending operation with an error code keeps it when its first update is refused. */
  predicate RefusalShows(op: Operation, txn: Option<Linked>, answers: Answers, others: Answers) {
    && txn.Some? && txn.value.state == State.Committed && op.status == Pending
          && (op.errorCode != NoError || op.retryable)
    && answers.first != others.first
  }

  /** Two reads of the same stored operation agree but for the times, except exactly when a refusal shows. */
  lemma ReadsAgree(op: Operation, txn: Option<Linked>, now: Time, answers: Answers, later: Time, others: Answers)
    ensures RefusalShows(op, txn, answers, others) <==>
              (Timeless(Project(op, txn, now, answers).view) != Timeless(Project(op, txn, later, others).view))
  {
    if txn.Some? {
      if txn.value.state == State.Committed {
        CommittedReadsAgree(op, now, answers);
        CommittedReadsAgree(op, later, others);
      } else if txn.value.state != State.Activating {
        OtherReadsAgree(op, txn.value, now, answers, later, others);
      }
    }
  }

  /**
   * A second read, of what the first one left stored, agrees but for the times, except exactly when the first read
   * showed a refusal and the second update is taken.
   */
  lemma SecondReadAgrees(op: Operation, txn: Option<Linked>, now: Time, answers: Answers, later: Time, others: Answers)
    ensures var first := Project(op, txn, now, answers);
            RefusalShows(op, txn, answers, others) && !answers.first <==>
            Timeless(first.view) != Timeless(Project(first.stored, txn, later, others).view)
  {
    if txn.Some? {
      if txn.value.state == State.Committed {
        var first := ProjectCommitted(op, now, answers);
        CommittedReadsAgree(op, now, answers);
        CommittedReadsAgree(first.stored, later, others);
      } else if txn.value.state != State.Activating {
        OtherReadsAgree(op, txn.value, now, answers, later, others);
      }
    }
  }

  lemma CommittedReadsAgree(op: Operation, now: Time, answers: Answers)
    ensures Timeless(ProjectCommitted(op, now, answers).view) ==
              if op.status == Succeeded && op.stage == Cleanup then Timeless(op)
              else if op.status == Pending && !answers.first then Timeless(op).(status := Succeeded, stage := Cleanup)
              else Timeless(op).(status := Succeeded, stage := Cleanup, errorCode := NoError, retryable := false)
  {
  }

  lemma OtherReadsAgree(op: Operation, txn: Linked, now: Time, answers: Answers, later: Time, others: Answers)
    ensures Timeless(ProjectOther(op, txn, now, answers).view) == Timeless(ProjectOther(op, txn, later, others).view)
  {
  }

  /** A projection stores FAILED or CANCELLED only from a FAILED transaction. */
  lemma ProjectionNeverFailsOwned(op: Operation, txn: Option<Linked>, now: Time, answers: Answers)
    requires Owns(txn)
    ensures var stored := Project(op, txn, now, answers).stored;
            (stored.status == OpFailed || stored.status == Cancelled) ==> stored == op
  {
  }

  // ---------------------------------------------------------------- what a restart fails

  function LinkIn(links: map<string, Linked>, op: Operation): Option<Linked> {
    if op.transactionId == "" || op.transactionId !in links then None else Some(links[op.transactionId])
  }

  /** Terminal, owned by its transaction, or not an operation a restart looks at. */
  predicate ResolvedIn(links: map<string, Linked>, op: Operation) {
    IsTerminal(op.status) || (op.kind == RuntimeInstall && Owns(LinkIn(links, op))) || op.kind == OtherType
  }

  function FailedAsInterrupted(op: Operation, now: Time): Operation {
    op.(status := OpFailed, errorCode := OpInterrupted, retryable := true, completedAt := Some(now), updatedAt := now)
  }

  /** The operation is as it was, or it is listed, was open, and is failed as interrupted. */
  predicate MaybeFailed(was: Operation, op: Operation, id: string, links: map<string, Linked>, listed: seq<string>,
                        now: Time)
  {
    op == was
    || (id in listed && !ResolvedIn(links, was)
        && op == was.(status := OpFailed, errorCode := OpInterrupted, retryable := true, completedAt := Some(now),
                      updatedAt := now))
  }

  /** Listed open operations are failed as interrupted, and reported; nothing else changes or is reported. */
  ghost predicate FailsOpen(was: map<string, Operation>, stored: map<string, Operation>, links: map<string, Linked>,
                            listed: seq<string>, now: Time, interrupted: seq<Operation>)
  {
    && stored.Keys == was.Keys
    && (forall id | id in was :: MaybeFailed(was[id], stored[id], id, links, listed, now))
    && (forall op :: op in interrupted ==> op.id in was && stored[op.id] == op && op != was[op.id])
    && (forall id | id in was :: stored[id] != was[id] ==> stored[id] in interrupted)
  }

  lemma FailsNothing(was: map<string, Operation>, links: map<string, Linked>, listed: seq<string>, now: Time)
    ensures FailsOpen(was, was, links, listed, now, [])
  {
  }

  lemma FailsOneMore(was: map<string, Operation>, stored: map<string, Operation>, links: map<string, Linked>,
                     listed: seq<string>, now: Time, interrupted: seq<Operation>, id: string)
    requires FailsOpen(was, stored, links, listed, now, interrupted)
    requires id in stored && id in listed && stored[id].id == id && !ResolvedIn(links, stored[id])
    ensures var next := FailedAsInterrupted(stored[id], now);
            FailsOpen(was, stored[id := next], links, listed, now, interrupted + [next])
  {
    var next := FailedAsInterrupted(stored[id], now);
    var stored', interrupted' := stored[id := next], interrupted + [next];
    assert stored[id] == was[id];
    assert next in interrupted';
    forall op | op in interrupted' ensures op.id in was && stored'[op.id] == op && op != was[op.id] {
      if op != next { assert op in interrupted; }
    }
    forall o | o in was ensures stored'[o] != was[o] ==> stored'[o] in interrupted' {
      if o != id { assert stored[o] != was[o] ==> stored[o] in interrupted; }
    }
  }

  /** What is reported is stored so, and was listed. */
  lemma ReportedIsFailed(was: map<string, Operation>, stored: map<string, Operation>, links: map<string, Linked>,
                         listed: seq<string>, now: Time, interrupted: seq<Operation>, op: Operation)
    requires FailsOpen(was, stored, links, listed, now, interrupted) && op in interrupted
    ensures op.id in listed && op.id in stored && stored[op.id] == op
    ensures op.status == OpFailed && op.errorCode == OpInterrupted
  {
    assert MaybeFailed(was[op.id], stored[op.id], op.id, links, listed, now);
  }

  // ---------------------------------------------------------------- the service

  /** How a worker that was told to stop ended while it was waited for. */
  datatype WorkerEnd = StillRuns | HasSucceeded | WasCancelled | WasFailed(code: OpCode, retryable: bool)

  datatype CancelAnswer = Answered(view: Operation) | NotCancellable | StoreRefused

  class InstallOperations {
    var stored: map<string, Operation>
    var transactions: map<string, Linked>

    constructor (stored: map<string, Operation>, transactions: map<string, Linked>)
      ensures this.stored == stored && this.transactions == transactions
    {
      this.stored, this.transactions := stored, transactions;
    }

    ghost predicate Valid()
      reads this
    {
      forall id :: id in stored ==> stored[id].id == id
    }

    function LinkedTo(op: Operation): Option<Linked>
      reads this
    {
      LinkIn(transactions, op)
    }

    /** persistUpdate: the store takes the new value, or refuses and keeps the old one. */
    method Update(next: Operation, accepts: bool) returns (ok: bool)
      modifies this`stored
      ensures ok == accepts
      ensures stored == if accepts then old(stored)[next.id := next] else old(stored)
    {
      if accepts {
        stored := stored[next.id := next];
      }
      ok := accepts;
    }

    /** projectOperation, update by update, as the function says. */
    method ProjectOperation(op: Operation, now: Time, answers: Answers) returns (view: Operation)
      requires Valid() && op.id in stored && stored[op.id] == op
      modifies this`stored
      ensures Valid()
      ensures var p := Project(op, LinkedTo(op), now, answers);
              view == p.view && stored == old(stored)[op.id := p.stored]
    {
      var txn := LinkedTo(op);
      if txn.None? {
        assert stored == stored[op.id := op];
        return op;
      }
      var state := txn.value.state;
      var next := op.(stage := StageFor(state));
      if state == State.Committed {
        view := ProjectToSucceeded(op, now, answers);
        return;
      }
      if state == State.Activating {
        if op.status == Running && next.stage == op.stage {
          assert stored == stored[op.id := op];
          return op;
        }
        next := next.(status := Running, errorCode := NoError, retryable := false, startedAt := Started(op, now),
                      completedAt := None, updatedAt := now);
        var ok := Update(next, answers.first);
        assert !ok ==> stored == stored[op.id := op];
        return next;
      }
      if state == State.Failed && !IsTerminal(op.status) {
        next := next.(status := OpFailed, retryable := true, completedAt := Some(now), updatedAt := now);
        if txn.value.errorCode != NoCode {
          next := next.(errorCode := FromTransaction(txn.value.errorCode));
        }
        var ok := Update(next, answers.first);
        assert !ok ==> stored == stored[op.id := op];
        return next;
      }
      if next.stage != op.stage && !IsTerminal(op.status) {
        next := next.(updatedAt := now);
        var ok := Update(next, answers.first);
        assert !ok ==> stored == stored[op.id := op];
        return next;
      }
      assert stored == stored[op.id := op];
      view := next;
    }

    method ProjectToSucceeded(op: Operation, now: Time, answers: Answers) returns (view: Operation)
      requires Valid() && op.id in stored && stored[op.id] == op
      modifies this`stored
      ensures Valid()
      ensures var p := ProjectCommitted(op, now, answers);
              view == p.view && stored == old(stored)[op.id := p.stored]
    {
      if op.status == Succeeded && op.stage == Cleanup {
        assert stored == stored[op.id := op];
        return op;
      }
      var current, second := op, answers.first;
      if op.status == Pending {
        var next := op.(stage := Cleanup, status := Running, startedAt := Some(now), updatedAt := now);
        var ok := Update(next, answers.first);
        if !ok {
          assert stored == stored[op.id := op];
          return next.(status := Succeeded, completedAt := Some(now));
        }
        current, second := next, answers.second;
      }
      view := current.(status := Succeeded, stage := Cleanup, errorCode := NoError, retryable := false,
            completedAt := Some(now), updatedAt := now);
      if view.startedAt.None? {
        view := view.(startedAt := Some(now));
      }
      var ok := Update(view, second);
      assert !second ==> stored == old(stored)[op.id := current];
      assert second ==> stored == old(stored)[op.id := view];
    }

    predicate FailedWhileOwned(op: Operation)
      reads this
    {
      op.kind == RuntimeInstall && Owns(LinkedTo(op)) && (op.status == OpFailed || op.status == Cancelled)
    }

    /** No fail or cancel path newly stores FAILED or CANCELLED for an install its transaction owns. */
    twostate predicate OwnedStayOwned()
      reads this
    {
      transactions == old(transactions) && NoOwnedNewlyFails()
    }

    twostate predicate NoOwnedNewlyFails()
      reads this
    {
      && stored.Keys == old(stored).Keys
      && forall id | id in stored && FailedWhileOwned(stored[id]) :: stored[id] == old(stored)[id]
    }

    /** The worker's fail path: an owned operation is projected, a terminal one left alone, any other stored FAILED. */
    method FailOperation(id: string, code: OpCode, retryable: bool, now: Time, answers: Answers)
      requires Valid() && id in stored
      modifies this`stored
      ensures Valid() && OwnedStayOwned()
      ensures var op := old(stored[id]);
              stored == old(stored)[id :=
                if Owns(LinkedTo(op)) then Project(op, LinkedTo(op), now, answers).stored
                else if IsTerminal(op.status) || !answers.first then op
                else op.(status := OpFailed, errorCode := code, retryable := retryable, completedAt := Some(now),
                         updatedAt := now)]
    {
      var latest := stored[id];
      if Owns(LinkedTo(latest)) {
        ProjectionNeverFailsOwned(latest, LinkedTo(latest), now, answers);
        var view := ProjectOperation(latest, now, answers);
        return;
      }
      if IsTerminal(latest.status) {
        assert stored == stored[id := latest];
        return;
      }
      var ok := Update(latest.(status := OpFailed, errorCode := code, retryable := retryable,
            completedAt := Some(now), updatedAt := now), answers.first);
      assert !ok ==> stored == stored[id := latest];
    }

    /** An operation neither terminal nor owned is stored CANCELLED, when the store takes it. */
    method StoreCancelled(id: string, now: Time, accepts: bool) returns (ok: bool)
      requires Valid() && id in stored && !Owns(LinkedTo(stored[id])) && !IsTerminal(stored[id].status)
      modifies this`stored
      ensures Valid() && OwnedStayOwned() && ok == accepts
      ensures stored == if !ok then old(stored) else
                old(stored)[id := old(stored[id]).(status := Cancelled, errorCode := OpCancelled, retryable := true,
                                                   completedAt := Some(now), updatedAt := now)]
    {
      var current := stored[id];
      ok := Update(current.(status := Cancelled, errorCode := OpCancelled, retryable := true,
                            completedAt := Some(now), updatedAt := now), accepts);
    }

    /**
     * The worker's end. Success is stored as SUCCEEDED at cleanup. After a failed Apply an owned operation is
     * projected; one that is neither owned nor terminal is stored FAILED with the code given, or CANCELLED with its
     * own; a terminal one is left alone.
     */
    method EndWorker(id: string, end: WorkerEnd, now: Time, answers: Answers)
      requires Valid() && id in stored
      modifies this`stored
      ensures Valid() && OwnedStayOwned()
      ensures forall o :: o in stored && o != id ==> stored[o] == old(stored)[o]
      ensures end.StillRuns? ==> stored[id] == old(stored[id])
      ensures end.HasSucceeded? ==>
                stored[id] == (
                  if old(IsTerminal(stored[id].status)) || !answers.first then old(stored[id])
                  else
                    old(stored[id]).(status := Succeeded, stage := Cleanup, completedAt := Some(now), updatedAt := now))
      ensures (end.WasFailed? || end.WasCancelled?) && old(Owns(LinkedTo(stored[id]))) ==>
                stored[id] == Project(old(stored[id]), old(LinkedTo(stored[id])), now, answers).stored
      ensures (end.WasFailed? || end.WasCancelled?) && old(!Owns(LinkedTo(stored[id]))) ==>
                stored[id] == (
                  if old(IsTerminal(stored[id].status)) || !answers.first then old(stored[id])
                  else if end.WasFailed? then
                    old(stored[id]).(status := OpFailed, errorCode := end.code, retryable := end.retryable,
                                     completedAt := Some(now), updatedAt := now)
                  else
                    old(stored[id]).(status := Cancelled, errorCode := OpCancelled, retryable := true,
                                     completedAt := Some(now), updatedAt := now))
    {
      match end
      case StillRuns =>
      case HasSucceeded =>
        var latest := stored[id];
        if !IsTerminal(latest.status) {
          var ok := Update(latest.(status := Succeeded, stage := Cleanup, completedAt := Some(now),
                updatedAt := now), answers.first);
        }
      case WasFailed(code, retryable) => FailOperation(id, code, retryable, now, answers);
      case WasCancelled =>
        var latest := stored[id];
        if Owns(LinkedTo(latest)) {
          ProjectionNeverFailsOwned(latest, LinkedTo(latest), now, answers);
          var view := ProjectOperation(latest, now, answers);
        } else if !IsTerminal(latest.status) {
          var ok := StoreCancelled(id, now, answers.first);
        }
    }

    /** Neither owned by its transaction nor terminal. */
    predicate Cancellable(id: string)
      requires id in stored
      reads this
    {
      !Owns(LinkedTo(stored[id])) && !IsTerminal(stored[id].status)
    }

    /**
     * Cancel. An owned operation is projected and a terminal one refused. With a worker, it is told to stop and waited
     * for, at most for a while, in which transactions move on to `after`; what it left stored is the answer, refused
     * when it ended otherwise than CANCELLED. Without one, CANCELLED is stored.
     */
    method CancelOperation(id: string, worker: Option<WorkerEnd>, after: map<string, Linked>, now: Time,
                           answers: Answers)
      returns (answer: CancelAnswer)
      requires Valid() && id in stored
      modifies this
      ensures Valid() && NoOwnedNewlyFails()
      ensures transactions == if old(Cancellable(id)) && worker.Some? then after else old(transactions)
      ensures old(Owns(LinkedTo(stored[id]))) ==>
                answer == Answered(Project(old(stored[id]), old(LinkedTo(stored[id])), now, answers).view)
      ensures old(!Cancellable(id) && !Owns(LinkedTo(stored[id]))) ==> answer == NotCancellable && stored == old(stored)
      ensures old(Cancellable(id)) && answer.Answered? ==> answer.view == stored[id]
      ensures old(Cancellable(id)) && answer.Answered? && IsTerminal(answer.view.status) ==>
                answer.view.status == Cancelled
      ensures old(Cancellable(id)) && worker.None? ==>
                if answers.first then
                  answer == Answered(old(stored[id]).(status := Cancelled, errorCode := OpCancelled, retryable := true,
                                                      completedAt := Some(now), updatedAt := now))
                else answer == StoreRefused
      ensures old(Cancellable(id)) && worker.Some? ==> answer != StoreRefused
      ensures old(Cancellable(id)) && worker == Some(StillRuns) ==> answer == Answered(old(stored[id]))
      ensures old(Cancellable(id)) && worker == Some(HasSucceeded) && answers.first ==> answer == NotCancellable
      ensures old(Cancellable(id)) && worker.Some? && answers.first && !Owns(LinkedTo(old(stored[id]))) ==>
                (worker.value.WasFailed? ==> answer == NotCancellable)
                && (worker.value.WasCancelled? ==> answer.Answered? && answer.view.status == Cancelled)
      ensures answer == StoreRefused ==> stored == old(stored)
      ensures forall o :: o in stored && o != id ==> stored[o] == old(stored)[o]
    {
      var current := stored[id];
      if Owns(LinkedTo(current)) {
        ProjectionNeverFailsOwned(current, LinkedTo(current), now, answers);
        var view := ProjectOperation(current, now, answers);
        return Answered(view);
      }
      if IsTerminal(current.status) {
        return NotCancellable;
      }
      if worker.Some? {
        transactions := after;
        EndWorker(id, worker.value, now, answers);
        var latest := stored[id];
        if latest.status != Cancelled && IsTerminal(latest.status) {
          return NotCancellable;
        }
        return Answered(latest);
      }
      var ok := StoreCancelled(id, now, answers.first);
      answer := if ok then Answered(stored[id]) else StoreRefused;
    }

    /** Terminal, owned by its transaction, or not an operation InterruptStale looks at. */
    predicate Resolved(op: Operation)
      reads this
    {
      ResolvedIn(transactions, op)
    }

    /**
     * InterruptStale over the listed operations: project every install, then fail what is neither terminal nor owned.
     * When no update is refused, every listed operation is terminal or owned; owned ones are never failed. An operation
     * that is not listed is left alone.
     */
    method InterruptStale(listed: seq<string>, now: Time, projections: nat -> Answers, accepts: nat -> bool)
      returns (interrupted: seq<Operation>, ok: bool)
      requires Valid() && forall k :: 0 <= k < |listed| ==> listed[k] in stored
      modifies this`stored
      ensures Valid() && OwnedStayOwned()
      ensures ok ==> forall k :: 0 <= k < |listed| ==> Resolved(stored[listed[k]])
      ensures (forall n :: accepts(n)) ==> ok
      ensures forall op :: op in interrupted ==> StoredFailed(op, listed)
      ensures forall id | id in stored && id !in listed :: stored[id] == old(stored)[id]
    {
      ProjectOpenInstalls(listed, now, projections);
      ghost var was := stored;
      interrupted, ok := FailUnowned(listed, now, accepts);
      forall op | op in interrupted ensures StoredFailed(op, listed) {
        ReportedIsFailed(was, stored, transactions, listed, now, interrupted, op);
      }
    }

    /** An install is stored as its projection; any other operation is as it was. */
    twostate predicate ProjectedOnce(id: string, now: Time, answers: Answers)
      requires id in old(stored) && id in stored
      reads this
    {
      stored[id] == if old(stored[id]).kind != RuntimeInstall then old(stored[id])
                    else Project(old(stored[id]), old(LinkedTo(stored[id])), now, answers).stored
    }

    /** Every listed operation is projected if it is an install; nothing else is touched. */
    method ProjectOpenInstalls(listed: seq<string>, now: Time, projections: nat -> Answers)
      requires Valid() && forall k :: 0 <= k < |listed| ==> listed[k] in stored
      modifies this`stored
      ensures Valid() && OwnedStayOwned()
      ensures forall id | id in stored && id !in listed :: stored[id] == old(stored)[id]
      ensures (forall j, k :: 0 <= j < k < |listed| ==> listed[j] != listed[k]) ==>
                forall k | 0 <= k < |listed| :: ProjectedOnce(listed[k], now, projections(k))
    {
      hide Project, Owns;
      ghost var once := forall j, k :: 0 <= j < k < |listed| ==> listed[j] != listed[k];
      for k := 0 to |listed|
        invariant Valid() && OwnedStayOwned()
        invariant forall id | id in stored && id !in listed :: stored[id] == old(stored)[id]
        invariant once ==> forall j | 0 <= j < k :: ProjectedOnce(listed[j], now, projections(j))
        invariant once ==> forall j | k <= j < |listed| :: stored[listed[j]] == old(stored)[listed[j]]
      {
        ProjectIfInstall(listed[k], now, projections(k));
      }
    }

    method ProjectIfInstall(id: string, now: Time, answers: Answers)
      requires Valid() && id in stored
      modifies this`stored
      ensures Valid() && OwnedStayOwned() && ProjectedOnce(id, now, answers)
      ensures forall o | o in stored && o != id :: stored[o] == old(stored)[o]
    {
      hide Project;
      var op := stored[id];
      if op.kind == RuntimeInstall {
        ProjectOwnedSafely(op, now, answers);
        var view := ProjectOperation(op, now, answers);
      }
    }

    /** What is neither terminal nor owned is failed as interrupted, in order, until an update is refused. */
    method FailUnowned(listed: seq<string>, now: Time, accepts: nat -> bool)
      returns (interrupted: seq<Operation>, ok: bool)
      requires Valid() && forall k :: 0 <= k < |listed| ==> listed[k] in stored
      modifies this`stored
      ensures Valid() && OwnedStayOwned()
      ensures ok ==> forall k :: 0 <= k < |listed| ==> Resolved(stored[listed[k]])
      ensures (forall n :: accepts(n)) ==> ok
      ensures FailsOpen(old(stored), stored, transactions, listed, now, interrupted)
    {
      hide Owns, FailsOpen;
      interrupted, ok := [], true;
      FailsNothing(stored, transactions, listed, now);
      for k := 0 to |listed|
        invariant Valid() && OwnedStayOwned()
        invariant forall j :: 0 <= j < k ==> Resolved(stored[listed[j]])
        invariant FailsOpen(old(stored), stored, transactions, listed, now, interrupted)
      {
        var current := stored[listed[k]];
        if !Resolved(current) {
          FailsOneMore(old(stored), stored, transactions, listed, now, interrupted, listed[k]);
          var next := FailedAsInterrupted(current, now);
          var done := Update(next, accepts(k));
          if !done {
            return interrupted, false;
          }
          interrupted := interrupted + [next];
        }
      }
    }

    /** A listed operation that is stored, with this value, as interrupted. */
    predicate StoredFailed(op: Operation, listed: seq<string>)
      reads this
    {
      && op.id in listed && op.id in stored && stored[op.id] == op
      && op.status == OpFailed && op.errorCode == OpInterrupted
    }

    lemma ProjectOwnedSafely(op: Operation, now: Time, answers: Answers)
      ensures var p := Project(op, LinkedTo(op), now, answers);
              && p.stored.id == op.id && p.stored.transactionId == op.transactionId && p.stored.kind == op.kind
              && (Owns(LinkedTo(op)) && (p.stored.status == OpFailed || p.stored.status == Cancelled) ==>
                    p.stored == op)
    {
    }
  }
}
