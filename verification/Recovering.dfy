/** Activation, environment reconciliation and recovery on a disk, each proved against its function. */
module Recovering {
  import opened InstallTypes
  import opened Environment
  import opened Decide
  import opened World
  import opened Collector
  import opened Recovery
  import opened Runs
  import opened Safety
  import opened Activation
  import opened Refinement
  import opened Convergence
  import opened Store
  import opened Collecting

  // ---------------------------------------------------------------- activation

  method MarkActivatingRecord(disk: Disk, t: Txn) returns (t': Txn, ok: bool)
    modifies disk`txns, disk`clock
    ensures TxnExec(disk.Snapshot(), t', ok) == MarkActivating(old(disk.Snapshot()), t)
  {
    if t.state == State.Activating && t.activatedAt.Some? {
      return t, true;
    }
    var now := disk.clock;
    var u := t.(state := State.Activating, updatedAt := now);
    if t.activatedAt.None? {
      u := u.(activatedAt := Some(now));
    }
    t', ok := disk.PersistTransaction(u);
  }

  /** The compare-and-swap on active.json, the read back and the stamp. */
  method SwingPointerTo(disk: Disk, t: Txn) returns (t': Txn, ok: bool)
    modifies disk`txns, disk`clock, disk`active, disk`history
    ensures TxnExec(disk.Snapshot(), t', ok) == Swing(old(disk.Snapshot()), t)
  {
    var pointer := disk.ReadActivePointer();
    if pointer.Invalid? {
      return t, false;
    }
    if PointerNames(pointer, t) {
      return t, true;
    }
    if !CasAllows(t, pointer) {
      return t, false;
    }
    var now := disk.clock;
    var written := disk.WriteActiveRecord(RecordFor(t, now));
    if !written {
      return t, false;
    }
    var got := disk.ReadActivePointer();
    var verified := disk.VerifyGeneration(t);
    if !PointerNames(got, t) || !verified {
      return t, false;
    }
    t', ok := t, true;
    if t.activatedAt.None? {
      t', ok := disk.PersistTransaction(t.(activatedAt := Some(now), updatedAt := now));
    }
  }

  method ActivateRecord(disk: Disk, t: Txn) returns (t': Txn, ok: bool)
    modifies disk`txns, disk`clock, disk`active, disk`history
    ensures TxnExec(disk.Snapshot(), t', ok) == ActivateTxn(old(disk.Snapshot()), t)
    ensures ok && old(Filed(disk.Snapshot())) && t in old(disk.txns) ==>
              if PointerNames(ReadActive(old(disk.Snapshot())), t) then disk.active == old(disk.active)
              else
                disk.active.ActiveFile? && WrittenBy(disk.active.record, t)
  {
    hide Swing, MarkActivating, ReadActive, TreeVerifies, Filed;
    if Filed(disk.Snapshot()) && t in disk.txns {
      ghost var i :| 0 <= i < |disk.txns| && disk.txns[i] == t;
      ActivateWritesFields(disk.Snapshot(), i);
    }
    if t.state != State.Published && t.state != State.Activating {
      return t, false;
    }
    var verified := disk.VerifyGeneration(t);
    if !verified {
      return t, false;
    }
    var pointer := disk.ReadActivePointer();
    if pointer.Invalid? {
      return t, false;
    }
    if PointerNames(pointer, t) {
      t', ok := MarkActivatingRecord(disk, t);
      return;
    }
    t' := t;
    if t.state == State.Published {
      t', ok := MarkActivatingRecord(disk, SnapshotBefore(t, pointer));
      if !ok {
        return;
      }
    }
    t', ok := SwingPointerTo(disk, t');
  }

  // ---------------------------------------------------------------- environment

  /** reconcileOnce: HERMES_HOME is written before PATH, and both are read back. */
  method ReconcileOnceOn(disk: Disk, r: ActiveRecord, allowStale: bool) returns (ok: bool)
    modifies disk`env
    ensures Exec(disk.Snapshot(), ok) == ReconcileOnce(disk.cfg, old(disk.Snapshot()), r, allowStale)
  {
    hide PolicyFromActive, PlanFor, Observed;
    var policy := disk.PolicyForActive(r, allowStale);
    if policy.None? {
      return false;
    }
    var seen := disk.cfg.backend.read(disk.env);
    if seen.None? {
      return false;
    }
    var plan := ComputeEnvironmentPlan(disk.cfg.norm, policy.value, seen.value);
    if plan.setHome {
      var written := disk.cfg.backend.writeHome(disk.env, plan.home);
      if written.None? {
        return false;
      }
      disk.env := written.value;
    }
    if plan.pathChanged {
      var written := disk.cfg.backend.writePath(disk.env, plan.path);
      if written.None? {
        return false;
      }
      disk.env := written.value;
    }
    var back := disk.cfg.backend.read(disk.env);
    ok := back.Some? && EnvComplete(Observed(disk.cfg.norm, plan, back.value));
  }

  method CommitObservedOn(disk: Disk, r: ActiveRecord) returns (complete: bool)
    ensures complete == CommitObserved(disk.cfg, disk.Snapshot(), r)
  {
    hide PolicyFromActive, PlanFor, Observed;
    var policy := disk.PolicyForActive(r, false);
    var seen := disk.cfg.backend.read(disk.env);
    if policy.None? || seen.None? {
      return false;
    }
    var plan := ComputeEnvironmentPlan(disk.cfg.norm, policy.value, seen.value);
    complete := EnvComplete(Observed(disk.cfg.norm, plan, seen.value));
  }

  /** The commit: observed complete, saved, old trees collected, stale PATH entries dropped. */
  method CommitRecordOn(disk: Disk, t: Txn, r: ActiveRecord) returns (ok: bool)
    modifies disk
    ensures Exec(disk.Snapshot(), ok) == CommitAndCollect(disk.cfg, old(disk.Snapshot()), t, r)
    ensures disk.run == old(disk.run) && disk.start == old(disk.start)
  {
    hide CommitObserved, Persist, Collect, ReconcileOnce;
    var complete := CommitObservedOn(disk, r);
    if !complete {
      return false;
    }
    var now := disk.clock;
    var t', saved := disk.PersistTransaction(t.(state := State.Committed, committedAt := Some(now), updatedAt := now));
    if !saved {
      return false;
    }
    var deleted, kept, collected := CollectTrees(disk, NoFault);
    var again := ReconcileOnceOn(disk, r, true);
    ok := true;
  }

  /** Manager.ReconcileEnvironment: the only way to COMMITTED from ACTIVATING outside the recovery decision. */
  method ReconcileEnvironmentOn(disk: Disk, id: string) returns (ok: bool)
    modifies disk
    ensures Exec(disk.Snapshot(), ok) == ReconcileEnvironment(disk.cfg, old(disk.Snapshot()), id)
    ensures disk.run == old(disk.run) && disk.start == old(disk.start)
  {
    hide CommitAndCollect, ReconcileOnce, HasCommitted;
    var loaded := disk.LoadTransaction(id);
    if loaded.None? {
      return false;
    }
    var t := loaded.value;
    if t.state != State.Activating && t.state != State.Committed {
      return false;
    }
    var active := disk.LoadActiveRecord();
    if active.None? {
      return false;
    }
    var r := active.value;
    if r.generationId != t.generationId && t.state == State.Activating {
      return false;
    }
    var committed := disk.HasCommittedRecord();
    var once := ReconcileOnceOn(disk, r, t.state == State.Committed || committed);
    if !once {
      return false;
    }
    if t.state == State.Activating {
      ok := CommitRecordOn(disk, t, r);
    } else {
      var again := ReconcileOnceOn(disk, r, true);
      ok := true;
    }
  }

  // ---------------------------------------------------------------- recovery actions

  method PersistTxnStateOn(disk: Disk, id: string, state: State, code: Code) returns (ok: bool)
    modifies disk`txns, disk`clock
    ensures Exec(disk.Snapshot(), ok) == PersistTxnState(old(disk.Snapshot()), id, state, code)
  {
    hide Save;
    var loaded := disk.LoadTransaction(id);
    if loaded.None? {
      return false;
    }
    var t := loaded.value;
    if t.state == state && t.errorCode == code {
      return true;
    }
    var now := disk.clock;
    t := t.(state := state, errorCode := code, updatedAt := now);
    if state == State.Activating && t.activatedAt.None? {
      t := t.(activatedAt := Some(now));
    }
    if state == State.Committed && t.committedAt.None? {
      t := t.(committedAt := Some(now));
    }
    ok := disk.SaveTransaction(t);
  }

  method PersistPrimaryOn(disk: Disk, obs: Observation, d: Decision) returns (ok: bool)
    modifies disk`txns, disk`clock
    ensures Exec(disk.Snapshot(), ok) == PersistPrimary(old(disk.Snapshot()), obs, d)
  {
    hide PersistTxnState;
    if d.next.None? {
      return true;
    }
    var primary := PrimaryView(obs.transactions, obs.active);
    if primary.None? {
      return true;
    }
    ok := PersistTxnStateOn(disk, primary.value.id, d.next.value, d.code);
  }

  method PersistActivatingOn(disk: Disk, obs: Observation) returns (ok: bool)
    modifies disk`txns, disk`clock
    ensures Exec(disk.Snapshot(), ok) == PersistActivatingPrimary(old(disk.Snapshot()), obs)
  {
    hide Save;
    var primary := PrimaryView(obs.transactions, obs.active);
    if primary.None? {
      return false;
    }
    var loaded := disk.LoadTransaction(primary.value.id);
    if loaded.None? || obs.active.Invalid? {
      return false;
    }
    var t := SnapshotBefore(loaded.value, obs.active);
    ok := disk.SaveTransaction(t.(state := State.Activating, updatedAt := disk.clock));
  }

  method FailFailableExtrasOn(disk: Disk, obs: Observation) returns (ok: bool)
    modifies disk`txns, disk`clock
    ensures Exec(disk.Snapshot(), ok) == FailExtras(old(disk.Snapshot()), obs.transactions, |obs.transactions|)
  {
    hide PersistTxnState;
    ghost var w := disk.Snapshot();
    ok := true;
    var i := 0;
    while i < |obs.transactions| && ok
      invariant 0 <= i <= |obs.transactions|
      invariant Exec(disk.Snapshot(), ok) == FailExtras(w, obs.transactions, i)
    {
      var view := obs.transactions[i];
      if view.View? && Failable(view.state) {
        ok := PersistTxnStateOn(disk, view.id, State.Failed, Interrupted);
      }
      i := i + 1;
    }
    FailedExtrasStop(w, obs.transactions, i, |obs.transactions|);
  }

  /** After the first error the remaining views change nothing. */
  lemma {:induction false} FailedExtrasStop(w: World, views: seq<View>, i: nat, n: nat)
    requires i <= n <= |views|
    ensures !FailExtras(w, views, i).ok ==> FailExtras(w, views, n) == FailExtras(w, views, i)
  {
    hide PersistTxnState;
    if i < n {
      FailedExtrasStop(w, views, i, n - 1);
    }
  }

  method RemoveEmptyStagingOn(disk: Disk, obs: Observation) returns (ok: bool)
    modifies disk`staging
    ensures Exec(disk.Snapshot(), ok) == RemoveEmptyStagingDir(old(disk.Snapshot()), obs)
  {
    var primary := PrimaryView(obs.transactions, obs.active);
    if primary.None? || primary.value.id !in disk.staging {
      return true;
    }
    if disk.staging[primary.value.id] != map[] {
      return false;
    }
    disk.staging := disk.staging - {primary.value.id};
    ok := true;
  }

  method RemoveEmptyGenerationOn(disk: Disk, obs: Observation) returns (ok: bool)
    modifies disk`generations
    ensures Exec(disk.Snapshot(), ok) == RemoveEmptyGenerationDir(old(disk.Snapshot()), obs)
  {
    var primary := PrimaryView(obs.transactions, obs.active);
    if primary.None? || primary.value.generationId !in disk.generations {
      return true;
    }
    if disk.generations[primary.value.generationId] != map[] {
      return false;
    }
    disk.generations := disk.generations - {primary.value.generationId};
    ok := true;
  }

  method MoveStagingToFailedOn(disk: Disk, obs: Observation) returns (ok: bool)
    modifies disk`staging, disk`failed
    ensures Exec(disk.Snapshot(), ok) == MoveStagingAside(old(disk.Snapshot()), obs)
  {
    var primary := PrimaryView(obs.transactions, obs.active);
    if primary.None? || primary.value.id !in disk.staging {
      return true;
    }
    var id := primary.value.id;
    if id in disk.failed {
      return false;
    }
    disk.staging, disk.failed := disk.staging - {id}, disk.failed[id := disk.staging[id]];
    ok := true;
  }

  method RemoveProvenStagingOn(disk: Disk, obs: Observation) returns (ok: bool)
    modifies disk`staging
    ensures Exec(disk.Snapshot(), ok) == RemoveProvenStaging(old(disk.Snapshot()), obs)
  {
    ok := true;
    var primary := PrimaryView(obs.transactions, obs.active);
    if primary.None? || !obs.staging.lineageMatch || !obs.generation.sealed {
      return;
    }
    disk.staging := disk.staging - {primary.value.id};
  }

  method ThenPersist(disk: Disk, cleared: bool, obs: Observation, d: Decision) returns (ok: bool)
    modifies disk`txns, disk`clock
    ensures Exec(disk.Snapshot(), ok) == Then(Exec(old(disk.Snapshot()), cleared), obs, d)
  {
    hide PersistPrimary;
    if !cleared {
      return false;
    }
    ok := PersistPrimaryOn(disk, obs, d);
  }

  method ActivatePrimaryOn(disk: Disk, obs: Observation) returns (ok: bool)
    modifies disk`txns, disk`clock, disk`active, disk`history
    ensures Exec(disk.Snapshot(), ok) ==
              Execute(disk.cfg, old(disk.Snapshot()), obs, Do(Reconciling, None, Action.Activate))
  {
    hide ActivateTxn;
    var primary := PrimaryView(obs.transactions, obs.active);
    if primary.None? {
      return false;
    }
    var loaded := disk.LoadTransaction(primary.value.id);
    if loaded.None? {
      return false;
    }
    var t', done := ActivateRecord(disk, loaded.value);
    ok := done;
  }

  method ReconcilePrimaryOn(disk: Disk, obs: Observation, d: Decision) returns (ok: bool)
    requires d.action == ReconcileEnv
    modifies disk
    ensures Exec(disk.Snapshot(), ok) == Execute(disk.cfg, old(disk.Snapshot()), obs, d)
    ensures disk.run == old(disk.run) && disk.start == old(disk.start)
  {
    hide PersistPrimary, ReconcileEnvironment;
    var marked := PersistPrimaryOn(disk, obs, d);
    if !marked {
      return false;
    }
    var primary := PrimaryView(obs.transactions, obs.active);
    if primary.None? {
      return false;
    }
    ok := ReconcileEnvironmentOn(disk, primary.value.id);
  }

  /** Execute: the one action a decision asks for. */
  method ExecuteAction(disk: Disk, obs: Observation, d: Decision) returns (ok: bool)
    modifies disk
    ensures Exec(disk.Snapshot(), ok) == Execute(disk.cfg, old(disk.Snapshot()), obs, d)
    ensures disk.run == old(disk.run) && disk.start == old(disk.start)
  {
    hide PersistPrimary, ReconcileEnvironment, ActivateTxn, FailExtras, PersistActivatingPrimary, Then,
      RemoveEmptyStagingDir, RemoveEmptyGenerationDir, MoveStagingAside, RemoveProvenStaging, PrimaryOf;
    ok := true;
    match d.action
    case NoAction => ok := PersistPrimaryOn(disk, obs, d);
    case RemoveEmptyStaging =>
      ok := RemoveEmptyStagingOn(disk, obs);
      ok := ThenPersist(disk, ok, obs, d);
    case RemoveEmptyGeneration =>
      ok := RemoveEmptyGenerationOn(disk, obs);
      ok := ThenPersist(disk, ok, obs, d);
    case MoveStagingToFailed =>
      ok := MoveStagingToFailedOn(disk, obs);
      ok := ThenPersist(disk, ok, obs, d);
    case GCStaging => ok := RemoveProvenStagingOn(disk, obs);
    case PersistPublished => ok := PersistPrimaryOn(disk, obs, d);
    case PersistActivating => ok := PersistActivatingOn(disk, obs);
    case Activate => ok := ActivatePrimaryOn(disk, obs);
    case FailFailableExtras => ok := FailFailableExtrasOn(disk, obs);
    case ReconcileEnv => ok := ReconcilePrimaryOn(disk, obs, d);
    case Commit => ok := PersistPrimaryOn(disk, obs, d.(next := Some(State.Committed)));
    case FailTransaction =>
    case DiagnoseRetain =>
    case BlockUnsafe =>
  }

  // ---------------------------------------------------------------- the recovery loop

  /** The gate installs are admitted by; it starts RECONCILING. */
  class GateHolder {
    var gate: Gate

    constructor ()
      ensures gate == Reconciling
    {
      gate := Reconciling;
    }
  }

  /**
   * RecoverWith under the lock: observe, decide, execute, at most eight times. The run ends as the recovery
   * function says, with the gate set to its verdict, and a reachable disk stays reachable.
   */
  method RecoverRoot(disk: Disk, holder: GateHolder) returns (d: Decision, stop: Stop, steps: nat)
    modifies disk, holder
    ensures Recovered(disk.Snapshot(), holder.gate, d, stop, steps) == RecoverWith(disk.cfg, old(disk.Snapshot()))
    ensures disk.start == old(disk.start) && (old(disk.Reachable()) ==> disk.Reachable() && old(disk.run) <= disk.run)
  {
    hide Observe, DecisionFor, Execute, Run, Initial;
    ghost var w := disk.Snapshot();
    ghost var reachable := disk.Reachable();
    holder.gate := Reconciling;
    d, stop, steps := LoopOn(disk, holder);
    if reachable {
      ghost var acts := RecoveryRun(disk.cfg, disk.start, disk.run, w, disk.Snapshot());
      disk.run := disk.run + acts;
    }
  }

  lemma RecoveryRun(cfg: Config, start: World, run: seq<Act>, w: World, w': World) returns (acts: seq<Act>)
    requires Initial(start) && Run(cfg, start, run, w) && w' == RecoverWith(cfg, w).world
    ensures Run(cfg, start, run + acts, w')
  {
    hide Run, Initial, RecoverySteps, Recover;
    InitialInv(start);
    RunKeeps(cfg, start, run, w);
    RecoveryTakesSteps(cfg, w, 0, NoDecision);
    acts :| RecoverySteps(cfg, w, acts, w');
    StepsAreRun(cfg, w, acts, w');
    RunsCompose(cfg, start, run, w, acts, w');
  }

  method LoopOn(disk: Disk, holder: GateHolder) returns (d: Decision, stop: Stop, steps: nat)
    modifies disk, holder
    ensures Recovered(disk.Snapshot(), holder.gate, d, stop, steps) == RecoverWith(disk.cfg, old(disk.Snapshot()))
    ensures disk.run == old(disk.run) && disk.start == old(disk.start)
  {
    hide Observe, DecisionFor, Execute, Collect, ForwardOrNoop;
    ghost var w := disk.Snapshot();
    var previous := NoDecision;
    for step := 0 to MAX_RECOVER_STEPS
      invariant RecoverWith(disk.cfg, w) == Recover(disk.cfg, disk.Snapshot(), step, previous)
      invariant disk.run == old(disk.run) && disk.start == old(disk.start)
    {
      steps := step + 1;
      var obs := disk.ObserveDisk();
      d := DecideRecovery(obs);
      if Blocks(d) {
        holder.gate := BlockedUnsafe;
        return d, Finished, steps;
      }
      if Rests(d) {
        holder.gate := d.gate;
        if holder.gate == Ready {
          var deleted, kept, ok := CollectTrees(disk, NoFault);
        }
        return d, Finished, steps;
      }
      if step > 0 && !ForwardOrNoop(previous, d) {
        holder.gate := BlockedUnsafe;
        return d, GuardTripped, steps;
      }
      var ok := ExecuteAction(disk, obs, d);
      if !ok {
        holder.gate := if d.action == ReconcileEnv then Reconciling else BlockedUnsafe;
        return d, ActionFailed, steps;
      }
      previous := d;
    }
    holder.gate := BlockedUnsafe;
    d, stop, steps := Blocked(), StepsExhausted, MAX_RECOVER_STEPS;
  }
}
