/** The gate a recovery leaves, and what it says about the disk, whatever the environment backend does. */
module Gates {
  import opened InstallTypes
  import opened Environment
  import opened Decide
  import opened World
  import opened Collector
  import opened Recovery
  import opened ObservedWorlds
  import opened Reconcile
  import opened Runs
  import opened Safety
  import opened Refinement
  import opened Convergence
  import opened Losses

  // ---------------------------------------------------------------- the verdict of any run

  lemma RestingIsReady(obs: Observation)
    ensures var d := DecisionFor(obs); !Blocks(d) && Rests(d) ==> d.gate == Ready
  {
  }

  /**
   * On any disk, reachable or not, and with any environment: a run ends READY exactly when it came to rest, RECONCILING
   * exactly when it was the reconciliation of the environment that failed, and BLOCKED_UNSAFE in every other case: a
   * decision that blocks, any other action that fails, a tripped guard, or the last iteration used up.
   */
  lemma {:induction false} GateVerdict(cfg: Config, w: World, step: nat, prev: Decision)
    requires step <= MAX_RECOVER_STEPS
    ensures var r := Recover(cfg, w, step, prev);
            && (r.gate == Ready <==> r.stop == Finished && !Blocks(r.decision))
            && (r.gate == Reconciling <==> r.stop == ActionFailed && r.decision.action == ReconcileEnv)
            && r.steps <= 8 && (r.stop == StepsExhausted ==> r.steps == 8)
    decreases MAX_RECOVER_STEPS - step
  {
    hide Observe, DecisionFor, Execute, Collect, ForwardOrNoop;
    if step < MAX_RECOVER_STEPS {
      var obs := Observe(cfg, w);
      var d := DecisionFor(obs);
      RestingIsReady(obs);
      if !Blocks(d) && !Rests(d) && Execute(cfg, w, obs, d).ok {
        GateVerdict(cfg, Execute(cfg, w, obs, d).world, step + 1, d);
      }
    }
  }

  // ---------------------------------------------------------------- reachable disks

  lemma FailureTouchesEnvOnly(cfg: Config, w: World, i: nat, w': World)
    requires Inv(w) && ReconcileFails(cfg, w, i, w')
    ensures EnvOnly(w, w') && (w.txns[i].state == State.Activating || w.txns[i].state == State.Committed)
  {
    hide Inv, ReadActive, ReconcileOnce, CommitAndCollect, HasCommitted, TreeVerifies;
    InvSingle(w);
    TipRecord(w, i);
    IndexFinds(w, i);
    if w.txns[i].state == State.Activating {
      EnvironmentFailureKeepsActivating(cfg, w, i);
    } else {
      OnceTouchesEnvOnly(cfg, w, w.active.record, true);
    }
  }

  lemma SameButEnv(w: World, w': World)
    requires EnvOnly(w, w')
    ensures ReadActive(w') == ReadActive(w) && w'.txns == w.txns
  {
  }

  /** active.json names an ACTIVATING or COMMITTED record. */
  ghost predicate NamesLive(w: World) {
    exists i: nat :: i < |w.txns| && ReadActive(w) == PointerTo(w.txns[i])
                     && (w.txns[i].state == State.Activating || w.txns[i].state == State.Committed)
  }

  lemma StuckIsActive(cfg: Config, w: World, r: Recovered)
    requires Inv(w) && Stuck(cfg, w, r)
    ensures Inv(r.world) && NamesLive(r.world) && Predict(r.world) == Predict(w)
  {
    hide Inv, Recovers, ReconcileFails, Predict, ReadActive;
    var v, i: nat :| Recovers(cfg, w, v) && ReconcileFails(cfg, v, i, r.world);
    RecoversKeeps(cfg, w, v);
    RecoversPredict(cfg, w, v);
    FailureTouchesEnvOnly(cfg, v, i, r.world);
    SameButEnv(v, r.world);
    FailedOn(cfg, v, i, r.world);
    EnvironmentRuns(cfg, v, r.world.env);
    RecoversKeeps(cfg, v, r.world);
    RecoversPredict(cfg, v, r.world);
  }

  lemma FailedOn(cfg: Config, w: World, i: nat, w': World)
    requires ReconcileFails(cfg, w, i, w')
    ensures i < |w.txns| && ReadActive(w) == PointerTo(w.txns[i])
  {
  }

  /**
   * Recovery with any environment, from any disk that any processes and any cut recoveries left. When it stops by
   * itself it ends as predicted from the first cut, unless the gate is RECONCILING; then active.json names an
   * ACTIVATING or COMMITTED record, and a later recovery with a working environment still ends as predicted.
   */
  lemma AnyEnvironmentEnds(cfg: Config, w0: World, past: seq<Session>, w: World, cut: seq<Session>, w1: World)
    requires Initial(w0) && Sessions(w0, past, w) && CutRecoveries(w, cut, w1)
    ensures var r := RecoverWith(cfg, w1);
            && (r.gate == Ready ==> Ended(r) == Predict(w) && AtRest(cfg, r.world))
            && (r.gate == Reconciling ==>
                  && NamesLive(r.world)
                  && forall later :: Working(later) ==> Ended(RecoverWith(later, r.world)) == Predict(w))
            && (r.gate == BlockedUnsafe && (r.stop == Finished || r.stop == ActionFailed) ==> Ended(r) == Predict(w))
  {
    hide Inv, Working, Sessions, CutRecoveries, Recovers, Predict, Initial, Still, Ended, AtRest, Stuck, Recover,
      NamesLive;
    InitialInv(w0);
    SessionsKeep(w0, past, w);
    CutRecoveriesKeepPrediction(w, cut, w1);
    GateVerdict(cfg, w1, 0, NoDecision);
    var r := RecoverWith(cfg, w1);
    if r.stop == Finished || r.stop == ActionFailed {
      LoopEnds(cfg, w1, 0, NoDecision);
      if r.gate == Reconciling {
        StuckIsActive(cfg, w1, r);
        forall later | Working(later) ensures Ended(RecoverWith(later, r.world)) == Predict(w) {
          InvEnds(later, r.world);
        }
      }
    }
  }

  // ---------------------------------------------------------------- a backend that refuses the write that is needed

  /** Record i is named by active.json and no other record is under way. */
  ghost predicate NamedAlone(w: World, i: nat) {
    && i < |w.txns| && ReadActive(w) == PointerTo(w.txns[i])
    && forall j :: 0 <= j < |w.txns| && j != i ==> Terminal(w.txns[j].state)
  }

  /** HERMES_HOME cannot be written; or it is in place or can be, and then PATH, which is not ready, cannot be. */
  ghost predicate Refuses(cfg: Config, env: Env, generationId: string, left: Env) {
    if !HomeReady(cfg, env) && cfg.backend.writeHome(env, cfg.root).None? then left == env
    else
      && left == (if HomeReady(cfg, env) then env else cfg.backend.writeHome(env, cfg.root).value)
      && !Leads(cfg.norm, env.path, BinOf(cfg, generationId))
      && forall path :: cfg.backend.writePath(left, path).None?
  }

  lemma UnreadyPathChanges(norm: Spelling, policy: Policy, path: seq<string>)
    requires policy.desiredBin != "" && !Leads(norm, path, policy.desiredBin)
    ensures PathChanges(norm, policy, path)
  {
    KeepAll(path, NotStale(norm, policy));
  }

  lemma OnceRefused(cfg: Config, w: World, r: ActiveRecord, allowStale: bool, left: Env)
    requires PolicyFromActive(cfg, w, r, allowStale).Some? && cfg.backend.read(w.env) == Some(w.env)
    requires Refuses(cfg, w.env, r.generationId, left)
    ensures ReconcileOnce(cfg, w, r, allowStale) == Exec(w.(env := left), false)
  {
    hide PathChanges, PlannedPath, SamePath, Leads;
    var policy := PolicyFromActive(cfg, w, r, allowStale).value;
    PolicyAsks(cfg, w, r, allowStale);
    if !Leads(cfg.norm, w.env.path, policy.desiredBin) { UnreadyPathChanges(cfg.norm, policy, w.env.path); }
    assert w.(env := w.env) == w;
  }

  lemma RefusedIsUnready(cfg: Config, env: Env, generationId: string, left: Env)
    requires Refuses(cfg, env, generationId, left)
    ensures !EnvReady(cfg, env, generationId)
  {
  }

  lemma RefusedReconcile(cfg: Config, w: World, i: nat, left: Env)
    requires Inv(w) && NamedAlone(w, i) && cfg.backend.read(w.env) == Some(w.env)
    requires Refuses(cfg, w.env, w.txns[i].generationId, left)
    ensures ReconcileEnvironment(cfg, w, w.txns[i].id) == Exec(w.(env := left), false)
  {
    hide Inv, ReadActive, ReconcileOnce, CommitAndCollect, HasCommitted, TreeVerifies, Refuses, PolicyFromActive;
    InvSingle(w);
    TipRecord(w, i);
    IndexFinds(w, i);
    var stale := w.txns[i].state == State.Committed || HasCommitted(w);
    PolicyExists(cfg, w, i, stale);
    OnceRefused(cfg, w, w.active.record, stale, left);
  }

  /** On such a disk the loop reconciles at once. */
  lemma NamedAloneReconciles(cfg: Config, w: World, i: nat, obs: Observation, d: Decision)
    requires Inv(w) && NamedAlone(w, i) && !EnvComplete(ObserveEnvironment(cfg, w)) && DecidedAs(cfg, w, obs, d)
    ensures !Blocks(d) && !Rests(d) && d.action == ReconcileEnv
    ensures Execute(cfg, w, obs, d) == ReconcileEnvironment(cfg, w, w.txns[i].id)
  {
    hide Inv, DecidedAs, ReadActive, Execute, ReconcileEnvironment, ObserveEnvironment, Recovers, Blocks, Rests,
      TreeVerifies;
    TipRecord(w, i);
    if w.txns[i].state == State.Activating {
      assert SoleTxn(w, i);
      ActivatingTurn(cfg, w, i, obs, d);
    } else {
      assert !HasNonterminal(w);
      NamedTurn(cfg, w, i, obs, d);
    }
  }

  /**
   * A write that is refused: where active.json names an ACTIVATING or COMMITTED record, HERMES_HOME or PATH is not in
   * place and the backend reads but refuses the write that is needed, recovery ends RECONCILING after one iteration,
   * and at most HERMES_HOME has changed: every record, tree and the pointer are as they were.
   */
  lemma RefusedWriteEndsReconciling(cfg: Config, w: World, i: nat, left: Env)
    requires Inv(w) && NamedAlone(w, i) && cfg.backend.read(w.env) == Some(w.env)
    requires Refuses(cfg, w.env, w.txns[i].generationId, left)
    ensures var r := RecoverWith(cfg, w);
            r.gate == Reconciling && r.stop == ActionFailed && r.steps == 1 && r.world == w.(env := left)
  {
    hide Inv, Observe, DecisionFor, Execute, ReadActive, ReconcileEnvironment, Refuses, NamedAlone, ObserveEnvironment,
      EnvReady;
    NamedIndex(w, i);
    RefusedIsUnready(cfg, w.env, w.txns[i].generationId, left);
    ReadyIsComplete(cfg, w, i);
    RefusedReconcile(cfg, w, i, left);
    var obs := Observe(cfg, w);
    var d := DecisionFor(obs);
    assert DecidedAs(cfg, w, obs, d);
    NamedAloneReconciles(cfg, w, i, obs, d);
  }

  lemma NamedIndex(w: World, i: nat)
    requires NamedAlone(w, i)
    ensures i < |w.txns| && ReadActive(w) == PointerTo(w.txns[i])
  {
  }
}
