/** Reconciling the environment: what it leaves behind, and the exact point of commit. */
module Reconcile {
  import opened InstallTypes
  import opened Seal
  import opened Environment
  import opened World
  import opened Collector
  import opened Recovery
  import opened ObservedWorlds

  /** Only the environment differs. */
  predicate EnvOnly(w: World, w': World) {
    w' == w.(env := w'.env)
  }

  lemma OnceTouchesEnvOnly(cfg: Config, w: World, r: ActiveRecord, allowStale: bool)
    ensures EnvOnly(w, ReconcileOnce(cfg, w, r, allowStale).world)
  {
  }

  lemma OnceWorks(cfg: Config, w: World, r: ActiveRecord, allowStale: bool)
    requires Working(cfg) && PolicyFromActive(cfg, w, r, allowStale).Some?
    ensures var plan := PlanFor(cfg.norm, PolicyFromActive(cfg, w, r, allowStale).value, w.env);
            ReconcileOnce(cfg, w, r, allowStale) == Exec(w.(env := Apply(plan, w.env)), true)
  {
    var policy := PolicyFromActive(cfg, w, r, allowStale).value;
    var plan := PlanFor(cfg.norm, policy, w.env);
    AppliedPlanIsComplete(cfg.norm, policy, w.env);
    assert WritePath(cfg, WriteHome(cfg, w, plan).world, plan).world == w.(env := Apply(plan, w.env));
  }

  /** With a working backend one reconciliation makes the environment observably complete. */
  lemma OnceCompletes(cfg: Config, w: World, r: ActiveRecord, allowStale: bool)
    requires Working(cfg) && LoadActive(w) == Some(r) && PolicyFromActive(cfg, w, r, allowStale).Some?
    ensures EnvComplete(ObserveEnvironment(cfg, ReconcileOnce(cfg, w, r, allowStale).world))
    ensures CommitObserved(cfg, ReconcileOnce(cfg, w, r, allowStale).world, r)
  {
    OnceWorks(cfg, w, r, allowStale);
    AppliedPlanIsComplete(cfg.norm, PolicyFromActive(cfg, w, r, allowStale).value, w.env);
  }

  /** What a commit observed: the values read, home and PATH, are the ones the active generation asks for. */
  lemma CommitSawValues(cfg: Config, w: World, r: ActiveRecord)
    requires CommitObserved(cfg, w, r)
    ensures var seen := cfg.backend.read(w.env); seen.Some? && EnvReady(cfg, seen.value, r.generationId)
    ensures r.generationId in w.generations
    ensures VerifySealedTree(w.generations[r.generationId], r.generationId, r.manifestSha, r.sealSha)
  {
    hide PlannedPath, PathChanges;
    assert |BinOf(cfg, r.generationId)| > 0;
  }

  lemma PersistReplaces(w: World, i: nat, t: Txn)
    requires i < |w.txns| && Filed(w)
    requires t.id == w.txns[i].id && t.revision == w.txns[i].revision && ValidTransaction(t)
    ensures Persist(w, t) == TxnExec(Replace(w, i, t), t.(revision := t.revision + 1), true)
  {
    SaveReplaces(w, i, t);
    IndexFinds(w, i);
    var w' := Replace(w, i, t);
    assert IndexOf(w'.txns, t.id) == i by {
      var k := IndexOf(w'.txns, t.id);
      assert k >= 0 by { assert w'.txns[i].id == t.id; }
      assert w.txns[k].id == t.id;
    }
  }

  ghost function FirstPass(cfg: Config, w: World, r: ActiveRecord): Exec {
    ReconcileOnce(cfg, w, r, HasCommitted(w))
  }

  ghost function CommitWorld(w: World, i: nat): World
    requires i < |w.txns|
  {
    Replace(w, i, CommittedRecord(w.txns[i], w.clock))
  }

  lemma CommitStep(cfg: Config, w: World, i: nat, r: ActiveRecord)
    requires Distinct(w) && i < |w.txns|
    ensures CommitAndCollect(cfg, w, w.txns[i], r) ==
            if !CommitObserved(cfg, w, r) then Exec(w, false)
            else Exec(ReconcileOnce(cfg, Collect(CommitWorld(w, i)), r, true).world, true)
  {
    IndexFinds(w, i);
    PersistReplaces(w, i, CommittedRecord(w.txns[i], w.clock));
  }

  lemma ActivatingReconciles(cfg: Config, w: World, i: nat, r: ActiveRecord)
    requires Distinct(w) && i < |w.txns| && w.txns[i].state == State.Activating
    requires LoadActive(w) == Some(r) && r.generationId == w.txns[i].generationId
    ensures var once := FirstPass(cfg, w, r);
            ReconcileEnvironment(cfg, w, w.txns[i].id) ==
              if !once.ok then once else CommitAndCollect(cfg, once.world, once.world.txns[i], r)
    ensures EnvOnly(w, FirstPass(cfg, w, r).world) && Distinct(FirstPass(cfg, w, r).world)
  {
    IndexFinds(w, i);
    OnceTouchesEnvOnly(cfg, w, r, HasCommitted(w));
  }

  lemma ActivatingRefuses(cfg: Config, w: World, i: nat)
    requires Distinct(w) && i < |w.txns| && w.txns[i].state == State.Activating
    requires LoadActive(w).None? || LoadActive(w).value.generationId != w.txns[i].generationId
    ensures ReconcileEnvironment(cfg, w, w.txns[i].id) == Exec(w, false)
  {
    IndexFinds(w, i);
  }

  /**
   * The commit point, for any backend: a reconciliation that reports success on an ACTIVATING record saw
   * active.json name its generation, the tree verify and both values in place, and only then saved COMMITTED.
   */
  lemma CommitPoint(cfg: Config, w: World, i: nat)
    requires Distinct(w) && i < |w.txns| && w.txns[i].state == State.Activating
    requires ReconcileEnvironment(cfg, w, w.txns[i].id).ok
    ensures LoadActive(w).Some? && LoadActive(w).value.generationId == w.txns[i].generationId
    ensures var seen := FirstPass(cfg, w, LoadActive(w).value).world;
            && EnvOnly(w, seen)
            && CommitObserved(cfg, seen, LoadActive(w).value)
            && cfg.backend.read(seen.env).Some?
            && EnvReady(cfg, cfg.backend.read(seen.env).value, w.txns[i].generationId)
            && EnvOnly(Collect(CommitWorld(seen, i)), ReconcileEnvironment(cfg, w, w.txns[i].id).world)
  {
    if LoadActive(w).None? || LoadActive(w).value.generationId != w.txns[i].generationId {
      ActivatingRefuses(cfg, w, i);
    }
    var r := LoadActive(w).value;
    ActivatingReconciles(cfg, w, i, r);
    var seen := FirstPass(cfg, w, r).world;
    CommitStep(cfg, seen, i, r);
    CommitSawValues(cfg, seen, r);
    OnceTouchesEnvOnly(cfg, Collect(CommitWorld(seen, i)), r, true);
  }

  /** When the environment fails, nothing but the environment changed: still ACTIVATING, pointer unmoved. */
  lemma EnvironmentFailureKeepsActivating(cfg: Config, w: World, i: nat)
    requires Distinct(w) && i < |w.txns| && w.txns[i].state == State.Activating
    requires !ReconcileEnvironment(cfg, w, w.txns[i].id).ok
    ensures EnvOnly(w, ReconcileEnvironment(cfg, w, w.txns[i].id).world)
  {
    if LoadActive(w).None? || LoadActive(w).value.generationId != w.txns[i].generationId {
      ActivatingRefuses(cfg, w, i);
    } else {
      ActivatingReconciles(cfg, w, i, LoadActive(w).value);
      CommitStep(cfg, FirstPass(cfg, w, LoadActive(w).value).world, i, LoadActive(w).value);
    }
  }

  // ---------------------------------------------------------------- after a successful reconciliation

  /** The world a successful reconciliation of the named record leaves. */
  ghost predicate Reconciled(cfg: Config, w: World, i: nat, w': World)
    requires i < |w.txns|
  {
    && |w'.txns| == |w.txns| && w'.malformed == w.malformed
    && (forall j :: 0 <= j < |w.txns| && j != i ==> w'.txns[j] == w.txns[j])
    && w'.txns[i] == w.txns[i].(state := State.Committed, revision := w'.txns[i].revision,
         committedAt := w'.txns[i].committedAt, updatedAt := w'.txns[i].updatedAt)
    && ReadActive(w') == ReadActive(w)
    && TreeOf(w'.generations, w.txns[i].generationId) == TreeOf(w.generations, w.txns[i].generationId)
    && (TreeOf(w'.staging, w.txns[i].id) == TreeOf(w.staging, w.txns[i].id) || TreeOf(w'.staging, w.txns[i].id).None?)
    && EnvComplete(ObserveEnvironment(cfg, w'))
  }

  lemma CollectKeepsNamed(w: World, i: nat)
    requires i < |w.txns| && NamedTxn(w, i)
    ensures var w' := Collect(w); var t := w.txns[i];
            && w'.txns == w.txns && w'.active == w.active && w'.malformed == w.malformed && w'.env == w.env
            && ReadActive(w') == ReadActive(w)
            && TreeOf(w'.generations, t.generationId) == TreeOf(w.generations, t.generationId)
            && (TreeOf(w'.staging, t.id) == TreeOf(w.staging, t.id) || TreeOf(w'.staging, t.id).None?)
  {
    var c, h := LatestCommitted(w.txns, ActiveGen(w), |w.txns|), LatestHit(w, |w.txns|);
    CollectKeepsPointer(w, c, h);
    CollectedPlaces(w, c, h, GenerationAt(w.txns[i].generationId));
    CollectedPlaces(w, c, h, StagingAt(w.txns[i].id));
  }

  lemma PolicyStays(cfg: Config, w: World, w': World, r: ActiveRecord, a: bool, b: bool)
    requires TreeOf(w'.generations, r.generationId) == TreeOf(w.generations, r.generationId)
    ensures PolicyFromActive(cfg, w, r, a).Some? <==> PolicyFromActive(cfg, w', r, b).Some?
  {
  }

  lemma CommittedReconciles(cfg: Config, w: World, i: nat)
    requires Working(cfg) && Distinct(w) && i < |w.txns| && NamedTxn(w, i) && w.txns[i].state == State.Committed
    requires ReconcileEnvironment(cfg, w, w.txns[i].id).ok
    ensures Reconciled(cfg, w, i, ReconcileEnvironment(cfg, w, w.txns[i].id).world)
  {
    IndexFinds(w, i);
    var r := LoadActive(w).value;
    var once := ReconcileOnce(cfg, w, r, true);
    OnceTouchesEnvOnly(cfg, w, r, true);
    PolicyStays(cfg, w, once.world, r, true, true);
    OnceTouchesEnvOnly(cfg, once.world, r, true);
    OnceCompletes(cfg, once.world, r, true);
  }

  /**
   * Reconciling any COMMITTED record, the active one or not, reconciles the environment to the generation active.json
   * names.
   */
  lemma CommittedReconcilesActive(cfg: Config, w: World, i: nat)
    requires Working(cfg) && Filed(w) && i < |w.txns| && w.txns[i].state == State.Committed
    ensures var e := ReconcileEnvironment(cfg, w, w.txns[i].id);
            && (e.ok <==> LoadActive(w).Some? && PolicyFromActive(cfg, w, LoadActive(w).value, true).Some?)
            && EnvOnly(w, e.world)
            && (e.ok ==> EnvReady(cfg, e.world.env, LoadActive(w).value.generationId))
  {
    hide Filed, PolicyFromActive, Working, ReconcileOnce, CommitObserved;
    IndexFinds(w, i);
    if LoadActive(w).Some? {
      var r := LoadActive(w).value;
      OnceTouchesEnvOnly(cfg, w, r, true);
      var once := ReconcileOnce(cfg, w, r, true);
      OnceTouchesEnvOnly(cfg, once.world, r, true);
      if PolicyFromActive(cfg, w, r, true).Some? {
        PolicyStays(cfg, w, once.world, r, true, true);
        OnceWorks(cfg, w, r, true);
        OnceCompletes(cfg, once.world, r, true);
        CommitSawValues(cfg, ReconcileOnce(cfg, once.world, r, true).world, r);
        WorkingReads(cfg, ReconcileOnce(cfg, once.world, r, true).world.env);
      } else {
        OnceNeedsPolicy(cfg, w, r, true);
      }
    }
  }

  lemma OnceNeedsPolicy(cfg: Config, w: World, r: ActiveRecord, allowStale: bool)
    requires PolicyFromActive(cfg, w, r, allowStale).None?
    ensures ReconcileOnce(cfg, w, r, allowStale) == Exec(w, false)
  {
  }

  lemma WorkingReads(cfg: Config, env: Env)
    requires Working(cfg)
    ensures cfg.backend.read(env) == Some(env)
  {
  }

  lemma CollectedEnvironmentCompletes(cfg: Config, w: World, i: nat, r: ActiveRecord)
    requires Working(cfg) && i < |w.txns| && NamedTxn(w, i) && LoadActive(w) == Some(r)
    requires PolicyFromActive(cfg, w, r, false).Some?
    ensures var w' := ReconcileOnce(cfg, Collect(w), r, true).world;
            EnvOnly(Collect(w), w') && EnvComplete(ObserveEnvironment(cfg, w'))
  {
    CollectKeepsNamed(w, i);
    PolicyStays(cfg, w, Collect(w), r, false, true);
    OnceTouchesEnvOnly(cfg, Collect(w), r, true);
    OnceCompletes(cfg, Collect(w), r, true);
  }

  lemma CommitIsReconciled(cfg: Config, w: World, i: nat, r: ActiveRecord)
    requires Working(cfg) && i < |w.txns| && NamedTxn(w, i) && LoadActive(w) == Some(r)
    requires PolicyFromActive(cfg, w, r, false).Some?
    ensures Reconciled(cfg, w, i, ReconcileOnce(cfg, Collect(CommitWorld(w, i)), r, true).world)
  {
    var done := CommitWorld(w, i);
    assert ReadActive(done) == ReadActive(w);
    PolicyStays(cfg, w, done, r, false, false);
    CollectKeepsNamed(done, i);
    CollectedEnvironmentCompletes(cfg, done, i, r);
  }

  lemma ActivatingIsReconciled(cfg: Config, w: World, i: nat)
    requires Working(cfg) && Distinct(w) && i < |w.txns| && NamedTxn(w, i) && w.txns[i].state == State.Activating
    requires ReconcileEnvironment(cfg, w, w.txns[i].id).ok
    ensures Reconciled(cfg, w, i, ReconcileEnvironment(cfg, w, w.txns[i].id).world)
  {
    hide Distinct, Reconciled, CommitObserved, CommitAndCollect, CommitWorld, Collect, ReconcileOnce, HasCommitted,
      ReconcileEnvironment;
    CommitPoint(cfg, w, i);
    var r := LoadActive(w).value;
    ActivatingReconciles(cfg, w, i, r);
    var seen := FirstPass(cfg, w, r).world;
    CommitStep(cfg, seen, i, r);
    CommitIsReconciled(cfg, seen, i, r);
    ReconciledFromSeen(cfg, w, seen, i, ReconcileEnvironment(cfg, w, w.txns[i].id).world);
  }

  lemma ReconciledFromSeen(cfg: Config, w: World, seen: World, i: nat, w': World)
    requires i < |w.txns| && EnvOnly(w, seen) && Reconciled(cfg, seen, i, w')
    ensures Reconciled(cfg, w, i, w')
  {
  }
}
