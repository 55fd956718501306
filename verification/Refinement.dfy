/** Recovery and collection take only steps of the protocol, whatever the environment backend does. */
module Refinement {
  import opened InstallTypes
  import opened Seal
  import opened Environment
  import opened Decide
  import opened World
  import opened Collector
  import opened Recovery
  import opened ObservedWorlds
  import opened Reconcile
  import opened Runs
  import opened Safety

  /** The steps a recovery may take: a crash inside a recovery leaves a disk reached by some of them. */
  ghost predicate RecoveryAct(cfg: Config, w: World, act: Act) {
    && Enabled(cfg, w, act)
    && match act
       case CreateRecord(_) => false
       case BeginBuild(_) => false
       case SealRecord(_, _, _) => false
       case WriteTree(i, found) => found.None? && GenTree(w, w.txns[i]) == Some(map[])
       case FailRecord(i, code) => Forgotten(w.txns[i], GenTree(w, w.txns[i])) && code == FailCode(w.txns[i].state)
       case MarkActive(_, stamp) => !stamp && ReadActive(w).Missing?
       case _ => true
  }

  /** An install that never began to build fails without a code. */
  function FailCode(state: State): Code {
    if state == Created then NoCode else Interrupted
  }

  /** A build whose tree is absent, empty or carries its candidate record. */
  predicate Forgotten(t: Txn, found: Option<Tree>) {
    Failable(t.state) && (found.Some? && found.value != map[] ==> FILE_CANDIDATE in found.value)
  }

  ghost predicate RecoverySteps(cfg: Config, w: World, acts: seq<Act>, w': World)
    decreases |acts|
  {
    if acts == [] then w' == w
    else RecoveryAct(cfg, w, acts[0]) && RecoverySteps(cfg, After(w, acts[0]), acts[1..], w')
  }

  ghost predicate Recovers(cfg: Config, w: World, w': World) {
    exists acts :: RecoverySteps(cfg, w, acts, w')
  }

  lemma NoSteps(cfg: Config, w: World)
    ensures Recovers(cfg, w, w)
  {
    assert RecoverySteps(cfg, w, [], w);
  }

  lemma OneStep(cfg: Config, w: World, act: Act)
    requires RecoveryAct(cfg, w, act)
    ensures Recovers(cfg, w, After(w, act))
  {
    hide RecoveryAct, After;
    var acts := [act];
    assert acts[1..] == [];
    assert RecoverySteps(cfg, After(w, act), acts[1..], After(w, act));
    assert RecoverySteps(cfg, w, acts, After(w, act));
  }

  lemma {:induction false} StepsCompose(cfg: Config, w: World, a: seq<Act>, w1: World, b: seq<Act>, w2: World)
    requires RecoverySteps(cfg, w, a, w1) && RecoverySteps(cfg, w1, b, w2)
    ensures RecoverySteps(cfg, w, a + b, w2)
    decreases |a|
  {
    hide RecoveryAct, After;
    if a == [] {
      assert a + b == b;
    } else {
      assert (a + b)[1..] == a[1..] + b;
      StepsCompose(cfg, After(w, a[0]), a[1..], w1, b, w2);
    }
  }

  lemma RecoversCompose(cfg: Config, w: World, w1: World, w2: World)
    requires Recovers(cfg, w, w1) && Recovers(cfg, w1, w2)
    ensures Recovers(cfg, w, w2)
  {
    hide RecoverySteps;
    var a :| RecoverySteps(cfg, w, a, w1);
    var b :| RecoverySteps(cfg, w1, b, w2);
    StepsCompose(cfg, w, a, w1, b, w2);
  }

  lemma {:induction false} StepsAreRun(cfg: Config, w: World, acts: seq<Act>, w': World)
    requires RecoverySteps(cfg, w, acts, w')
    ensures Run(cfg, w, acts, w')
    decreases |acts|
  {
    hide Enabled, After;
    if acts != [] {
      StepsAreRun(cfg, After(w, acts[0]), acts[1..], w');
    }
  }

  lemma RecoversKeeps(cfg: Config, w: World, w': World)
    requires Inv(w) && Recovers(cfg, w, w')
    ensures Inv(w')
  {
    hide Inv, RecoverySteps, Run;
    var acts :| RecoverySteps(cfg, w, acts, w');
    StepsAreRun(cfg, w, acts, w');
    RunKeeps(cfg, w, acts, w');
  }

  // ---------------------------------------------------------------- collection

  ghost predicate Removable(w: World, latest: int, g: string)
    requires latest < |w.txns|
  {
    !Shielded(w, latest, GenerationAt(g)) && OwnedPlace(w, GenerationAt(g)) && g in w.generations
  }

  lemma RemovalKeepsPointer(w: World, latest: int, g: string)
    requires latest < |w.txns| && !Shielded(w, latest, GenerationAt(g))
    ensures ReadActive(w.(generations := w.generations - {g})) == ReadActive(w)
  {
  }

  lemma {:induction false} RemovalsRun(cfg: Config, w: World, latest: int, gs: set<string>)
    requires latest < |w.txns| && LatestAmong(w.txns, ActiveGen(w), |w.txns|, latest)
    requires forall g :: g in gs ==> Removable(w, latest, g)
    ensures Recovers(cfg, w, w.(generations := w.generations - gs))
    decreases gs
  {
    hide Recovers, LatestAmong, ReadActive, RecoveryAct;
    if gs == {} {
      assert w.generations - gs == w.generations;
      NoSteps(cfg, w);
    } else {
      var g :| g in gs;
      var act := Reclaim(GenerationAt(g), latest, None);
      var w1 := w.(generations := w.generations - {g});
      assert RecoveryAct(cfg, w, act) by { ReclaimAllowed(cfg, w, latest, g); }
      OneStep(cfg, w, act);
      assert After(w, act) == w1;
      RemovalKeepsPointer(w, latest, g);
      RemovalsRun(cfg, w1, latest, gs - {g});
      assert w1.generations - (gs - {g}) == w.generations - gs;
      RecoversCompose(cfg, w, w1, w.(generations := w.generations - gs));
    }
  }

  lemma ReclaimAllowed(cfg: Config, w: World, latest: int, g: string)
    requires latest < |w.txns| && LatestAmong(w.txns, ActiveGen(w), |w.txns|, latest) && Removable(w, latest, g)
    ensures RecoveryAct(cfg, w, Reclaim(GenerationAt(g), latest, None))
  {
  }

  lemma CollectsGenerationsOnly(w: World)
    requires Inv(w)
    ensures Collect(w) == w.(generations := w.generations - (w.generations.Keys - Collect(w).generations.Keys))
  {
    hide Distinct, PointerOk, HistoryOk, ReplacedOk, ActivatingOk, AtMostOne, LineageProven, RecordOk, Protected,
      TimesOk, Superseded, LatestHitAmong;
    var c, h := LatestCommitted(w.txns, ActiveGen(w), |w.txns|), LatestHit(w, |w.txns|);
    forall id | id in w.staging ensures !Doomed(w, c, h, StagingAt(id)) { }
    forall id | id in w.failed ensures !Doomed(w, c, h, FailedAt(id)) { }
    assert Collect(w).staging == w.staging;
    assert Collect(w).failed == w.failed;
    assert Collect(w).generations == w.generations - (w.generations.Keys - Collect(w).generations.Keys);
  }

  lemma CollectRuns(cfg: Config, w: World)
    requires Inv(w)
    ensures Recovers(cfg, w, Collect(w))
  {
    hide Inv, Recovers, ReadActive, Superseded, LatestHitAmong, LineageProven;
    var c, h := LatestCommitted(w.txns, ActiveGen(w), |w.txns|), LatestHit(w, |w.txns|);
    CollectsGenerationsOnly(w);
    var gs := w.generations.Keys - Collect(w).generations.Keys;
    forall g | g in gs ensures Removable(w, c, g) {
      assert Doomed(w, c, h, GenerationAt(g));
    }
    RemovalsRun(cfg, w, c, gs);
  }

  // ---------------------------------------------------------------- reconciling the environment

  lemma EnvironmentRuns(cfg: Config, w: World, env: Env)
    ensures Recovers(cfg, w, w.(env := env))
  {
    assert RecoveryAct(cfg, w, WriteEnvironment(env));
    OneStep(cfg, w, WriteEnvironment(env));
  }

  lemma OnceRuns(cfg: Config, w: World, r: ActiveRecord, allowStale: bool)
    ensures Recovers(cfg, w, ReconcileOnce(cfg, w, r, allowStale).world)
  {
    hide Recovers, ReconcileOnce;
    OnceTouchesEnvOnly(cfg, w, r, allowStale);
    EnvironmentRuns(cfg, w, ReconcileOnce(cfg, w, r, allowStale).world.env);
  }

  lemma CommitAllowed(cfg: Config, w: World, i: nat)
    requires i < |w.txns| && w.txns[i].state == State.Activating && Names(w, w.txns[i])
    requires CommitObserved(cfg, w, LoadActive(w).value)
    ensures RecoveryAct(cfg, w, CommitRecord(i)) && After(w, CommitRecord(i)) == CommitWorld(w, i)
  {
    hide CommitObserved;
  }

  lemma CommitRunsOn(cfg: Config, w: World, i: nat, r: ActiveRecord)
    requires Inv(w) && i < |w.txns| && w.txns[i].state == State.Activating && Names(w, w.txns[i])
    requires LoadActive(w) == Some(r)
    ensures Recovers(cfg, w, CommitAndCollect(cfg, w, w.txns[i], r).world)
  {
    hide Inv, Recovers, CommitObserved, Collect, CommitAndCollect, CommitWorld, ReconcileOnce;
    InvSingle(w);
    CommitStep(cfg, w, i, r);
    NoSteps(cfg, w);
    if CommitObserved(cfg, w, r) {
      CommitAllowed(cfg, w, i);
      OneStep(cfg, w, CommitRecord(i));
      var w1 := CommitWorld(w, i);
      RecoversKeeps(cfg, w, w1);
      CollectRuns(cfg, w1);
      RecoversCompose(cfg, w, w1, Collect(w1));
      OnceRuns(cfg, Collect(w1), r, true);
      RecoversCompose(cfg, w, Collect(w1), ReconcileOnce(cfg, Collect(w1), r, true).world);
    }
  }

  /** Manager and recovery share this operation: environment writes, one commit at most, reclaims. */
  lemma ReconcileRuns(cfg: Config, w: World, i: nat)
    requires Inv(w) && i < |w.txns|
    ensures Recovers(cfg, w, ReconcileEnvironment(cfg, w, w.txns[i].id).world)
  {
    hide Inv, Recovers, CommitAndCollect, ReconcileOnce, HasCommitted;
    InvSingle(w);
    IndexFinds(w, i);
    NoSteps(cfg, w);
    if LoadActive(w).Some? {
      var r := LoadActive(w).value;
      var stale := w.txns[i].state == State.Committed || HasCommitted(w);
      OnceTouchesEnvOnly(cfg, w, r, stale);
      OnceRuns(cfg, w, r, stale);
      var w1 := ReconcileOnce(cfg, w, r, stale).world;
      RecoversKeeps(cfg, w, w1);
      OnceRuns(cfg, w1, r, true);
      RecoversCompose(cfg, w, w1, ReconcileOnce(cfg, w1, r, true).world);
      if w.txns[i].state == State.Activating && r.generationId == w.txns[i].generationId {
        CommitRunsOn(cfg, w1, i, r);
        RecoversCompose(cfg, w, w1, CommitAndCollect(cfg, w1, w1.txns[i], r).world);
      }
    }
  }

  // ---------------------------------------------------------------- the decision for each record in flight

  lemma ReachableReadable(w: World)
    requires Inv(w)
    ensures Readable(w) && Distinct(w)
  {
    hide ReadActive, HistoryOk, ActivatingOk, ReplacedOk, RecordsOk, TimesOk, AtMostOne, Distinct;
    PointerReads(w);
  }

  lemma NoStaging(w: World, i: nat)
    requires Inv(w) && i < |w.txns|
    ensures StagingSeen(w, w.txns[i]) == AbsentTree && w.txns[i].id !in w.staging
  {
  }

  lemma SeenSealed(t: Txn, found: Option<Tree>)
    requires Verified(t, found)
    ensures SealedHere(ObserveTree(found, t)) && ObserveTree(found, t).lineageId == t.generationId
  {
  }

  lemma SeenBuilding(t: Txn, found: Option<Tree>)
    requires FreshRecord(t) && (found.Some? ==> BuildTreeOk(found.value, t)) && ValidTransaction(t)
    ensures var seen := ObserveTree(found, t);
            && seen.present == found.Some?
            && (found.Some? ==> seen.empty == (found.value == map[]))
            && (found.Some? ==> seen.lineageMatch == (FILE_CANDIDATE in found.value))
  {
    if found.Some? && FILE_CANDIDATE in found.value {
      assert ReadsCandidate(found.value) by { CandidateReads(t, found.value); }
    }
    if found.Some? && FILE_GENERATION in found.value {
      assert !(TEMP_PREFIX <= FILE_GENERATION) by { assert TEMP_PREFIX[0] != FILE_GENERATION[0]; }
    }
  }

  lemma CandidateReads(t: Txn, tree: Tree)
    requires ValidTransaction(t) && FILE_CANDIDATE in tree && tree[FILE_CANDIDATE] == CandidateOf(t)
    ensures ReadsCandidate(tree)
  {
  }
}
