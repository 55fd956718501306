/** HERMES_HOME and PATH after a successful reconciliation, told by the generations on disk. */
module Paths {
  import opened InstallTypes
  import opened Environment
  import opened World
  import opened Collector
  import opened Recovery
  import opened ObservedWorlds
  import opened Reconcile
  import opened Runs
  import opened Safety
  import opened Convergence
  import opened Losses

  /** No entry is the bin of generation g, unless the platform takes it for the bin of the active one. */
  predicate BinGone(cfg: Config, path: seq<string>, g: string, active: string) {
    forall e | e in path && SamePath(cfg.norm, e, BinOf(cfg, g)) :: SamePath(cfg.norm, e, BinOf(cfg, active))
  }

  /** The entry is the bin of none of the generations on disk. */
  predicate NoBin(cfg: Config, w: World, e: string) {
    forall g | g in w.generations && ValidGenId(g) :: !SamePath(cfg.norm, e, BinOf(cfg, g))
  }

  function Foreigners(cfg: Config, w: World): string -> bool {
    e => NoBin(cfg, w, e)
  }

  // ---------------------------------------------------------------- one plan

  /** The policy asks for this generation's bin and may remove exactly the bins of the others. */
  ghost predicate PolicyOf(cfg: Config, w: World, active: string, policy: Policy) {
    && policy.home == cfg.root && policy.desiredBin == BinOf(cfg, active)
    && forall bin :: bin in policy.removableBins <==>
         exists g :: g in w.generations && ValidGenId(g) && g != active && bin == BinOf(cfg, g)
  }

  lemma PolicyIsOf(cfg: Config, w: World, r: ActiveRecord, allowStale: bool)
    requires PolicyFromActive(cfg, w, r, allowStale).Some?
    ensures var policy := PolicyFromActive(cfg, w, r, allowStale).value;
            PolicyOf(cfg, w, r.generationId, policy) && policy.allowRemoveStale == allowStale
  {
  }

  lemma KeptElements(entries: seq<string>, keep: string -> bool)
    ensures forall e :: e in Keep(entries, keep) <==> e in entries && keep(e)
  {
    if entries != [] {
      KeptElements(entries[1..], keep);
      assert entries == [entries[0]] + entries[1..];
    }
  }

  /** A planned entry was there before, or is the desired bin. */
  lemma PlannedElements(norm: Spelling, policy: Policy, path: seq<string>)
    ensures forall e :: e in PlannedPath(norm, policy, path) ==>
              e == policy.desiredBin || (e in path && !Stale(norm, policy, e))
  {
    hide Stale;
    var kept := WithoutStale(norm, policy, path);
    KeptElements(path, NotStale(norm, policy));
    KeptElements(kept, NotDesired(norm, policy));
  }

  lemma AppliedPath(norm: Spelling, policy: Policy, env: Env)
    ensures Apply(PlanFor(norm, policy, env), env).path == PlannedPath(norm, policy, env.path)
  {
    KeepAll(env.path, NotStale(norm, policy));
  }

  /** One reconciliation with a working environment: what is in place, what is gone, and what is kept. */
  lemma OncePlaces(cfg: Config, w: World, r: ActiveRecord, allowStale: bool)
    requires Working(cfg) && PolicyFromActive(cfg, w, r, allowStale).Some?
    ensures var env := ReconcileOnce(cfg, w, r, allowStale).world.env;
            && EnvReady(cfg, env, r.generationId)
            && (allowStale ==>
                  forall g | g in w.generations && ValidGenId(g) && g != r.generationId ::
                    BinGone(cfg, env.path, g, r.generationId))
            && (forall g | BinGone(cfg, w.env.path, g, r.generationId) :: BinGone(cfg, env.path, g, r.generationId))
  {
    hide PolicyFromActive, Working, ReconcileOnce, PlannedPath;
    var policy := PolicyFromActive(cfg, w, r, allowStale).value;
    PolicyIsOf(cfg, w, r, allowStale);
    PolicyAsks(cfg, w, r, allowStale);
    OnceWorks(cfg, w, r, allowStale);
    AppliedPlanIsComplete(cfg.norm, policy, w.env);
    AppliedPath(cfg.norm, policy, w.env);
    PlannedElements(cfg.norm, policy, w.env.path);
    var path := PlannedPath(cfg.norm, policy, w.env.path);
    forall g | allowStale && g in w.generations && ValidGenId(g) && g != r.generationId
      ensures BinGone(cfg, path, g, r.generationId)
    {
      assert BinOf(cfg, g) in policy.removableBins;
    }
  }

  /**
   * Success means that the values were read back: after a reconciliation that reports it, whatever the backend did, the
   * values it reads are the ones this generation asks for.
   */
  lemma OnceReadsBack(cfg: Config, w: World, r: ActiveRecord, allowStale: bool)
    requires ReconcileOnce(cfg, w, r, allowStale).ok
    ensures var back := cfg.backend.read(ReconcileOnce(cfg, w, r, allowStale).world.env);
            back.Some? && EnvReady(cfg, back.value, r.generationId)
  {
    hide PolicyFromActive, PlannedPath, PathChanges;
    PolicyIsOf(cfg, w, r, allowStale);
    PolicyAsks(cfg, w, r, allowStale);
  }

  /** Where the bin of a generation is. */
  lemma BinPath(cfg: Config, generationId: string)
    ensures BinOf(cfg, generationId) == cfg.root + "/generations/" + generationId + "/bin"
  {
    assert GenerationRel(generationId) == "generations/" + generationId;
    assert "/" + ("generations/" + generationId) == "/generations/" + generationId;
  }

  /** It keeps every entry that is no generation's bin, in order and with its multiplicity. */
  lemma OnceKeepsForeigners(cfg: Config, w: World, r: ActiveRecord, allowStale: bool, all: World)
    requires Working(cfg) && PolicyFromActive(cfg, w, r, allowStale).Some?
    requires r.generationId in all.generations && ValidGenId(r.generationId)
    requires forall g :: g in w.generations ==> g in all.generations
    ensures Keep(ReconcileOnce(cfg, w, r, allowStale).world.env.path, Foreigners(cfg, all)) ==
              Keep(w.env.path, Foreigners(cfg, all))
  {
    hide PolicyFromActive, Working, ReconcileOnce, PlannedPath;
    var policy := PolicyFromActive(cfg, w, r, allowStale).value;
    PolicyIsOf(cfg, w, r, allowStale);
    OnceWorks(cfg, w, r, allowStale);
    AppliedPath(cfg.norm, policy, w.env);
    PlanKeepsForeignEntries(cfg.norm, policy, w.env);
    var strong, weak := Foreigners(cfg, all), Foreign(cfg.norm, policy);
    forall e | strong(e) ensures weak(e) {
    }
    KeepTwice(PlannedPath(cfg.norm, policy, w.env.path), strong, weak);
    KeepTwice(w.env.path, strong, weak);
  }

  // ---------------------------------------------------------------- a whole reconciliation

  /** Home and PATH serve this generation, and PATH has no bin of another generation on disk. */
  ghost predicate Serves(cfg: Config, w: World, generationId: string) {
    && EnvReady(cfg, w.env, generationId)
    && forall g | g in w.generations && ValidGenId(g) && g != generationId :: BinGone(cfg, w.env.path, g, generationId)
  }

  /** PATH has no bin of any generation `w` had on disk but the active one's. */
  ghost predicate BinsGone(cfg: Config, w: World, path: seq<string>, active: string) {
    forall g | g in w.generations && ValidGenId(g) && g != active :: BinGone(cfg, path, g, active)
  }

  /** A second pass over a disk with the same generations or fewer, stale bins removed. */
  lemma AgainPlaces(cfg: Config, w: World, v: World, r: ActiveRecord)
    requires Working(cfg) && PolicyFromActive(cfg, v, r, true).Some?
    requires r.generationId in w.generations && ValidGenId(r.generationId)
    requires forall g :: g in v.generations ==> g in w.generations
    ensures var v' := ReconcileOnce(cfg, v, r, true).world;
            && Serves(cfg, v', r.generationId)
            && (BinsGone(cfg, w, v.env.path, r.generationId) ==> BinsGone(cfg, w, v'.env.path, r.generationId))
            && Keep(v'.env.path, Foreigners(cfg, w)) == Keep(v.env.path, Foreigners(cfg, w))
  {
    hide PolicyFromActive, Working, ReconcileOnce, BinGone, EnvReady;
    OnceTouchesEnvOnly(cfg, v, r, true);
    OncePlaces(cfg, v, r, true);
    OnceKeepsForeigners(cfg, v, r, true, w);
  }

  lemma ActiveGeneration(w: World, i: nat)
    requires Inv(w) && i < |w.txns| && ReadActive(w) == PointerTo(w.txns[i])
    ensures LoadActive(w) == Some(w.active.record) && w.active.ActiveFile?
    ensures w.active.record.generationId == w.txns[i].generationId && w.txns[i].generationId in w.generations
    ensures ValidGenId(w.txns[i].generationId)
    ensures w.txns[i].state == State.Activating || w.txns[i].state == State.Committed
  {
    hide Inv, ReadActive;
    TipRecord(w, i);
    RecordAt(w, i);
  }

  /** The first pass, before anything is committed or collected. */
  lemma FirstPassPlaces(cfg: Config, w: World, i: nat, stale: bool)
    requires Working(cfg) && Inv(w) && i < |w.txns| && ReadActive(w) == PointerTo(w.txns[i])
    ensures w.active.ActiveFile? && PolicyFromActive(cfg, w, w.active.record, true).Some?
    ensures var once := ReconcileOnce(cfg, w, w.active.record, stale);
            && once.ok && EnvOnly(w, once.world)
            && (stale ==> BinsGone(cfg, w, once.world.env.path, w.txns[i].generationId))
            && Keep(once.world.env.path, Foreigners(cfg, w)) == Keep(w.env.path, Foreigners(cfg, w))
  {
    hide Inv, Working, ReadActive, ReconcileOnce, TreeVerifies, BinsGone, PolicyFromActive, Foreigners;
    ActiveGeneration(w, i);
    TipRecord(w, i);
    var r := w.active.record;
    PolicyExists(cfg, w, i, stale);
    PolicyExists(cfg, w, i, true);
    OnceSucceeds(cfg, w, r, stale);
    OnceTouchesEnvOnly(cfg, w, r, stale);
    if stale { FirstClears(cfg, w, r); }
    OnceKeepsForeigners(cfg, w, r, stale, w);
  }

  /** What a successful reconciliation leaves, for the generation it was made for. */
  ghost predicate Served(cfg: Config, w: World, generationId: string, w': World) {
    && Serves(cfg, w', generationId)
    && (HasCommitted(w) ==> BinsGone(cfg, w, w'.env.path, generationId))
    && Keep(w'.env.path, Foreigners(cfg, w)) == Keep(w.env.path, Foreigners(cfg, w))
  }

  lemma ActivatingServes(cfg: Config, w: World, i: nat)
    requires Working(cfg) && Inv(w) && i < |w.txns| && ReadActive(w) == PointerTo(w.txns[i])
    requires w.txns[i].state == State.Activating
    ensures Served(cfg, w, w.txns[i].generationId, ReconcileEnvironment(cfg, w, w.txns[i].id).world)
  {
    hide Inv, Working, ReadActive, ReconcileOnce, CommitAndCollect, CommitObserved, TreeVerifies, Collect, Serves,
      BinsGone, HasCommitted, PolicyFromActive, Foreigners, CommitWorld, ReconcileEnvironment;
    InvSingle(w);
    ActiveGeneration(w, i);
    var r := w.active.record;
    FirstPassPlaces(cfg, w, i, HasCommitted(w));
    var seen := FirstPass(cfg, w, r).world;
    ActivatingReconciles(cfg, w, i, r);
    PolicyStays(cfg, w, w, r, true, HasCommitted(w));
    OnceCompletes(cfg, w, r, HasCommitted(w));
    CommitStep(cfg, seen, i, r);
    CommittedPointer(w, seen, i);
    CommittedElsewhere(seen, i);
    AfterCollect(cfg, w, CommitWorld(seen, i), i, r);
    AgainPlaces(cfg, w, Collect(CommitWorld(seen, i)), r);
  }

  lemma CommittedElsewhere(seen: World, i: nat)
    requires i < |seen.txns|
    ensures CommitWorld(seen, i).env == seen.env && CommitWorld(seen, i).generations == seen.generations
  {
  }

  lemma CommittedServes(cfg: Config, w: World, i: nat)
    requires Working(cfg) && Inv(w) && i < |w.txns| && ReadActive(w) == PointerTo(w.txns[i])
    requires w.txns[i].state == State.Committed
    ensures Served(cfg, w, w.txns[i].generationId, ReconcileEnvironment(cfg, w, w.txns[i].id).world)
  {
    hide Inv, Working, ReadActive, ReconcileOnce, CommitAndCollect, TreeVerifies, Serves, BinsGone, PolicyFromActive,
      Foreigners;
    InvSingle(w);
    IndexFinds(w, i);
    ActiveGeneration(w, i);
    var r := w.active.record;
    FirstPassPlaces(cfg, w, i, true);
    var seen := ReconcileOnce(cfg, w, r, true).world;
    PolicyStays(cfg, w, seen, r, true, true);
    AgainPlaces(cfg, w, seen, r);
  }

  /**
   * After a reconciliation with a working environment, on any disk any processes left: HERMES_HOME is the managed root,
   * the bin of the active generation leads PATH, PATH has no bin of another generation that is still on disk and, once
   * some record was committed before, none of a generation that was on disk before either. Every entry that is no
   * generation's bin keeps its place in the order.
   */
  lemma ReconcileServes(cfg: Config, w0: World, past: seq<Session>, w: World, i: nat)
    requires Working(cfg) && Initial(w0) && Sessions(w0, past, w)
    requires i < |w.txns| && ReadActive(w) == PointerTo(w.txns[i])
    ensures Served(cfg, w, w.txns[i].generationId, ReconcileEnvironment(cfg, w, w.txns[i].id).world)
  {
    hide Inv, Sessions, Working, ReadActive, Served, ReconcileEnvironment;
    InitialInv(w0);
    SessionsKeep(w0, past, w);
    ActiveGeneration(w, i);
    if w.txns[i].state == State.Activating { ActivatingServes(cfg, w, i); } else { CommittedServes(cfg, w, i); }
  }

  lemma FirstClears(cfg: Config, w: World, r: ActiveRecord)
    requires Working(cfg) && PolicyFromActive(cfg, w, r, true).Some?
    ensures BinsGone(cfg, w, ReconcileOnce(cfg, w, r, true).world.env.path, r.generationId)
  {
    hide Working, PolicyFromActive, ReconcileOnce, BinGone;
    OncePlaces(cfg, w, r, true);
  }

  lemma AfterCollect(cfg: Config, w: World, done: World, i: nat, r: ActiveRecord)
    requires i < |w.txns| && |done.txns| == |w.txns| && NamedTxn(done, i)
    requires r.generationId == w.txns[i].generationId == done.txns[i].generationId
    requires done.generations == w.generations && PolicyFromActive(cfg, w, r, true).Some?
    ensures PolicyFromActive(cfg, Collect(done), r, true).Some? && Collect(done).env == done.env
    ensures forall g :: g in Collect(done).generations ==> g in w.generations
  {
    hide PolicyFromActive, NamedTxn, Doomed;
    CollectKeepsNamed(done, i);
    PolicyStays(cfg, w, Collect(done), r, true, true);
  }
}
