/** Recovery, with all its collections, never loses a tree it cannot attribute. */
module Evidence {
  import opened InstallTypes
  import opened Decide
  import opened World
  import opened Collector
  import opened Recovery
  import opened ObservedWorlds
  import opened Reconcile
  import opened Termination

  /** A staging tree with the lineage of its record, whose generation is sealed: the one kind recovery clears away. */
  ghost predicate Obsolete(w: World, p: Place, tree: Tree) {
    p.StagingAt? && exists i :: 0 <= i < |w.txns| && Owns(w.txns[i], p) && ObsoleteFor(w, w.txns[i], tree)
  }

  ghost predicate ObsoleteFor(w: World, t: Txn, tree: Tree) {
    ObserveTree(Some(tree), t).lineageMatch && SealedHere(GenerationSeen(w, t))
  }

  /** One of these disks was collected with the tree at this place, proven and not protected. */
  ghost predicate CollectedFrom(disks: seq<World>, p: Place, tree: Tree) {
    exists k :: 0 <= k < |disks| && TreeAt(disks[k], p) == Some(tree) && Discarded(disks[k], p)
  }

  /**
   * Where a tree found at `p` is: in place, aside, superseded by its sealed generation, or collected from a listed
   * disk.
   */
  ghost predicate Accounted(w: World, p: Place, tree: Tree, w': World, disks: seq<World>) {
    || TreeAt(w', p) == Some(tree)
    || (p.StagingAt? && TreeAt(w', FailedAt(p.id)) == Some(tree))
    || Obsolete(w, p, tree)
    || CollectedFrom(disks, p, tree)
    || (p.StagingAt? && CollectedFrom(disks, FailedAt(p.id), tree))
  }

  /** Records keep their identity and build; no record appears or vanishes. */
  ghost predicate SameRecords(w: World, w': World) {
    && |w'.txns| == |w.txns| && w'.malformed == w.malformed
    && forall i :: 0 <= i < |w.txns| ==> SameBuild(w.txns[i], w'.txns[i]) && ValidTransaction(w'.txns[i])
  }

  ghost predicate TreesKept(w: World, w': World, disks: seq<World>) {
    && (forall p, tree :: TreeAt(w, p) == Some(tree) && tree != map[] ==> Accounted(w, p, tree, w', disks))
    && (forall g :: g in w'.generations ==> g in w.generations && w'.generations[g] == w.generations[g])
  }

  /** Every non-empty tree is accounted for, when these disks and no others were collected on the way. */
  ghost predicate Kept(w: World, w': World, disks: seq<World>) {
    Filed(w') && SameRecords(w, w') && TreesKept(w, w', disks)
  }

  lemma GenerationWasSealed(w: World, w1: World, i: nat, disks: seq<World>)
    requires i < |w.txns| && SameRecords(w, w1) && TreesKept(w, w1, disks) && SealedHere(GenerationSeen(w1, w1.txns[i]))
    ensures SealedHere(GenerationSeen(w, w.txns[i]))
  {
    hide Accounted;
    assert w1.txns[i].generationId in w1.generations;
  }

  lemma SameBuildMatches(t: Txn, u: Txn, tree: Tree)
    requires SameBuild(t, u)
    ensures ObserveTree(Some(tree), u).lineageMatch <==> ObserveTree(Some(tree), t).lineageMatch
  {
  }

  lemma ObsoleteCarries(w: World, w1: World, disks: seq<World>, p: Place, tree: Tree)
    requires SameRecords(w, w1) && TreesKept(w, w1, disks) && Obsolete(w1, p, tree)
    ensures Obsolete(w, p, tree)
  {
    hide TreesKept, ObserveTree, GenerationSeen, SealedHere, ValidTransaction;
    var i :| 0 <= i < |w1.txns| && Owns(w1.txns[i], p) && ObsoleteFor(w1, w1.txns[i], tree);
    SameBuildMatches(w.txns[i], w1.txns[i], tree);
    GenerationWasSealed(w, w1, i, disks);
    assert Owns(w.txns[i], p) && ObsoleteFor(w, w.txns[i], tree);
  }

  lemma MoreDisks(a: seq<World>, b: seq<World>, p: Place, tree: Tree)
    requires CollectedFrom(a, p, tree) || CollectedFrom(b, p, tree)
    ensures CollectedFrom(a + b, p, tree)
  {
    hide Discarded, TreeAt;
    if CollectedFrom(a, p, tree) {
      var k :| 0 <= k < |a| && TreeAt(a[k], p) == Some(tree) && Discarded(a[k], p);
      assert (a + b)[k] == a[k];
    } else {
      var k :| 0 <= k < |b| && TreeAt(b[k], p) == Some(tree) && Discarded(b[k], p);
      assert (a + b)[|a| + k] == b[k];
    }
  }

  lemma AccountedLater(w: World, w1: World, a: seq<World>, w2: World, b: seq<World>, p: Place, q: Place, tree: Tree)
    requires SameRecords(w, w1) && TreesKept(w, w1, a) && Accounted(w1, q, tree, w2, b)
    requires p == q || (p.StagingAt? && q == FailedAt(p.id))
    ensures Accounted(w, p, tree, w2, a + b)
  {
    hide TreesKept, SameRecords, CollectedFrom, Obsolete;
    if Obsolete(w1, q, tree) {
      if p == q { ObsoleteCarries(w, w1, a, p, tree); } else { StagingOnly(w1, q, tree); }
    }
    if CollectedFrom(b, q, tree) { MoreDisks(a, b, q, tree); }
    if q.StagingAt? && CollectedFrom(b, FailedAt(q.id), tree) { MoreDisks(a, b, FailedAt(q.id), tree); }
  }

  lemma StagingOnly(w: World, p: Place, tree: Tree)
    requires Obsolete(w, p, tree)
    ensures p.StagingAt?
  {
  }

  lemma KeptCompose(w: World, w1: World, a: seq<World>, w2: World, b: seq<World>)
    requires Kept(w, w1, a) && Kept(w1, w2, b)
    ensures Kept(w, w2, a + b)
  {
    hide Filed, CollectedFrom, Obsolete, ValidTransaction;
    forall p, tree | TreeAt(w, p) == Some(tree) && tree != map[] ensures Accounted(w, p, tree, w2, a + b) {
      assert Accounted(w, p, tree, w1, a);
      if TreeAt(w1, p) == Some(tree) {
        AccountedLater(w, w1, a, w2, b, p, p, tree);
      } else if p.StagingAt? && TreeAt(w1, FailedAt(p.id)) == Some(tree) {
        AccountedLater(w, w1, a, w2, b, p, FailedAt(p.id), tree);
      } else {
        if CollectedFrom(a, p, tree) { MoreDisks(a, b, p, tree); }
        if p.StagingAt? && CollectedFrom(a, FailedAt(p.id), tree) { MoreDisks(a, b, FailedAt(p.id), tree); }
      }
    }
  }

  lemma KeptThen(w: World, w1: World, w2: World)
    requires Kept(w, w1, []) && Kept(w1, w2, [])
    ensures Kept(w, w2, [])
  {
    hide Kept;
    KeptCompose(w, w1, [], w2, []);
    var none: seq<World> := [];
    assert none + none == none;
  }

  lemma SameTreesKept(w: World, w': World)
    requires w'.staging == w.staging && w'.failed == w.failed && w'.generations == w.generations
    ensures TreesKept(w, w', [])
  {
    hide Obsolete;
    forall p, tree | TreeAt(w, p) == Some(tree) ensures Accounted(w, p, tree, w', []) {
      assert TreeAt(w', p) == TreeAt(w, p);
    }
  }

  lemma SameRecordsFiled(w: World, w': World)
    requires Filed(w) && SameRecords(w, w')
    ensures Filed(w')
  {
    forall j, k | 0 <= j < |w'.txns| && 0 <= k < |w'.txns| && w'.txns[j].id == w'.txns[k].id ensures j == k {
      assert w.txns[j].id == w.txns[k].id;
    }
  }

  lemma KeptSelf(w: World, w': World)
    requires Filed(w) && w'.txns == w.txns && w'.malformed == w.malformed
    requires w'.staging == w.staging && w'.failed == w.failed && w'.generations == w.generations
    ensures Kept(w, w', [])
  {
    SameTreesKept(w, w');
  }

  // ---------------------------------------------------------------- saving records

  lemma SaveKept(w: World, i: nat, t: Txn)
    requires Filed(w) && i < |w.txns| && SameBuild(w.txns[i], t)
    ensures Kept(w, Save(w, t).world, [])
    ensures SameBuild(w.txns[i], Save(w, t).world.txns[i])
  {
    hide TreesKept, Filed, SameRecords, ValidTransaction;
    IndexFinds(w, i);
    var w' := Save(w, t).world;
    SameTreesKept(w, w');
    forall j | 0 <= j < |w.txns| ensures SameBuild(w.txns[j], w'.txns[j]) && ValidTransaction(w'.txns[j]) {
      IndexFinds(w, j);
      RevisionKeepsValid(t, w.txns[i].revision + 1);
    }
    SameRecordsFrom(w, w');
    SameRecordsFiled(w, w');
  }

  lemma SameRecordsDistinct(w: World, w': World)
    requires Distinct(w) && SameRecords(w, w')
    ensures Distinct(w')
  {
    forall j, k | 0 <= j < |w'.txns| && 0 <= k < |w'.txns|
          && w'.txns[j].generationId == w'.txns[k].generationId ensures j == k {
      assert w.txns[j].generationId == w.txns[k].generationId;
    }
    SameRecordsFiled(w, w');
  }

  lemma SameRecordsFrom(w: World, w': World)
    requires |w'.txns| == |w.txns| && w'.malformed == w.malformed
    requires forall i :: 0 <= i < |w.txns| ==> SameBuild(w.txns[i], w'.txns[i]) && ValidTransaction(w'.txns[i])
    ensures SameRecords(w, w')
  {
  }

  lemma PersistKept(w: World, i: nat, t: Txn)
    requires Filed(w) && i < |w.txns| && SameBuild(w.txns[i], t)
    ensures Kept(w, Persist(w, t).world, []) && |Persist(w, t).world.txns| == |w.txns|
    ensures SameBuild(Persist(w, t).world.txns[i], Persist(w, t).txn)
  {
    hide Kept, Filed, Save;
    KeptSelf(w, w);
    SaveKept(w, i, t);
    IndexFinds(w, i);
    var w' := Save(w, t).world;
    KeptFiled(w, w', []);
    KeptLength(w, w');
    IndexFinds(w', i);
  }

  lemma KeptLength(w: World, w': World)
    requires SameRecords(w, w')
    ensures |w'.txns| == |w.txns|
    ensures forall i :: 0 <= i < |w.txns| ==> SameBuild(w.txns[i], w'.txns[i])
  {
  }

  lemma PersistTxnStateKept(w: World, id: string, state: State, code: Code)
    requires Filed(w)
    ensures Kept(w, PersistTxnState(w, id, state, code).world, [])
  {
    hide Kept, Save, Filed;
    KeptSelf(w, w);
    if Load(w, id).Some? {
      var i := IndexOf(w.txns, id);
      SaveKept(w, i, WithState(w.txns[i], state, code, w.clock));
    }
  }

  // ---------------------------------------------------------------- activation

  lemma MarkKept(w: World, i: nat, t: Txn)
    requires Filed(w) && i < |w.txns| && SameBuild(w.txns[i], t)
    ensures Kept(w, MarkActivating(w, t).world, []) && |MarkActivating(w, t).world.txns| == |w.txns|
    ensures SameBuild(MarkActivating(w, t).world.txns[i], MarkActivating(w, t).txn)
  {
    hide TreesKept, Filed, Persist, SameRecords;
    KeptSelf(w, w);
    var u := t.(state := State.Activating, updatedAt := w.clock,
          activatedAt := if t.activatedAt.None? then Some(w.clock) else t.activatedAt);
    PersistKept(w, i, u);
    KeptLength(w, Persist(w, u).world);
  }

  lemma SwingKept(w: World, i: nat, t: Txn)
    requires Filed(w) && i < |w.txns| && SameBuild(w.txns[i], t)
    ensures Kept(w, Swing(w, t).world, [])
  {
    hide Kept, Filed, Persist, ReadActive, TreeVerifies, CasAllows;
    KeptSelf(w, w);
    var written := WriteActive(w, RecordFor(t, w.clock));
    KeptSelf(w, written.world);
    assert Filed(written.world) by { KeptFiled(w, written.world, []); }
    var u := t.(activatedAt := Some(w.clock), updatedAt := w.clock);
    PersistKept(written.world, i, u);
    KeptThen(w, written.world, Persist(written.world, u).world);
  }

  lemma KeptFiled(w: World, w': World, disks: seq<World>)
    requires Kept(w, w', disks)
    ensures Filed(w') && SameRecords(w, w')
  {
  }

  lemma ActivateKept(w: World, i: nat)
    requires Filed(w) && i < |w.txns|
    ensures Kept(w, ActivateTxn(w, w.txns[i]).world, [])
  {
    hide Kept, Filed, MarkActivating, Swing, ReadActive, TreeVerifies;
    KeptSelf(w, w);
    var t := w.txns[i];
    MarkKept(w, i, t);
    SwingKept(w, i, t);
    var u := SnapshotBefore(t, ReadActive(w));
    MarkKept(w, i, u);
    var marked := MarkActivating(w, u);
    KeptFiled(w, marked.world, []);
    SwingKept(marked.world, i, marked.txn);
    KeptThen(w, marked.world, Swing(marked.world, marked.txn).world);
  }

  // ---------------------------------------------------------------- collection and reconciliation

  lemma CollectKept(w: World)
    requires Filed(w)
    ensures Kept(w, Collect(w), [w])
  {
    hide Filed, Protected, Candidate, Superseded, LatestHitAmong;
    var c, h := LatestCommitted(w.txns, ActiveGen(w), |w.txns|), LatestHit(w, |w.txns|);
    KeptSelf(w, w);
    forall p, tree | TreeAt(w, p) == Some(tree) && tree != map[] ensures Accounted(w, p, tree, Collect(w), [w]) {
      CollectedPlaces(w, c, h, p);
      if Doomed(w, c, h, p) {
        assert TreeAt([w][0], p) == Some(tree) && Discarded([w][0], p);
      }
    }
    SameRecordsFiled(w, Collect(w));
  }

  lemma OnceKept(cfg: Config, w: World, r: ActiveRecord, allowStale: bool)
    requires Filed(w)
    ensures Kept(w, ReconcileOnce(cfg, w, r, allowStale).world, [])
  {
    hide Kept, Filed, ReconcileOnce;
    OnceTouchesEnvOnly(cfg, w, r, allowStale);
    KeptSelf(w, ReconcileOnce(cfg, w, r, allowStale).world);
  }

  /** The disk a commit collects, if it gets that far. */
  ghost function CommitCollections(cfg: Config, w: World, t: Txn, r: ActiveRecord): seq<World> {
    var done := Persist(w, CommittedRecord(t, w.clock));
    if CommitObserved(cfg, w, r) && done.ok then [done.world] else []
  }

  lemma CommitKept(cfg: Config, w: World, i: nat, r: ActiveRecord)
    requires Filed(w) && i < |w.txns|
    ensures Kept(w, CommitAndCollect(cfg, w, w.txns[i], r).world, CommitCollections(cfg, w, w.txns[i], r))
  {
    hide Kept, Filed, ReconcileOnce, Collect, Persist, CommitObserved;
    KeptSelf(w, w);
    var t := CommittedRecord(w.txns[i], w.clock);
    PersistKept(w, i, t);
    var w1 := Persist(w, t).world;
    KeptFiled(w, w1, []);
    CollectKept(w1);
    KeptFiled(w1, Collect(w1), [w1]);
    OnceKept(cfg, Collect(w1), r, true);
    KeptCompose(w, w1, [], Collect(w1), [w1]);
    assert [] + [w1] == [w1] && [w1] + [] == [w1];
    KeptCompose(w, Collect(w1), [w1], ReconcileOnce(cfg, Collect(w1), r, true).world, []);
  }

  /** The disk a reconciliation collects: only when it commits an ACTIVATING record. */
  ghost function ReconcileCollections(cfg: Config, w: World, id: string): seq<World> {
    match Load(w, id)
    case None => []
    case Some(t) =>
      if t.state != State.Activating || LoadActive(w).None?
            || LoadActive(w).value.generationId != t.generationId then []
      else
        var r := LoadActive(w).value;
        var once := ReconcileOnce(cfg, w, r, HasCommitted(w));
        if once.ok then CommitCollections(cfg, once.world, t, r) else []
  }

  lemma ReconcileKept(cfg: Config, w: World, id: string)
    requires Filed(w)
    ensures Kept(w, ReconcileEnvironment(cfg, w, id).world, ReconcileCollections(cfg, w, id))
  {
    hide Kept, Filed, ReconcileOnce, CommitAndCollect, CommitCollections, HasCommitted;
    KeptSelf(w, w);
    if Load(w, id).Some? && LoadActive(w).Some? {
      var i := IndexOf(w.txns, id);
      var r := LoadActive(w).value;
      var stale := w.txns[i].state == State.Committed || HasCommitted(w);
      OnceTouchesEnvOnly(cfg, w, r, stale);
      OnceKept(cfg, w, r, stale);
      var w1 := ReconcileOnce(cfg, w, r, stale).world;
      KeptFiled(w, w1, []);
      OnceKept(cfg, w1, r, true);
      KeptThen(w, w1, ReconcileOnce(cfg, w1, r, true).world);
      CommitKept(cfg, w1, i, r);
      var disks := CommitCollections(cfg, w1, w1.txns[i], r);
      assert [] + disks == disks;
      KeptCompose(w, w1, [], CommitAndCollect(cfg, w1, w1.txns[i], r).world, disks);
    }
  }

  // ---------------------------------------------------------------- directories

  lemma DirsKept(w: World, obs: Observation, action: Action)
    requires Filed(w)
    ensures Kept(w, ClearDirs(w, obs, action).world, [])
  {
    hide Obsolete, PrimaryOf, Filed;
    var w' := ClearDirs(w, obs, action).world;
    KeptSelf(w, w);
    SameRecordsFiled(w, w');
    forall p, tree | TreeAt(w, p) == Some(tree) && tree != map[] ensures Accounted(w, p, tree, w', []) {
    }
  }

  lemma GCStagingKept(cfg: Config, w: World, obs: Observation)
    requires Filed(w) && obs == Observe(cfg, w)
    ensures Kept(w, RemoveProvenStaging(w, obs).world, [])
  {
    hide Filed, Primary, LineageProven, ObserveTree, ReadActive, Views, ObserveEnvironment, UnknownDirectories;
    KeptSelf(w, w);
    var w' := RemoveProvenStaging(w, obs).world;
    SameRecordsFiled(w, w');
    if w' != w {
      var v := PrimaryOf(obs).value;
      var i := IndexOf(w.txns, v.id);
      SealedIsLocal(w, w.txns[i]);
      AbsentSeesNothing(w.txns[i]);
      forall p, tree | TreeAt(w, p) == Some(tree) && tree != map[] ensures Accounted(w, p, tree, w', []) {
        if p == StagingAt(v.id) {
          assert Owns(w.txns[i], p) && ObsoleteFor(w, w.txns[i], tree);
        } else {
          assert TreeAt(w', p) == Some(tree);
        }
      }
    }
  }

  lemma SealedIsLocal(w: World, t: Txn)
    ensures GenerationSeen(w, t).sealed ==> SealedHere(GenerationSeen(w, t))
  {
  }

  lemma AbsentSeesNothing(t: Txn)
    ensures ObserveTree(None, t) == AbsentTree
  {
  }

  // ---------------------------------------------------------------- actions and runs

  lemma {:induction false} ExtrasKept(w: World, views: seq<View>, n: nat)
    requires Filed(w) && n <= |views|
    ensures Kept(w, FailExtras(w, views, n).world, [])
  {
    hide Kept, Filed, PersistTxnState;
    KeptSelf(w, w);
    if n > 0 {
      ExtrasKept(w, views, n - 1);
      var w1 := FailExtras(w, views, n - 1).world;
      KeptFiled(w, w1, []);
      if views[n - 1].View? {
        PersistTxnStateKept(w1, views[n - 1].id, State.Failed, Interrupted);
        KeptThen(w, w1, PersistTxnState(w1, views[n - 1].id, State.Failed, Interrupted).world);
      }
    }
  }

  lemma PersistPrimaryKept(w: World, obs: Observation, d: Decision)
    requires Filed(w)
    ensures Kept(w, PersistPrimary(w, obs, d).world, [])
  {
    hide Kept, Filed, PersistTxnState, PrimaryOf;
    KeptSelf(w, w);
    if d.next.Some? && PrimaryOf(obs).Some? {
      PersistTxnStateKept(w, PrimaryOf(obs).value.id, d.next.value, d.code);
    }
  }

  lemma PersistActivatingKept(w: World, obs: Observation)
    requires Filed(w)
    ensures Kept(w, PersistActivatingPrimary(w, obs).world, [])
  {
    hide Kept, Filed, Save, PrimaryOf;
    KeptSelf(w, w);
    if PrimaryOf(obs).Some? && Load(w, PrimaryOf(obs).value.id).Some? {
      var i := IndexOf(w.txns, PrimaryOf(obs).value.id);
      SaveKept(w, i, SnapshotBefore(w.txns[i], obs.active).(state := State.Activating, updatedAt := w.clock));
    }
  }

  lemma ThenKept(w: World, e: Exec, obs: Observation, d: Decision)
    requires Filed(w) && Kept(w, e.world, [])
    ensures Kept(w, Then(e, obs, d).world, [])
  {
    hide Kept, Filed, PersistPrimary;
    KeptFiled(w, e.world, []);
    PersistPrimaryKept(e.world, obs, d);
    KeptThen(w, e.world, PersistPrimary(e.world, obs, d).world);
  }

  lemma ActivateActionKept(w: World, id: string)
    requires Filed(w) && Load(w, id).Some?
    ensures Kept(w, ActivateTxn(w, Load(w, id).value).world, [])
  {
    ActivateKept(w, IndexOf(w.txns, id));
  }

  /** The disk an action collects: only a reconciliation that commits does. */
  ghost function ActionCollections(cfg: Config, w: World, obs: Observation, d: Decision): seq<World> {
    if d.action != ReconcileEnv then []
    else
      var marked := PersistPrimary(w, obs, d);
      if !marked.ok || PrimaryOf(obs).None? then []
            else ReconcileCollections(cfg, marked.world, PrimaryOf(obs).value.id)
  }

  /** One recovery action, successful or not, accounts for every non-empty tree. */
  lemma ExecuteKept(cfg: Config, w: World, obs: Observation, d: Decision)
    requires Filed(w) && obs == Observe(cfg, w)
    ensures Kept(w, Execute(cfg, w, obs, d).world, ActionCollections(cfg, w, obs, d))
  {
    hide Kept, Filed, Observe, PersistPrimary, PersistActivatingPrimary, ActivateTxn, Load, FailExtras,
      ReconcileEnvironment, RemoveEmptyStagingDir, RemoveEmptyGenerationDir, MoveStagingAside, RemoveProvenStaging,
      PrimaryOf, Then, ReconcileCollections;
    KeptSelf(w, w);
    PersistPrimaryKept(w, obs, d);
    match d.action
    case NoAction =>
    case RemoveEmptyStaging =>
      DirsKept(w, obs, d.action);
      ThenKept(w, RemoveEmptyStagingDir(w, obs), obs, d);
    case RemoveEmptyGeneration =>
      DirsKept(w, obs, d.action);
      ThenKept(w, RemoveEmptyGenerationDir(w, obs), obs, d);
    case MoveStagingToFailed =>
      DirsKept(w, obs, d.action);
      ThenKept(w, MoveStagingAside(w, obs), obs, d);
    case GCStaging => GCStagingKept(cfg, w, obs);
    case PersistPublished =>
    case PersistActivating => PersistActivatingKept(w, obs);
    case Activate =>
      if PrimaryOf(obs).Some? && Load(w, PrimaryOf(obs).value.id).Some? {
        ActivateActionKept(w, PrimaryOf(obs).value.id);
      }
    case FailFailableExtras => ExtrasKept(w, obs.transactions, |obs.transactions|);
    case ReconcileEnv =>
      var w1 := PersistPrimary(w, obs, d).world;
      KeptFiled(w, w1, []);
      if PrimaryOf(obs).Some? {
        var id := PrimaryOf(obs).value.id;
        ReconcileKept(cfg, w1, id);
        var disks := ReconcileCollections(cfg, w1, id);
        assert [] + disks == disks;
        KeptCompose(w, w1, [], ReconcileEnvironment(cfg, w1, id).world, disks);
      }
    case Commit => PersistPrimaryKept(w, obs, d.(next := Some(State.Committed)));
    case FailTransaction =>
    case DiagnoseRetain =>
    case BlockUnsafe =>
  }

  // ---------------------------------------------------------------- whole runs

  /** The disk when the loop is left, before the collection a READY end makes. */
  ghost function AtExit(cfg: Config, w: World, step: nat, prev: Decision): World
    requires step <= MAX_RECOVER_STEPS
    decreases MAX_RECOVER_STEPS - step
  {
    var obs := Observe(cfg, w);
    var d := DecisionFor(obs);
    if step == MAX_RECOVER_STEPS || Stops(step, prev, d) then w
    else
      var e := Execute(cfg, w, obs, d);
      if e.ok then AtExit(cfg, e.world, step + 1, d) else e.world
  }

  /** The disks collected before that, in order. */
  ghost function Collections(cfg: Config, w: World, step: nat, prev: Decision): seq<World>
    requires step <= MAX_RECOVER_STEPS
    decreases MAX_RECOVER_STEPS - step
  {
    var obs := Observe(cfg, w);
    var d := DecisionFor(obs);
    if step == MAX_RECOVER_STEPS || Stops(step, prev, d) then []
    else
      var e := Execute(cfg, w, obs, d);
      ActionCollections(cfg, w, obs, d) + if e.ok then Collections(cfg, e.world, step + 1, d) else []
  }

  /** The loop is left without executing the decision. */
  predicate Stops(step: nat, prev: Decision, d: Decision) {
    Blocks(d) || Rests(d) || (step > 0 && !ForwardOrNoop(prev, d))
  }

  /** The run ends with the disk at the exit of the loop, or with one collection of it when the gate is READY. */
  lemma {:induction false} RunEndsAtExit(cfg: Config, w: World, step: nat, prev: Decision)
    requires step <= MAX_RECOVER_STEPS
    ensures var r, exit := Recover(cfg, w, step, prev), AtExit(cfg, w, step, prev);
            r.world == if r.stop == Finished && r.gate == Ready then Collect(exit) else exit
    decreases MAX_RECOVER_STEPS - step
  {
    hide Observe, DecisionFor, Execute, Collect, ForwardOrNoop;
    if step < MAX_RECOVER_STEPS {
      var obs := Observe(cfg, w);
      var d := DecisionFor(obs);
      if !Stops(step, prev, d) && Execute(cfg, w, obs, d).ok {
        RunEndsAtExit(cfg, Execute(cfg, w, obs, d).world, step + 1, d);
      }
    }
  }

  /** Up to the exit of the loop only the listed collections delete a tree, and a superseded staging tree is cleared. */
  lemma {:induction false} ExitKeepsEvidence(cfg: Config, w: World, step: nat, prev: Decision)
    requires Filed(w) && step <= MAX_RECOVER_STEPS
    ensures Kept(w, AtExit(cfg, w, step, prev), Collections(cfg, w, step, prev))
    decreases MAX_RECOVER_STEPS - step
  {
    hide Kept, Filed, Observe, DecisionFor, Execute, ActionCollections, Stops;
    KeptSelf(w, w);
    if step < MAX_RECOVER_STEPS {
      var obs := Observe(cfg, w);
      var d := DecisionFor(obs);
      if !Stops(step, prev, d) {
        var e, disks := Execute(cfg, w, obs, d), ActionCollections(cfg, w, obs, d);
        ExecuteKept(cfg, w, obs, d);
        KeptFiled(w, e.world, disks);
        if e.ok {
          ExitKeepsEvidence(cfg, e.world, step + 1, d);
          KeptCompose(w, e.world, disks, AtExit(cfg, e.world, step + 1, d), Collections(cfg, e.world, step + 1, d));
        } else {
          assert disks + [] == disks;
        }
      }
    }
  }

  /** The last save on this disk committed a record. */
  ghost predicate JustCommitted(w: World) {
    exists i :: 0 <= i < |w.txns| && CommittedLast(w, w.txns[i])
  }

  predicate CommittedLast(w: World, t: Txn) {
    t.state == State.Committed && t.committedAt.Some? && w.clock == t.committedAt.value + 1
  }

  lemma CommitsCollect(cfg: Config, w: World, i: nat, r: ActiveRecord)
    requires Filed(w) && i < |w.txns|
    ensures forall k :: 0 <= k < |CommitCollections(cfg, w, w.txns[i], r)| ==>
              JustCommitted(CommitCollections(cfg, w, w.txns[i], r)[k])
  {
    hide Filed, CommitObserved, Persist, ValidTransaction;
    var u := CommittedRecord(w.txns[i], w.clock);
    IndexFinds(w, i);
    PersistReplaces(w, i, u);
    assert CommittedLast(Replace(w, i, u), Replace(w, i, u).txns[i]);
  }

  lemma ReconcilesCollect(cfg: Config, w: World, id: string)
    requires Filed(w)
    ensures forall k :: 0 <= k < |ReconcileCollections(cfg, w, id)| ==>
              JustCommitted(ReconcileCollections(cfg, w, id)[k])
  {
    hide Filed, ReconcileOnce, CommitCollections, JustCommitted, HasCommitted;
    if ReconcileCollections(cfg, w, id) != [] {
      var i := IndexOf(w.txns, id);
      var r := LoadActive(w).value;
      OnceTouchesEnvOnly(cfg, w, r, HasCommitted(w));
      var w1 := ReconcileOnce(cfg, w, r, HasCommitted(w)).world;
      OnceKept(cfg, w, r, HasCommitted(w));
      KeptFiled(w, w1, []);
      CommitsCollect(cfg, w1, i, r);
    }
  }

  lemma ActionsCollect(cfg: Config, w: World, obs: Observation, d: Decision)
    requires Filed(w)
    ensures forall k :: 0 <= k < |ActionCollections(cfg, w, obs, d)| ==>
              JustCommitted(ActionCollections(cfg, w, obs, d)[k])
  {
    hide Filed, PersistPrimary, PrimaryOf, JustCommitted, ReconcileCollections;
    if ActionCollections(cfg, w, obs, d) != [] {
      PersistPrimaryKept(w, obs, d);
      KeptFiled(w, PersistPrimary(w, obs, d).world, []);
      ReconcilesCollect(cfg, PersistPrimary(w, obs, d).world, PrimaryOf(obs).value.id);
    }
  }

  /** Only a commit collects before the exit of the loop. */
  lemma {:induction false} OnlyCommitsCollect(cfg: Config, w: World, step: nat, prev: Decision)
    requires Filed(w) && step <= MAX_RECOVER_STEPS
    ensures forall k :: 0 <= k < |Collections(cfg, w, step, prev)| ==> JustCommitted(Collections(cfg, w, step, prev)[k])
    decreases MAX_RECOVER_STEPS - step
  {
    hide Filed, Observe, DecisionFor, Execute, ActionCollections, Stops, JustCommitted;
    if step < MAX_RECOVER_STEPS {
      var obs := Observe(cfg, w);
      var d := DecisionFor(obs);
      if !Stops(step, prev, d) {
        ActionsCollect(cfg, w, obs, d);
        ExecuteKept(cfg, w, obs, d);
        KeptFiled(w, Execute(cfg, w, obs, d).world, ActionCollections(cfg, w, obs, d));
        if Execute(cfg, w, obs, d).ok {
          OnlyCommitsCollect(cfg, Execute(cfg, w, obs, d).world, step + 1, d);
        }
      }
    }
  }

  ghost function ExitDisk(cfg: Config, w: World): World {
    AtExit(cfg, w, 0, NoDecision)
  }

  ghost function CollectedOnTheWay(cfg: Config, w: World): seq<World> {
    Collections(cfg, w, 0, NoDecision)
  }

  /**
   * Recovery destroys no evidence, from any disk and with any environment. Before the final collection every non-empty
   * tree is in place, under failed/, or was a staging tree whose own record already had a sealed generation, unless a
   * commit on the way collected it: proven and not protected on the very disk of that commit. The final collection,
   * made only when the gate is READY, again deletes proven and unprotected trees alone.
   */
  lemma RecoveryKeepsEvidence(cfg: Config, w: World)
    requires Filed(w)
    ensures Kept(w, ExitDisk(cfg, w), CollectedOnTheWay(cfg, w))
    ensures forall k :: 0 <= k < |CollectedOnTheWay(cfg, w)| ==> JustCommitted(CollectedOnTheWay(cfg, w)[k])
    ensures var r, exit := RecoverWith(cfg, w), ExitDisk(cfg, w);
            if r.stop == Finished && r.gate == Ready then
              r.world == Collect(exit) && Kept(w, r.world, CollectedOnTheWay(cfg, w) + [exit])
            else
              r.world == exit
  {
    hide Kept, Filed, JustCommitted, AtExit, Collections, Collect, Recover;
    var exit, disks := ExitDisk(cfg, w), CollectedOnTheWay(cfg, w);
    ExitKeepsEvidence(cfg, w, 0, NoDecision);
    OnlyCommitsCollect(cfg, w, 0, NoDecision);
    RunEndsAtExit(cfg, w, 0, NoDecision);
    KeptFiled(w, exit, disks);
    CollectKept(exit);
    KeptCompose(w, exit, disks, Collect(exit), [exit]);
  }

  /** Without a commit on the way, nothing is deleted before the final collection but superseded staging trees. */
  lemma WithoutCommitNothingIsDeleted(cfg: Config, w: World, p: Place, tree: Tree)
    requires Filed(w) && TreeAt(w, p) == Some(tree) && tree != map[]
    requires CollectedOnTheWay(cfg, w) == []
    ensures var exit := ExitDisk(cfg, w);
            || TreeAt(exit, p) == Some(tree)
            || (p.StagingAt? && TreeAt(exit, FailedAt(p.id)) == Some(tree))
            || Obsolete(w, p, tree)
  {
    hide Filed, SameRecords, Obsolete, ExitDisk, CollectedOnTheWay;
    RecoveryKeepsEvidence(cfg, w);
    assert Accounted(w, p, tree, ExitDisk(cfg, w), []);
  }

  // ---------------------------------------------------------------- disks on which nothing can commit

  /**
   * Each record is CREATED, BUILDING or terminal, and only a COMMITTED one is named by active.json: what a look at the
   * disk before the recovery shows.
   */
  predicate NothingToCommit(w: World) {
    forall i :: 0 <= i < |w.txns| ==> NoCommitPending(w, w.txns[i])
  }

  predicate NoCommitPending(w: World, t: Txn) {
    && (Failable(t.state) || Terminal(t.state))
    && (w.active.ActiveFile? && w.active.record.generationId == t.generationId ==> t.state == State.Committed)
  }

  /** The pointer is the same, and a record that changed its state was failable and has FAILED. */
  predicate OnlyFails(w: World, w': World) {
    && w'.active == w.active && |w'.txns| == |w.txns|
    && forall i :: 0 <= i < |w.txns| ==>
         w'.txns[i].generationId == w.txns[i].generationId
         && (w'.txns[i].state == w.txns[i].state || (Failable(w.txns[i].state) && w'.txns[i].state == State.Failed))
  }

  lemma FailingCommitsNothing(w: World, w': World)
    requires NothingToCommit(w) && OnlyFails(w, w')
    ensures NothingToCommit(w')
  {
    forall i | 0 <= i < |w'.txns| ensures NoCommitPending(w', w'.txns[i]) {
      assert NoCommitPending(w, w.txns[i]);
    }
  }

  lemma PersistOnlyFails(w: World, w1: World, i: nat, code: Code)
    requires i < |w.txns| && Failable(w.txns[i].state) && w1.txns == w.txns && w1.active == w.active && Distinct(w1)
    ensures OnlyFails(w, PersistTxnState(w1, w1.txns[i].id, State.Failed, code).world)
  {
    hide Distinct, PersistTxnState;
    PersistRestates(w1, i, State.Failed, code);
  }

  lemma KeptDistinct(w: World, w': World, disks: seq<World>)
    requires Distinct(w) && Kept(w, w', disks)
    ensures Distinct(w')
  {
    hide Distinct, SameRecords;
    SameRecordsDistinct(w, w');
  }

  lemma ClearedDistinct(w: World, obs: Observation, action: Action)
    requires Distinct(w)
    ensures var w1 := ClearDirs(w, obs, action).world; Distinct(w1) && w1.txns == w.txns && w1.active == w.active
  {
    hide Kept, Filed;
    DirsKept(w, obs, action);
    KeptDistinct(w, ClearDirs(w, obs, action).world, []);
  }

  lemma FailableHarmless(cfg: Config, w: World, i: nat, obs: Observation, d: Decision)
    requires i < |w.txns| && Distinct(w) && Readable(w) && SoleTxn(w, i) && Failable(w.txns[i].state)
    requires DecidedAs(cfg, w, obs, d) && !Blocks(d)
    ensures d.action != ReconcileEnv && OnlyFails(w, Execute(cfg, w, obs, d).world)
  {
    hide DecidedAs, Distinct, Readable, SoleTxn, PersistTxnState, PrimaryOf, Primary, ObserveTree, ReadActive,
      ReconcileEnvironment, ActivateTxn, FailExtras, ObserveEnvironment;
    ObserveSole(cfg, w, i, obs, d);
    assert PrimaryOf(obs) == Some(ViewOf(w.txns[i])) by { PrimaryIsShown(cfg, w, w.txns[i], obs); }
    ClearedDistinct(w, obs, d.action);
    PersistOnlyFails(w, ClearDirs(w, obs, d.action).world, i, d.code);
  }

  lemma PrimaryIsShown(cfg: Config, w: World, t: Txn, obs: Observation)
    requires Shows(cfg, w, t, obs)
    ensures PrimaryOf(obs) == Some(ViewOf(t))
  {
  }

  lemma ExtrasOnlyFail(w: World, w': World)
    requires ExtrasFailed(w, |w.txns|, w')
    ensures OnlyFails(w, w')
  {
  }

  lemma ManyHarmless(cfg: Config, w: World, obs: Observation, d: Decision)
    requires Distinct(w) && Readable(w) && HasNonterminal(w) && forall i :: !SoleTxn(w, i)
    requires DecidedAs(cfg, w, obs, d) && !Blocks(d)
    ensures d.action != ReconcileEnv && OnlyFails(w, Execute(cfg, w, obs, d).world)
  {
    hide DecidedAs, Distinct, HasFailable, SoleTxn, FailExtras, ExtrasFailed, OnlyFails, ReadActive,
      ReconcileEnvironment, ActivateTxn, HasNonterminal, PersistPrimary, PersistActivatingPrimary, RemoveEmptyStagingDir,
      RemoveEmptyGenerationDir, MoveStagingAside, RemoveProvenStaging, Then, PrimaryOf, ValidTransaction;
    ObserveMany(cfg, w, obs, d);
    ViewsOfWorld(w);
    FailExtrasRuns(w, obs.transactions, |w.txns|);
    ExtrasOnlyFail(w, FailExtras(w, obs.transactions, |w.txns|).world);
  }

  /** A named COMMITTED record is reconciled without a collection. */
  lemma NamedHarmless(cfg: Config, w: World, k: nat, obs: Observation, d: Decision)
    requires Distinct(w) && Readable(w) && !HasNonterminal(w) && NamedTxn(w, k)
    requires k < |w.txns| && w.txns[k].state == State.Committed
    requires DecidedAs(cfg, w, obs, d) && !Blocks(d) && !Rests(d)
    ensures ActionCollections(cfg, w, obs, d) == [] && OnlyFails(w, Execute(cfg, w, obs, d).world)
  {
    hide DecidedAs, Filed, Readable, HasNonterminal, NamedTxn, PrimaryOf, Primary, ReadActive, PersistTxnState,
      ActivateTxn, FailExtras, ObserveTree, ReconcileOnce, ObserveEnvironment, CommitAndCollect, CommitCollections;
    NamedBound(w, k);
    ObserveNamed(cfg, w, k, obs, d);
    PrimaryIsShown(cfg, w, w.txns[k], obs);
    IndexFinds(w, k);
    if d.action == ReconcileEnv && LoadActive(w).Some? {
      var r := LoadActive(w).value;
      OnceTouchesEnvOnly(cfg, w, r, true);
      OnceTouchesEnvOnly(cfg, ReconcileOnce(cfg, w, r, true).world, r, true);
    }
  }

  lemma NamedBound(w: World, k: int)
    requires NamedTxn(w, k)
    ensures 0 <= k < |w.txns| && w.active.ActiveFile? && w.active.record.generationId == w.txns[k].generationId
  {
  }

  lemma StepHarmless(cfg: Config, w: World, obs: Observation, d: Decision)
    requires Distinct(w) && NothingToCommit(w) && DecidedAs(cfg, w, obs, d) && !Blocks(d) && !Rests(d)
    ensures ActionCollections(cfg, w, obs, d) == [] && NothingToCommit(Execute(cfg, w, obs, d).world)
  {
    hide DecidedAs, Distinct, Readable, HasNonterminal, NamedTxn, Execute, ReconcileCollections, PersistPrimary,
      PrimaryOf, OnlyFails, Blocks, Rests;
    if !Readable(w) {
      UnreadableBlocks(cfg, w, obs, d);
      BlockedBlocks();
    } else if exists i :: SoleTxn(w, i) {
      var i :| SoleTxn(w, i);
      assert NoCommitPending(w, w.txns[i]);
      FailableHarmless(cfg, w, i, obs, d);
    } else if HasNonterminal(w) {
      ManyHarmless(cfg, w, obs, d);
    } else if exists k :: NamedTxn(w, k) {
      var k :| NamedTxn(w, k);
      NamedBound(w, k);
      assert NoCommitPending(w, w.txns[k]);
      NamedHarmless(cfg, w, k, obs, d);
    } else {
      ObserveUnnamed(cfg, w, obs, d);
      RestingRests(d);
    }
    FailingCommitsNothing(w, Execute(cfg, w, obs, d).world);
  }

  lemma BlockedBlocks()
    ensures Blocks(Blocked())
  {
  }

  lemma RestingRests(d: Decision)
    requires d.next.None? && (d.action == NoAction || d.action == DiagnoseRetain)
    ensures Rests(d)
  {
  }

  lemma {:induction false} NothingIsCollected(cfg: Config, w: World, step: nat, prev: Decision)
    requires Distinct(w) && NothingToCommit(w) && step <= MAX_RECOVER_STEPS
    ensures Collections(cfg, w, step, prev) == []
    decreases MAX_RECOVER_STEPS - step
  {
    hide Filed, NothingToCommit, Observe, DecisionFor, Execute, ActionCollections;
    if step < MAX_RECOVER_STEPS {
      var obs := Observe(cfg, w);
      var d := DecisionFor(obs);
      if !Stops(step, prev, d) {
        assert DecidedAs(cfg, w, obs, d);
        StepHarmless(cfg, w, obs, d);
        ExecuteKept(cfg, w, obs, d);
        var w1 := Execute(cfg, w, obs, d).world;
        KeptDistinct(w, w1, ActionCollections(cfg, w, obs, d));
        if Execute(cfg, w, obs, d).ok {
          NothingIsCollected(cfg, w1, step + 1, d);
        }
      }
    }
  }

  /**
   * The strict form, from a condition on the disk and with any environment: where nothing can commit, recovery deletes
   * no non-empty tree before its final collection but superseded staging trees.
   */
  lemma NothingToCommitKeepsTrees(cfg: Config, w: World, p: Place, tree: Tree)
    requires Distinct(w) && NothingToCommit(w) && TreeAt(w, p) == Some(tree) && tree != map[]
    ensures var exit := ExitDisk(cfg, w);
            || TreeAt(exit, p) == Some(tree)
            || (p.StagingAt? && TreeAt(exit, FailedAt(p.id)) == Some(tree))
            || Obsolete(w, p, tree)
  {
    hide Filed, NothingToCommit, Obsolete, AtExit, Collections;
    NothingIsCollected(cfg, w, 0, NoDecision);
    WithoutCommitNothingIsDeleted(cfg, w, p, tree);
  }
}
