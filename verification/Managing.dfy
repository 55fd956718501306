/** The install manager on a disk: every durable write is a step of the protocol. */
module Managing {
  import opened InstallTypes
  import opened Seal
  import opened World
  import opened Collector
  import opened Recovery
  import opened ObservedWorlds
  import opened Reconcile
  import opened Runs
  import opened Safety
  import opened Refinement
  import opened Convergence
  import opened Evidence
  import opened Activation
  import opened Paths
  import opened Store
  import opened Recovering

  // ---------------------------------------------------------------- one durable write, one step

  lemma ReachableInv(cfg: Config, start: World, run: seq<Act>, w: World)
    requires Initial(start) && Run(cfg, start, run, w)
    ensures Inv(w)
  {
    hide Initial, Run, Inv;
    InitialInv(start);
    RunKeeps(cfg, start, run, w);
  }

  lemma RunExtends(cfg: Config, start: World, run: seq<Act>, w: World, act: Act)
    requires Run(cfg, start, run, w) && Enabled(cfg, w, act)
    ensures Run(cfg, start, run + [act], After(w, act))
  {
    hide Enabled, After;
    assert [act][1..] == [];
    assert Run(cfg, After(w, act), [act][1..], After(w, act));
    assert Run(cfg, w, [act], After(w, act));
    RunsCompose(cfg, start, run, w, [act], After(w, act));
  }

  /** Records that the write just made was this step. */
  ghost method Took(disk: Disk, w: World, act: Act)
    requires Initial(disk.start) && Run(disk.cfg, disk.start, disk.run, w)
    requires Enabled(disk.cfg, w, act) && disk.Snapshot() == After(w, act)
    modifies disk`run
    ensures disk.Reachable() && disk.run == old(disk.run) + [act] && Inv(disk.Snapshot())
  {
    hide Run, Enabled, After, Initial, Inv;
    RunExtends(disk.cfg, disk.start, disk.run, w, act);
    disk.run := disk.run + [act];
    ReachableInv(disk.cfg, disk.start, disk.run, disk.Snapshot());
  }

  lemma ChangedIsValid(cfg: Config, w: World, act: Act)
    requires Inv(w) && SavesOn(act) && Enabled(cfg, w, act)
    ensures Distinct(w) && act.i < |w.txns|
    ensures ValidTransaction(Changed(w, w.txns[act.i], act))
    ensures Changed(w, w.txns[act.i], act).id == w.txns[act.i].id
    ensures Changed(w, w.txns[act.i], act).revision == w.txns[act.i].revision
  {
    hide Inv, Moves, ReadActive, ValidTransaction, CommitObserved, TreeVerifies, Names;
    InvSingle(w);
    var i := act.i;
    match act
    case MarkActive(_, stamp) => MarkMoves(w, i, stamp); MovesValid(w, i, Changed(w, w.txns[i], act));
    case StampActive(_, at) => StampMoves(w, i, at); MovesValid(w, i, Changed(w, w.txns[i], act));
    case CommitRecord(_) => CommitMoves(w, i); MovesValid(w, i, Changed(w, w.txns[i], act));
    case BeginBuild(_) => EarlyMoves(cfg, w, i, act); MovesValid(w, i, Changed(w, w.txns[i], act));
    case SealRecord(_, _, _) => EarlyMoves(cfg, w, i, act); MovesValid(w, i, Changed(w, w.txns[i], act));
    case PublishRecord(_) => EarlyMoves(cfg, w, i, act); MovesValid(w, i, Changed(w, w.txns[i], act));
    case FailRecord(_, _) => EarlyMoves(cfg, w, i, act); MovesValid(w, i, Changed(w, w.txns[i], act));
    case CreateRecord(_) =>
    case WriteEnvironment(_) =>
    case Reclaim(_, _, _) =>
    case WriteTree(_, _) =>
    case SwingPointer(_) =>
  }

  lemma ReplacedRecord(w: World, i: nat, u: Txn)
    requires i < |w.txns|
    ensures Replace(w, i, u).txns[i] == u.(revision := w.txns[i].revision + 1)
    ensures |Replace(w, i, u).txns| == |w.txns| && Replace(w, i, u).generations == w.generations
  {
  }

  /** persist under the lock: the record the manager holds is the one on disk, so the save goes through. */
  method PersistStep(disk: Disk, t: Txn, ghost act: Act) returns (t': Txn)
    requires disk.Reachable() && SavesOn(act) && Enabled(disk.cfg, disk.Snapshot(), act)
    requires t == Changed(disk.Snapshot(), disk.txns[act.i], act)
    modifies disk`txns, disk`clock, disk`run
    ensures disk.Reachable() && disk.run == old(disk.run) + [act] && Inv(disk.Snapshot())
    ensures disk.Snapshot() == Replace(old(disk.Snapshot()), act.i, t)
    ensures t' == t.(revision := t.revision + 1) == disk.txns[act.i] && |disk.txns| == |old(disk.txns)|
  {
    hide Run, Enabled, Initial, Inv, Changed, Persist;
    ghost var w := disk.Snapshot();
    ReachableInv(disk.cfg, disk.start, disk.run, w);
    ChangedIsValid(disk.cfg, w, act);
    PersistReplaces(w, act.i, t);
    var ok;
    t', ok := disk.PersistTransaction(t);
    ReplacedRecord(w, act.i, t);
    assert disk.Snapshot() == After(w, act);
    Took(disk, w, act);
  }

  /** The manager holds the record of the build in progress as it is on disk. */
  ghost predicate Holds(disk: Disk, i: nat, t: Txn)
    reads disk
  {
    disk.Reachable() && i < |disk.txns| && disk.txns[i] == t && t.state == Building
  }

  /** A durable change under the generation directory of the build in progress. */
  method WriteTreeStep(disk: Disk, t: Txn, found: Option<Tree>, ghost i: nat)
    requires Holds(disk, i, t)
    requires found.Some? ==> BuildTreeOk(found.value, t)
    modifies disk`generations, disk`run
    ensures Holds(disk, i, t) && disk.run == old(disk.run) + [WriteTree(i, found)]
    ensures disk.generations == SetTree(old(disk.generations), t.generationId, found)
  {
    hide Run, Initial, Inv, BuildTreeOk;
    ghost var w := disk.Snapshot();
    if found.Some? {
      disk.generations := disk.generations[t.generationId := found.value];
    } else {
      disk.generations := disk.generations - {t.generationId};
    }
    Took(disk, w, WriteTree(i, found));
  }

  // ---------------------------------------------------------------- starting an install

  /** FailFailableNonterminals on the first n views: stops at the first record it cannot read or save. */
  function FailAll(w: World, views: seq<View>, n: nat, now: Time): Exec
    requires n <= |views|
  {
    if n == 0 then Exec(w, true)
    else
      var before := FailAll(w, views, n - 1, now);
      var v := views[n - 1];
      if !before.ok || v.Malformed? || !Failable(v.state) then before
      else
        match Load(before.world, v.id)
        case None => Exec(before.world, false)
        case Some(t) => Save(before.world, t.(state := State.Failed, errorCode := Interrupted, updatedAt := now))
  }

  lemma {:induction false} FailAllStops(w: World, views: seq<View>, i: nat, n: nat, now: Time)
    requires i <= n <= |views|
    ensures !FailAll(w, views, i, now).ok ==> FailAll(w, views, n, now) == FailAll(w, views, i, now)
  {
    hide Save;
    if i < n {
      FailAllStops(w, views, i, n - 1, now);
    }
  }

  method FailFailableNonterminals(disk: Disk, now: Time) returns (ok: bool)
    modifies disk`txns, disk`clock
    ensures Exec(disk.Snapshot(), ok) ==
              FailAll(old(disk.Snapshot()), Views(old(disk.Snapshot())), |Views(old(disk.Snapshot()))|, now)
  {
    hide Save, Load;
    ghost var w := disk.Snapshot();
    var views := disk.InspectTransactions();
    ok := true;
    var i := 0;
    while i < |views| && ok
      invariant 0 <= i <= |views|
      invariant Exec(disk.Snapshot(), ok) == FailAll(w, views, i, now)
    {
      if views[i].View? && Failable(views[i].state) {
        var loaded := disk.LoadTransaction(views[i].id);
        if loaded.None? {
          ok := false;
        } else {
          ok := disk.SaveTransaction(loaded.value.(state := State.Failed, errorCode := Interrupted, updatedAt := now));
        }
      }
      i := i + 1;
    }
    FailAllStops(w, views, i, |views|, now);
  }

  /** On a reachable disk it fails the one CREATED or BUILDING record there may be, and nothing else. */
  lemma {:induction false} FailAllFailsOne(w: World, i: nat, n: nat)
    requires Inv(w) && i < |w.txns| && Failable(w.txns[i].state) && n <= |w.txns|
    ensures FailAll(w, Views(w), n, w.clock) ==
              Exec(if i < n then Replace(w, i, WithState(w.txns[i], State.Failed, Interrupted, w.clock)) else w, true)
  {
    hide Inv, Save, Load, ValidTransaction, Replace;
    if n > 0 {
      FailAllFailsOne(w, i, n - 1);
      if n - 1 == i {
        FailSaved(w, i);
      } else {
        InvSingle(w);
        assert Nonterminal(w.txns[i]);
        assert !Failable(w.txns[n - 1].state);
      }
    }
  }

  lemma FailSaved(w: World, i: nat)
    requires Inv(w) && i < |w.txns| && Failable(w.txns[i].state)
    ensures var t := w.txns[i]; var u := t.(state := State.Failed, errorCode := Interrupted, updatedAt := w.clock);
            && u == WithState(t, State.Failed, Interrupted, w.clock)
            && Load(w, t.id) == Some(t) && Save(w, u) == Exec(Replace(w, i, u), true)
  {
    hide Inv, Save;
    InvSingle(w);
    RecordAt(w, i);
    SaveReplaces(w, i, w.txns[i].(state := State.Failed, errorCode := Interrupted, updatedAt := w.clock));
  }

  lemma {:induction false} FailAllFailsNone(w: World, n: nat)
    requires !HasFailable(w) && n <= |w.txns|
    ensures FailAll(w, Views(w), n, w.clock) == Exec(w, true)
  {
    hide Save, Load;
    if n > 0 {
      FailAllFailsNone(w, n - 1);
    }
  }

  /** The record another install may not start over: SEALED, PUBLISHED or ACTIVATING. */
  ghost predicate MustFinish(w: World) {
    exists i :: 0 <= i < |w.txns| && Nonterminal(w.txns[i]) && !Failable(w.txns[i].state)
  }

  /** Each CREATED or BUILDING record is FAILED as interrupted; every other record is as it was. */
  ghost predicate LeftoversFail(w: World, w': World) {
    && |w'.txns| >= |w.txns| && w'.history == w.history
    && forall j :: 0 <= j < |w.txns| ==>
         if Failable(w.txns[j].state) then
           w'.txns[j].state == State.Failed && w'.txns[j].errorCode == Interrupted && SameBuild(w.txns[j], w'.txns[j])
         else w'.txns[j] == w.txns[j]
  }

  lemma FailAllOutcome(cfg: Config, start: World, run: seq<Act>, w: World) returns (acts: seq<Act>)
    requires Initial(start) && Run(cfg, start, run, w)
    ensures var e := FailAll(w, Views(w), |Views(w)|, w.clock);
            && e.ok && Run(cfg, start, run + acts, e.world)
            && (MustFinish(w) ==> e.world == w && HasNonterminal(w))
            && (!MustFinish(w) ==> !HasNonterminal(e.world))
            && SameIdentifiers(w, e.world) && e.world.clock >= w.clock && LeftoversFail(w, e.world)
  {
    hide Run, Initial, Inv, Replace, WithState, FailAll, Enabled, After, Views, ValidTransaction;
    ReachableInv(cfg, start, run, w);
    InvSingle(w);
    if HasFailable(w) {
      var i :| 0 <= i < |w.txns| && Failable(w.txns[i].state);
      FailAllFailsOne(w, i, |w.txns|);
      assert Nonterminal(w.txns[i]);
      acts := [FailRecord(i, Interrupted)];
      FailEnabled(cfg, w, i);
      RunExtends(cfg, start, run, w, FailRecord(i, Interrupted));
      FailedAlone(w, i);
    } else {
      FailAllFailsNone(w, |w.txns|);
      acts := [];
      assert run + acts == run;
      assert HasNonterminal(w) ==> MustFinish(w);
    }
  }

  /** Records keep their identifiers and no directory moved: fresh identifiers stay fresh. */
  predicate SameIdentifiers(w: World, w': World) {
    && |w'.txns| == |w.txns|
    && (forall i :: 0 <= i < |w.txns| ==>
          w'.txns[i].id == w.txns[i].id && w'.txns[i].generationId == w.txns[i].generationId)
    && w'.staging == w.staging && w'.failed == w.failed && w'.generations == w.generations
  }

  lemma FailEnabled(cfg: Config, w: World, i: nat)
    requires Inv(w) && i < |w.txns| && Failable(w.txns[i].state)
    ensures Enabled(cfg, w, FailRecord(i, Interrupted))
    ensures After(w, FailRecord(i, Interrupted)) ==
              Replace(w, i, WithState(w.txns[i], State.Failed, Interrupted, w.clock))
  {
    hide Inv, ReadActive, Names;
    NotNamed(w, i);
  }

  lemma FailedAlone(w: World, i: nat)
    requires AtMostOne(w.txns) && i < |w.txns| && Nonterminal(w.txns[i]) && Failable(w.txns[i].state)
    ensures var w' := Replace(w, i, WithState(w.txns[i], State.Failed, Interrupted, w.clock));
            && !HasNonterminal(w') && !MustFinish(w) && SameIdentifiers(w, w') && w'.clock >= w.clock
            && LeftoversFail(w, w')
  {
  }

  lemma UnusedStays(w: World, w': World, t: Txn)
    requires Unused(w, t) && SameIdentifiers(w, w')
    ensures Unused(w', t)
  {
  }

  lemma FreshSaves(w: World, t: Txn)
    requires Unused(w, t) && t.revision == 0 && ValidTransaction(t) && w.malformed == []
    ensures Save(w, t) == Exec(After(w, CreateRecord(t)), true)
    ensures Load(After(w, CreateRecord(t)), t.id) == Some(t.(revision := 1))
  {
    hide ValidTransaction;
    var w' := After(w, CreateRecord(t));
    assert w'.txns[|w.txns|].id == t.id;
    var k := IndexOf(w'.txns, t.id);
    assert forall j :: 0 <= j < |w.txns| ==> w'.txns[j].id == w.txns[j].id != t.id;
  }

  lemma CreateEnabled(cfg: Config, w: World, t: Txn)
    requires Inv(w) && t.revision == 0 && ValidTransaction(t) && t.state == Created && FreshRecord(t)
    requires t.updatedAt <= w.clock
    requires Unused(w, t) && !HasNonterminal(w)
    ensures Enabled(cfg, w, CreateRecord(t)) && w.malformed == [] && !ReadActive(w).Invalid?
  {
    hide Inv, ReadActive, ValidTransaction, FreshRecord;
    ReachableReadable(w);
  }

  /**
   * persistCreatedTransaction: under the lock, failable leftovers become FAILED; a record that must finish rejects the
   * install and leaves the disk as it was; otherwise the new CREATED record is the only nonterminal one.
   */
  method StartInstall(disk: Disk, t: Txn) returns (r: Option<Txn>)
    requires disk.Reachable()
    requires t.revision == 0 && ValidTransaction(t) && t.state == Created && FreshRecord(t) && t.updatedAt <= disk.clock
    requires Unused(disk.Snapshot(), t)
    modifies disk`txns, disk`clock, disk`run
    ensures disk.Reachable() && old(disk.run) <= disk.run
    ensures r.None? <==> MustFinish(old(disk.Snapshot()))
    ensures r.None? ==> disk.Snapshot() == old(disk.Snapshot())
    ensures r.Some? ==> r.value == t.(revision := 1) && |disk.txns| == |old(disk.txns)| + 1
    ensures r.Some? ==> disk.txns[|old(disk.txns)|] == r.value
    ensures r.Some? ==> SoleTxn(disk.Snapshot(), |old(disk.txns)|)
    ensures LeftoversFail(old(disk.Snapshot()), disk.Snapshot())
  {
    hide Run, Initial, Inv, FailAll, MustFinish, Unused, SameIdentifiers, ValidTransaction, FreshRecord, Enabled,
      ReadActive, HasNonterminal, SoleTxn;
    ghost var w := disk.Snapshot();
    ReachableInv(disk.cfg, disk.start, disk.run, w);
    var pointer := disk.ReadActivePointer();
    ReachableReadable(w);
    if pointer.Invalid? {
      assert false;
    }
    var swept := FailFailableNonterminals(disk, disk.clock);
    ghost var acts := FailAllOutcome(disk.cfg, disk.start, disk.run, w);
    disk.run := disk.run + acts;
    var busy := disk.HasNonterminalRecord();
    if busy {
      return None;
    }
    ghost var w1 := disk.Snapshot();
    ReachableInv(disk.cfg, disk.start, disk.run, w1);
    UnusedStays(w, w1, t);
    CreateEnabled(disk.cfg, w1, t);
    FreshSaves(w1, t);
    SameCount(w, w1);
    var saved := disk.SaveTransaction(t);
    Took(disk, w1, CreateRecord(t));
    OnlyCreated(disk.Snapshot(), |w.txns|);
    r := disk.LoadTransaction(t.id);
  }

  lemma SameCount(w: World, w': World)
    requires SameIdentifiers(w, w')
    ensures |w'.txns| == |w.txns|
  {
  }

  lemma OnlyCreated(w: World, i: nat)
    requires Inv(w) && i < |w.txns| && Nonterminal(w.txns[i])
    ensures SoleTxn(w, i)
  {
  }

  // ---------------------------------------------------------------- building and sealing

  /** Every place where a build can go wrong: an operation that fails, a failpoint, or a cancellation. */
  datatype Point =
    | BeforeMkdir | CandidateWrite | CandidateSync | AfterMkdir | Cancelled
    | BuildFails | AfterBuild | BeforeValidate | ValidateFails
    | WalkFails | AfterWalk | ManifestWrite | ManifestSync | AfterManifest | BeforeGeneration | LineageFails
    | GenerationWrite | GenerationSync | BeforeSecondWalk | SecondWalkFails

  /** One file the build callback writes, or removes. */
  datatype FileWrite = FileWrite(path: string, content: Option<Content>)

  predicate BuilderFile(path: string) {
    path != FILE_CANDIDATE && path != FILE_MANIFEST && path != FILE_GENERATION
  }

  function WriteFile(tree: Tree, f: FileWrite): Tree {
    match f.content
    case None => tree - {f.path}
    case Some(c) => tree[f.path := c]
  }

  function WriteFiles(tree: Tree, script: seq<FileWrite>, n: nat): Tree
    requires n <= |script|
  {
    if n == 0 then tree else WriteFile(WriteFiles(tree, script, n - 1), script[n - 1])
  }

  /** The tree of a build before it is sealed: the candidate record and what the callback wrote. */
  function Built(t: Txn, script: seq<FileWrite>): Tree {
    WriteFiles(map[FILE_CANDIDATE := CandidateOf(t)], script, |script|)
  }

  lemma WrittenTreeOk(tree: Tree, f: FileWrite, t: Txn)
    requires BuildTreeOk(tree, t) && FILE_CANDIDATE in tree && BuilderFile(f.path)
    ensures BuildTreeOk(WriteFile(tree, f), t) && FILE_CANDIDATE in WriteFile(tree, f)
    ensures FILE_GENERATION !in tree ==> FILE_GENERATION !in WriteFile(tree, f)
    ensures FILE_MANIFEST !in tree ==> FILE_MANIFEST !in WriteFile(tree, f)
  {
  }

  ghost predicate HoldsTree(disk: Disk, i: nat, t: Txn, tree: Tree)
    reads disk
  {
    Holds(disk, i, t) && t.generationId in disk.generations && disk.generations[t.generationId] == tree
          && BuildTreeOk(tree, t)
  }

  lemma CandidateTreesOk(temp: string, t: Txn)
    requires TEMP_PREFIX <= temp
    ensures BuildTreeOk(map[], t) && BuildTreeOk(map[temp := CandidateOf(t)], t)
    ensures BuildTreeOk(map[FILE_CANDIDATE := CandidateOf(t)], t)
  {
    assert TEMP_PREFIX[7] == temp[7] == 'a';
    assert FILE_CANDIDATE[7] == 'c' && FILE_GENERATION[7] == 'i';
  }

  /** Where a failure means that the build was interrupted; anywhere later its result is not valid. */
  const BUILD_POINTS := {BeforeMkdir, CandidateWrite, CandidateSync, AfterMkdir, Cancelled, BuildFails, AfterBuild}

  /** The code a failed build records. */
  predicate RightCode(faults: set<Point>, code: Code) {
    && (Clean(faults, BUILD_POINTS) ==> code == SealInvalid)
    && (!Clean(faults, BUILD_POINTS) ==> code == Interrupted)
  }

  /** None of these points fails. */
  predicate Clean(faults: set<Point>, points: set<Point>) {
    forall p :: p in points ==> p !in faults
  }

  /** createFreshGenerationCandidate: mkdir, then the candidate record through a temporary file; undone on error. */
  method CreateCandidate(disk: Disk, t: Txn, temp: string, faults: set<Point>, ghost i: nat) returns (ok: bool)
    requires Holds(disk, i, t) && t.generationId !in disk.generations && TEMP_PREFIX <= temp
    modifies disk`generations, disk`run
    ensures Holds(disk, i, t) && old(disk.run) <= disk.run
    ensures ok <==> Clean(faults, {CandidateWrite, CandidateSync})
    ensures ok ==> HoldsTree(disk, i, t, map[FILE_CANDIDATE := CandidateOf(t)])
    ensures !ok ==> disk.generations == old(disk.generations)
  {
    hide Holds, BuildTreeOk, CandidateOf;
    CandidateTreesOk(temp, t);
    WriteTreeStep(disk, t, Some(map[]), i);
    WriteTreeStep(disk, t, Some(map[temp := CandidateOf(t)]), i);
    ok := true;
    if CandidateWrite in faults {
      WriteTreeStep(disk, t, None, i);
      return false;
    }
    WriteTreeStep(disk, t, Some(map[FILE_CANDIDATE := CandidateOf(t)]), i);
    if CandidateSync in faults {
      WriteTreeStep(disk, t, None, i);
      return false;
    }
  }

  /** The build callback: any files but the three records, each write durable on its own. */
  method RunBuild(disk: Disk, t: Txn, script: seq<FileWrite>, tree: Tree, ghost i: nat)
    requires HoldsTree(disk, i, t, tree) && FILE_CANDIDATE in tree && FILE_GENERATION !in tree && FILE_MANIFEST !in tree
    requires forall k :: 0 <= k < |script| ==> BuilderFile(script[k].path)
    modifies disk`generations, disk`run
    ensures HoldsTree(disk, i, t, WriteFiles(tree, script, |script|)) && old(disk.run) <= disk.run
    ensures var built := WriteFiles(tree, script, |script|);
            FILE_CANDIDATE in built && FILE_GENERATION !in built && FILE_MANIFEST !in built
  {
    hide Holds, BuildTreeOk;
    for k := 0 to |script|
      invariant HoldsTree(disk, i, t, WriteFiles(tree, script, k)) && old(disk.run) <= disk.run
      invariant var built := WriteFiles(tree, script, k);
                FILE_CANDIDATE in built && FILE_GENERATION !in built && FILE_MANIFEST !in built
    {
      var built := disk.generations[t.generationId];
      WrittenTreeOk(built, script[k], t);
      WriteTreeStep(disk, t, Some(WriteFile(built, script[k])), i);
    }
  }

  datatype SealResult = SealResult(manifestSha: Digest, sealSha: Digest)

  lemma SealFilesOk(tree: Tree, t: Txn, manifest: Content, generation: Content)
    requires BuildTreeOk(tree, t) && FILE_CANDIDATE in tree
    requires generation.GenerationJson? && generation.generation.generationId == t.generationId
    requires generation.generation.transactionId == t.id
    ensures BuildTreeOk(tree[FILE_MANIFEST := manifest], t)
    ensures BuildTreeOk(tree[FILE_MANIFEST := manifest][FILE_GENERATION := generation], t)
    ensures BuildTreeOk(tree[FILE_GENERATION := generation], t)
  {
  }

  const SEAL_POINTS := {WalkFails, AfterWalk, ManifestWrite, ManifestSync, AfterManifest, BeforeGeneration,
                        LineageFails, GenerationWrite, GenerationSync, BeforeSecondWalk, SecondWalkFails}

  /** A failed seal leaves its manifest only when the sync after the rename was what failed. */
  predicate ManifestStays(faults: set<Point>) {
    ManifestSync in faults && WalkFails !in faults && AfterWalk !in faults && ManifestWrite !in faults
  }

  /** It leaves its generation record, alone, only when that one's sync was what failed. */
  predicate GenerationStays(faults: set<Point>) {
    && GenerationSync in faults
    && Clean(faults, {WalkFails, AfterWalk, ManifestWrite, ManifestSync, AfterManifest, BeforeGeneration, LineageFails,
                      GenerationWrite})
  }

  /**
   * SealGeneration on a tree without seal files: walk, manifest, generation record, second walk. It succeeds exactly
   * when nothing fails, and then the tree carries a valid seal; a failure never changes a file it covers.
   */
  method SealGeneration(disk: Disk, t: Txn, lineage: string, faults: set<Point>, ghost i: nat)
    returns (r: Option<SealResult>)
    requires t.generationId in disk.generations && HoldsTree(disk, i, t, disk.generations[t.generationId])
    requires FILE_CANDIDATE in disk.generations[t.generationId] && ValidGenId(t.generationId)
    requires FILE_MANIFEST !in disk.generations[t.generationId] && FILE_GENERATION !in disk.generations[t.generationId]
    modifies disk`generations, disk`run
    ensures Holds(disk, i, t) && old(disk.run) <= disk.run && t.generationId in disk.generations
    ensures r.Some? <==> Clean(faults, SEAL_POINTS)
    ensures Payload(disk.generations[t.generationId]) == old(disk.generations[t.generationId])
    ensures r.None? ==>
              (FILE_MANIFEST in disk.generations[t.generationId] <==> ManifestStays(faults))
              && (FILE_GENERATION in disk.generations[t.generationId] <==> GenerationStays(faults))
    ensures r.Some? ==>
              (var was, now := old(disk.generations[t.generationId]), disk.generations[t.generationId];
               now == WithSeal(was, lineage, t.id, t.generationId)
               && VerifySealedTree(now, t.generationId, r.value.manifestSha, r.value.sealSha))
  {
    hide Holds, BuildTreeOk, VerifySealedTree, Listing, ValidGenId;
    var g := t.generationId;
    var tree := disk.generations[g];
    r := None;
    assert Payload(tree) == tree;
    var entries := WalkSealManifest(tree);
    if WalkFails in faults || AfterWalk in faults || ManifestWrite in faults {
      return;
    }
    var manifest := ManifestJson(ManifestFile(MANIFEST_SCHEMA, entries));
    var record := GenerationJson(GenerationRecord(lineage, t.id, g, GenerationRel(g), Sha256(manifest)));
    var listed := tree[FILE_MANIFEST := manifest];
    var sealed := listed[FILE_GENERATION := record];
    SealFilesOk(tree, t, manifest, record);
    assert Payload(listed) == tree && Payload(sealed) == tree;
    assert sealed == WithSeal(tree, lineage, t.id, g);
    WriteTreeStep(disk, t, Some(listed), i);
    if ManifestSync in faults {
      return;
    }
    if AfterManifest in faults || BeforeGeneration in faults || LineageFails in faults || GenerationWrite in faults {
      WriteTreeStep(disk, t, Some(tree), i);
      return;
    }
    WriteTreeStep(disk, t, Some(sealed), i);
    if GenerationSync in faults {
      var unlisted := tree[FILE_GENERATION := record];
      assert Payload(unlisted) == tree;
      WriteTreeStep(disk, t, Some(unlisted), i);
      return;
    }
    if BeforeSecondWalk in faults || SecondWalkFails in faults {
      WriteTreeStep(disk, t, Some(tree), i);
      return;
    }
    var again := WalkSealManifest(sealed);
    assert entries == again;
    SealedTreeVerifies(tree, lineage, t.id, g);
    r := Some(SealResult(Sha256(manifest), Sha256(record)));
    assert sealed[FILE_MANIFEST] == manifest && sealed[FILE_GENERATION] == record;
  }

  lemma HoldsFacts(disk: Disk, i: nat, t: Txn)
    requires Holds(disk, i, t)
    ensures disk.Reachable() && i < |disk.txns| && disk.txns[i] == t && t.state == Building && Inv(disk.Snapshot())
    ensures FreshRecord(t) && ValidTransaction(t) && ValidGenId(t.generationId)
    ensures LoadActive(disk.Snapshot()).Some? ==> LoadActive(disk.Snapshot()).value.generationId != t.generationId
  {
    hide Run, Initial, Inv;
    ReachableInv(disk.cfg, disk.start, disk.run, disk.Snapshot());
    RecordAt(disk.Snapshot(), i);
    NotNamed(disk.Snapshot(), i);
  }

  lemma TreeFacts(disk: Disk, i: nat, t: Txn, tree: Tree)
    requires HoldsTree(disk, i, t, tree)
    ensures t.generationId in disk.generations && disk.generations[t.generationId] == tree
    ensures FILE_CANDIDATE in tree ==> tree[FILE_CANDIDATE] == CandidateOf(t)
    ensures Holds(disk, i, t)
  {
  }

  /** Everything SealNew does between BUILDING and the final record. */
  method BuildCandidate(disk: Disk, t: Txn, temp: string, script: seq<FileWrite>, lineage: string, faults: set<Point>,
          ghost i: nat)
    returns (r: Option<SealResult>, code: Code)
    requires Holds(disk, i, t) && t.generationId !in disk.generations && TEMP_PREFIX <= temp
    requires forall k :: 0 <= k < |script| ==> BuilderFile(script[k].path)
    modifies disk`generations, disk`run
    ensures Holds(disk, i, t) && old(disk.run) <= disk.run
    ensures r.Some? <==> faults == {}
    ensures r.None? ==> RightCode(faults, code)
    ensures r.Some? ==>
              TreeVerifies(disk.Snapshot(), t.(manifestSha := r.value.manifestSha, sealSha := r.value.sealSha))
    ensures r.Some? ==>
              Payload(disk.generations[t.generationId]) == Built(t, script)
  {
    hide Holds, HoldsTree, VerifySealedTree, ValidGenId, CandidateOf, ReadsCandidate, WithSeal;
    r, code := None, Interrupted;
    if BeforeMkdir in faults {
      return;
    }
    var made := CreateCandidate(disk, t, temp, faults, i);
    if !made || AfterMkdir in faults || Cancelled in faults {
      return;
    }
    var tree := map[FILE_CANDIDATE := CandidateOf(t)];
    TreeFacts(disk, i, t, tree);
    RunBuild(disk, t, script, tree, i);
    ghost var built := WriteFiles(tree, script, |script|);
    TreeFacts(disk, i, t, built);
    if BuildFails in faults || AfterBuild in faults {
      return;
    }
    code := SealInvalid;
    if BeforeValidate in faults || ValidateFails in faults {
      return;
    }
    HoldsFactsOf(disk, i, t, built);
    var found := disk.generations[t.generationId];
    CandidateReads(t, found);
    if !ReadsCandidate(found) || found[FILE_CANDIDATE] != CandidateOf(t) {
      assert false;
    }
    r := SealGeneration(disk, t, lineage, faults, i);
    if r.Some? { AllPointsClean(faults); }
  }

  lemma HoldsFactsOf(disk: Disk, i: nat, t: Txn, tree: Tree)
    requires HoldsTree(disk, i, t, tree)
    ensures ValidTransaction(t) && ValidGenId(t.generationId) && HoldsTree(disk, i, t, disk.generations[t.generationId])
  {
    hide Inv, Names, BuildTreeOk;
    HoldsFacts(disk, i, t);
  }

  lemma AllPointsClean(faults: set<Point>)
    requires Clean(faults, SEAL_POINTS) && Clean(faults, {CandidateWrite, CandidateSync})
    requires Clean(faults, {BeforeMkdir, AfterMkdir, Cancelled, BuildFails, AfterBuild, BeforeValidate, ValidateFails})
    ensures faults == {}
  {
    forall p ensures p !in faults {
      match p
      case BeforeMkdir => case CandidateWrite => case CandidateSync => case AfterMkdir => case Cancelled =>
      case BuildFails => case AfterBuild => case BeforeValidate => case ValidateFails =>
      case WalkFails => assert p in SEAL_POINTS;
      case AfterWalk => assert p in SEAL_POINTS;
      case ManifestWrite => assert p in SEAL_POINTS;
      case ManifestSync => assert p in SEAL_POINTS;
      case AfterManifest => assert p in SEAL_POINTS;
      case BeforeGeneration => assert p in SEAL_POINTS;
      case LineageFails => assert p in SEAL_POINTS;
      case GenerationWrite => assert p in SEAL_POINTS;
      case GenerationSync => assert p in SEAL_POINTS;
      case BeforeSecondWalk => assert p in SEAL_POINTS;
      case SecondWalkFails => assert p in SEAL_POINTS;
    }
  }

  /** Manager.fail on a build: the pointer does not name it, so the record becomes FAILED. */
  method FailBuild(disk: Disk, t: Txn, code: Code, ghost i: nat) returns (t': Txn)
    requires Holds(disk, i, t)
    modifies disk`txns, disk`clock, disk`run
    ensures disk.Reachable() && old(disk.run) <= disk.run && |disk.txns| == |old(disk.txns)|
    ensures i < |disk.txns| && disk.txns[i] == t' && SameSource(t, t') && t'.state == State.Failed
    ensures t'.errorCode == code
  {
    hide Run, Initial, Inv, ValidTransaction, Replace;
    HoldsFacts(disk, i, t);
    var active := disk.LoadActiveRecord();
    if active.Some? && active.value.generationId == t.generationId {
      assert false;
    }
    t' := PersistStep(disk, t.(state := State.Failed, errorCode := code, updatedAt := disk.clock), FailRecord(i, code));
  }

  /** SealNew accepts a CREATED record: one that is on disk, or one with fresh identifiers on a disk without a build. */
  ghost predicate Buildable(w: World, t: Txn) {
    && t.state == Created
    && if t.revision == 0 then
         ValidTransaction(t) && FreshRecord(t) && t.updatedAt <= w.clock && Unused(w, t) && !HasNonterminal(w)
       else
         Load(w, t.id).Some? && Load(w, t.id).value.state == Created
  }

  /**
   * Why an unsaved record needs an idle disk: SealNew would save it without looking, and then at most one record is
   * nonterminal exactly when none was before.
   */
  lemma UnsavedNeedsIdleDisk(w: World, t: Txn)
    requires Inv(w) && t.state == Created
    ensures AtMostOne(After(w, CreateRecord(t)).txns) <==> !HasNonterminal(w)
  {
    hide Distinct, RecordsOk, PointerOk, HistoryOk, ActivatingOk, ReplacedOk, TimesOk;
    var txns := After(w, CreateRecord(t)).txns;
    if HasNonterminal(w) {
      var i :| 0 <= i < |w.txns| && Nonterminal(w.txns[i]);
      assert Nonterminal(txns[i]) && Nonterminal(txns[|w.txns|]);
    }
  }

  /** The record SealNew works on. */
  function Taken(w: World, t: Txn): Txn {
    if t.revision == 0 || Load(w, t.id).None? then t else Load(w, t.id).value
  }

  predicate SameSource(t: Txn, u: Txn) {
    u.id == t.id && u.generationId == t.generationId && u.runtimeKind == t.runtimeKind
          && u.sourcePin == t.sourcePin && u.expectedVersion == t.expectedVersion
  }

  lemma LoadedAt(w: World, id: string)
    requires Load(w, id).Some?
    ensures 0 <= IndexOf(w.txns, id) < |w.txns| && w.txns[IndexOf(w.txns, id)] == Load(w, id).value
    ensures Load(w, id).value.id == id
  {
  }

  lemma LoadsAt(w: World, i: nat)
    requires Inv(w) && i < |w.txns|
    ensures Load(w, w.txns[i].id) == Some(w.txns[i]) && IndexOf(w.txns, w.txns[i].id) == i
  {
    InvSingle(w);
    IndexFinds(w, i);
  }

  /** The record SealNew starts from: saved first when it has never been persisted. */
  method TakeCreated(disk: Disk, t: Txn) returns (r: Option<Txn>, ghost i: nat)
    requires disk.Reachable() && (t.revision == 0 && t.state == Created ==> Buildable(disk.Snapshot(), t))
    modifies disk`txns, disk`clock, disk`run
    ensures disk.Reachable() && old(disk.run) <= disk.run
    ensures r.Some? <==> Buildable(old(disk.Snapshot()), t)
    ensures r.None? ==> disk.Snapshot() == old(disk.Snapshot())
    ensures r.Some? ==> i < |disk.txns| && disk.txns[i] == r.value && r.value.state == Created
    ensures r.Some? ==> SameSource(Taken(old(disk.Snapshot()), t), r.value)
  {
    hide Run, Initial, Inv, Unused, ValidTransaction, FreshRecord, Enabled, HasNonterminal, After;
    ghost var w := disk.Snapshot();
    r, i := None, 0;
    if t.state != Created {
      return;
    }
    ReachableInv(disk.cfg, disk.start, disk.run, w);
    if t.revision == 0 {
      CreateEnabled(disk.cfg, w, t);
      FreshSaves(w, t);
      var created, ok := disk.PersistTransaction(t);
      Took(disk, w, CreateRecord(t));
      r := Some(created);
    } else {
      var loaded := disk.LoadTransaction(t.id);
      if loaded.None? || loaded.value.state != Created {
        return;
      }
      r := loaded;
    }
    LoadedAt(disk.Snapshot(), t.id);
    i := IndexOf(disk.txns, t.id);
  }

  lemma CreatedFacts(cfg: Config, w: World, i: nat)
    requires Inv(w) && i < |w.txns| && w.txns[i].state == Created
    ensures Enabled(cfg, w, BeginBuild(i)) && w.txns[i].generationId !in w.generations
  {
    RecordAt(w, i);
  }

  method FinishBuild(disk: Disk, t: Txn, temp: string, script: seq<FileWrite>, lineage: string, faults: set<Point>,
          ghost i: nat)
    returns (t': Txn, ok: bool)
    requires Holds(disk, i, t) && t.generationId !in disk.generations && TEMP_PREFIX <= temp
    requires forall k :: 0 <= k < |script| ==> BuilderFile(script[k].path)
    modifies disk`txns, disk`clock, disk`generations, disk`run
    ensures disk.Reachable() && old(disk.run) <= disk.run
    ensures i < |disk.txns| && disk.txns[i] == t' && SameSource(t, t') && (ok <==> faults == {})
    ensures ok ==> t'.state == Sealed && TreeVerifies(disk.Snapshot(), t')
    ensures ok ==>
              Payload(disk.generations[t'.generationId]) == Built(t', script)
    ensures !ok ==> t'.state == State.Failed && RightCode(faults, t'.errorCode)
  {
    hide Holds, Run, Initial, Inv, VerifySealedTree, Enabled, ValidTransaction, Replace, FreshRecord, WriteFiles;
    var sealed, code := BuildCandidate(disk, t, temp, script, lineage, faults, i);
    if sealed.None? {
      t' := FailBuild(disk, t, code, i);
      return t', false;
    }
    SealEnabled(disk, t, sealed.value.manifestSha, sealed.value.sealSha, i);
    var now := disk.clock;
    var m, s := sealed.value.manifestSha, sealed.value.sealSha;
    var u := t.(state := Sealed, manifestSha := m, sealSha := s, updatedAt := now, errorCode := NoCode);
    t' := PersistStep(disk, u, SealRecord(i, m, s));
    ok := true;
  }

  /**
   * SealNew: from an accepted CREATED record to SEALED exactly when nothing fails, with a tree that verifies and holds
   * what the build wrote; any failure ends FAILED. Each durable write on the way is a step, so a crash leaves a
   * reachable disk.
   */
  method SealNew(disk: Disk, t: Txn, temp: string, script: seq<FileWrite>, lineage: string, faults: set<Point>)
    returns (t': Txn, ok: bool, ghost i: nat)
    requires disk.Reachable() && (t.revision == 0 && t.state == Created ==> Buildable(disk.Snapshot(), t))
    requires TEMP_PREFIX <= temp && forall k :: 0 <= k < |script| ==> BuilderFile(script[k].path)
    modifies disk`txns, disk`clock, disk`generations, disk`run
    ensures disk.Reachable() && old(disk.run) <= disk.run
    ensures !Buildable(old(disk.Snapshot()), t) ==> !ok && disk.Snapshot() == old(disk.Snapshot())
    ensures Buildable(old(disk.Snapshot()), t) ==> (ok <==> faults == {}) && i < |disk.txns| && disk.txns[i] == t'
    ensures Buildable(old(disk.Snapshot()), t) ==> SameSource(Taken(old(disk.Snapshot()), t), t')
    ensures ok ==> t'.state == Sealed && TreeVerifies(disk.Snapshot(), t')
    ensures ok ==>
              Payload(disk.generations[t'.generationId]) == Built(t', script)
    ensures !ok && Buildable(old(disk.Snapshot()), t) ==>
              (t'.state == State.Failed && RightCode(faults, t'.errorCode))
  {
    hide Holds, Run, Initial, Inv, Buildable, VerifySealedTree, Enabled, ValidTransaction, Replace, FreshRecord,
      WriteFiles;
    var taken;
    taken, i := TakeCreated(disk, t);
    if taken.None? {
      return t, false, 0;
    }
    ReachableInv(disk.cfg, disk.start, disk.run, disk.Snapshot());
    CreatedFacts(disk.cfg, disk.Snapshot(), i);
    t' := taken.value;
    t' := PersistStep(disk, t'.(state := Building, updatedAt := disk.clock), BeginBuild(i));
    ReplacedAt(disk, i);
    t', ok := FinishBuild(disk, t', temp, script, lineage, faults, i);
  }

  lemma ReplacedAt(disk: Disk, i: nat)
    requires disk.Reachable() && i < |disk.txns| && disk.txns[i].state == Building
    ensures Holds(disk, i, disk.txns[i])
  {
  }

  lemma SealEnabled(disk: Disk, t: Txn, m: Digest, s: Digest, i: nat)
    requires Holds(disk, i, t) && TreeVerifies(disk.Snapshot(), t.(manifestSha := m, sealSha := s))
    ensures Enabled(disk.cfg, disk.Snapshot(), SealRecord(i, m, s)) && disk.Reachable() && i < |disk.txns|
    ensures disk.txns[i] == t
  {
    hide Run, Initial, VerifySealedTree;
  }

  // ---------------------------------------------------------------- publishing and activating

  datatype PublishEnd = Done | NotPublishable | StagingInTheWay | TreeRejected | NotSaved

  datatype PublishExec = PublishExec(world: World, txn: Txn, end: PublishEnd)

  /** publish: an empty legacy staging directory goes, the final tree must verify, then PUBLISHED is saved. */
  ghost function PublishTxn(w: World, t: Txn): PublishExec {
    if t.state == State.Published || t.state == State.Activating then PublishExec(w, t, Done)
    else if t.state != Sealed then PublishExec(w, t, NotPublishable)
    else if t.id in w.staging && w.staging[t.id] != map[] then PublishExec(w, t, StagingInTheWay)
    else
      var w1 := w.(staging := w.staging - {t.id});
      if !TreeVerifies(w1, t) then PublishExec(w1, t, TreeRejected)
      else
        var saved := Persist(w1, t.(state := State.Published, updatedAt := w1.clock));
        PublishExec(saved.world, saved.txn, if saved.ok then Done else NotSaved)
  }

  /** Manager.fail: a record active.json names goes back to ACTIVATING; any other becomes FAILED. */
  function ManagerFail(w: World, t: Txn, code: Code): TxnExec {
    var named := LoadActive(w).Some? && LoadActive(w).value.generationId == t.generationId;
    var saved := Persist(w, if named then t.(state := State.Activating, errorCode := NoCode, updatedAt := w.clock)
                            else t.(state := State.Failed, errorCode := code, updatedAt := w.clock));
    saved.(ok := false)
  }

  ghost function PublishAndActivateTxn(w: World, id: string): Exec {
    match Load(w, id)
    case None => Exec(w, false)
    case Some(t) =>
      if t.state != Sealed && t.state != State.Published && t.state != State.Activating then Exec(w, false)
      else
        var p := PublishTxn(w, t);
        if p.end == TreeRejected then Exec(ManagerFail(p.world, t, PublishConflict).world, false)
        else if p.end != Done then Exec(p.world, false)
        else
          var a := ActivateTxn(p.world, p.txn);
          Exec(a.world, a.ok)
  }

  method PublishOn(disk: Disk, t: Txn) returns (t': Txn, end: PublishEnd)
    modifies disk`txns, disk`clock, disk`staging
    ensures PublishExec(disk.Snapshot(), t', end) == PublishTxn(old(disk.Snapshot()), t)
  {
    hide TreeVerifies, Persist;
    t' := t;
    if t.state == State.Published || t.state == State.Activating {
      return t, Done;
    }
    if t.state != Sealed {
      return t, NotPublishable;
    }
    ghost var w := disk.Snapshot();
    if t.id in disk.staging && disk.staging[t.id] != map[] {
      return t, StagingInTheWay;
    }
    disk.staging := disk.staging - {t.id};
    var verified := disk.VerifyGeneration(t);
    if !verified {
      return t, TreeRejected;
    }
    var saved;
    t', saved := disk.PersistTransaction(t.(state := State.Published, updatedAt := disk.clock));
    end := if saved then Done else NotSaved;
  }

  method FailOn(disk: Disk, t: Txn, code: Code) returns (t': Txn)
    modifies disk`txns, disk`clock
    ensures TxnExec(disk.Snapshot(), t', false) == ManagerFail(old(disk.Snapshot()), t, code)
  {
    hide Persist;
    var active := disk.LoadActiveRecord();
    var saved;
    if active.Some? && active.value.generationId == t.generationId {
      t', saved := disk.PersistTransaction(t.(state := State.Activating, errorCode := NoCode, updatedAt := disk.clock));
    } else {
      t', saved := disk.PersistTransaction(t.(state := State.Failed, errorCode := code, updatedAt := disk.clock));
    }
  }

  method PublishAndActivateOn(disk: Disk, id: string) returns (ok: bool)
    modifies disk`txns, disk`clock, disk`staging, disk`active, disk`history
    ensures Exec(disk.Snapshot(), ok) == PublishAndActivateTxn(old(disk.Snapshot()), id)
  {
    hide PublishTxn, ManagerFail, ActivateTxn;
    var loaded := disk.LoadTransaction(id);
    if loaded.None? {
      return false;
    }
    var t := loaded.value;
    if t.state != Sealed && t.state != State.Published && t.state != State.Activating {
      return false;
    }
    var published, end := PublishOn(disk, t);
    if end == TreeRejected {
      var failed := FailOn(disk, t, PublishConflict);
      return false;
    }
    if end != Done {
      return false;
    }
    var activated, done := ActivateRecord(disk, published);
    ok := done;
  }

  // ---------------------------------------------------------------- how publishing and activating end on any disk

  /** active.json, as far as it can be read, names this generation. */
  predicate RecordNames(w: World, generationId: string) {
    w.active.ActiveFile? && ValidActiveRecord(w.active.record) && w.active.record.generationId == generationId
  }

  /**
   * A SEALED record whose tree does not verify is refused, whatever is active: it goes back to ACTIVATING, without a
   * code, if active.json names its generation, and is FAILED with the conflict code otherwise. Nothing else changes
   * but an empty staging directory of its own.
   */
  lemma RejectedTreeEnds(w: World, i: nat)
    requires Filed(w) && i < |w.txns| && w.txns[i].state == Sealed && !TreeVerifies(w, w.txns[i])
    requires w.txns[i].id !in w.staging || w.staging[w.txns[i].id] == map[]
    ensures var t := w.txns[i]; var e := PublishAndActivateTxn(w, t.id);
            && !e.ok && |e.world.txns| == |w.txns|
            && (RecordNames(w, t.generationId) ==>
                  e.world.txns[i].state == State.Activating && e.world.txns[i].errorCode == NoCode)
            && (!RecordNames(w, t.generationId) ==>
                  e.world.txns[i].state == State.Failed && e.world.txns[i].errorCode == PublishConflict)
            && SameBuild(t, e.world.txns[i])
            && e.world ==
               w.(txns := w.txns[i := e.world.txns[i]], staging := w.staging - {t.id}, clock := e.world.clock)
  {
    hide VerifySealedTree, ValidTransaction, Persist, Filed;
    var t := w.txns[i];
    IndexFinds(w, i);
    var w1 := w.(staging := w.staging - {t.id});
    ClearedFiled(w, t.id);
    var u := if RecordNames(w, t.generationId) then
               t.(state := State.Activating, errorCode := NoCode, updatedAt := w.clock)
             else
               t.(state := State.Failed, errorCode := PublishConflict, updatedAt := w.clock);
    ReworkedIsValid(t, u);
    PersistReplaces(w1, i, u);
  }

  lemma ClearedFiled(w: World, id: string)
    requires Filed(w)
    ensures Filed(w.(staging := w.staging - {id}))
  {
  }

  lemma ReworkedIsValid(t: Txn, u: Txn)
    requires ValidTransaction(t) && u == t.(state := u.state, errorCode := u.errorCode, updatedAt := u.updatedAt)
    ensures ValidTransaction(u)
  {
  }

  /** A record that is not to be published, or whose staging directory holds files, is refused without a change. */
  lemma RefusedPublishChangesNothing(w: World, i: nat)
    requires Filed(w) && i < |w.txns|
    requires var t := w.txns[i];
             || Failable(t.state) || Terminal(t.state)
             || (t.state == Sealed && t.id in w.staging && w.staging[t.id] != map[])
    ensures PublishAndActivateTxn(w, w.txns[i].id) == Exec(w, false)
  {
    IndexFinds(w, i);
  }

  /**
   * Otherwise it is published and activated: success exactly when the tree verifies, the pointer is readable, and
   * active.json names the record already or accepts it and, for a record already ACTIVATING, reads as the predecessor
   * the record expects. Then the record is ACTIVATING and named. After a failure active.json is as it was.
   */
  lemma PublishAndActivateExactly(w: World, i: nat)
    requires Filed(w) && i < |w.txns|
    requires var t := w.txns[i];
             || t.state == Published || t.state == State.Activating
             || (t.state == Sealed && (t.id !in w.staging || w.staging[t.id] == map[]))
    ensures var t := w.txns[i]; var p := ReadActive(w); var e := PublishAndActivateTxn(w, t.id);
            && (e.ok <==>
                  && TreeVerifies(w, t) && !p.Invalid?
                  && (PointerNames(p, t) || (Pinned(t) && (t.state == State.Activating ==> CasAllows(t, p)))))
            && (e.ok ==> ActivatedAs(e.world, i, t))
            && (!e.ok ==> e.world.active == w.active)
  {
    hide VerifySealedTree, ReadActive, ValidTransaction, Filed, ActivateTxn, PublishTxn, CasAllows, Pinned,
      ActivatedAs, PointerNames, ManagerFail;
    var t := w.txns[i];
    IndexFinds(w, i);
    if t.state == Sealed {
      if TreeVerifies(w, t) {
        PublishedOn(w, i);
        var p := PublishTxn(w, t);
        ActivateExactly(p.world, i);
        SameActivation(w, p.world, t, p.txn);
        if ActivateTxn(p.world, p.txn).ok { SameActivated(ActivateTxn(p.world, p.txn).world, i, t, p.txn); }
      } else {
        RejectedTreeEnds(w, i);
      }
    } else {
      PublishedAlready(w, t);
      ActivateExactly(w, i);
    }
  }

  lemma PublishedOn(w: World, i: nat)
    requires Filed(w) && i < |w.txns| && w.txns[i].state == Sealed && TreeVerifies(w, w.txns[i])
    requires w.txns[i].id !in w.staging || w.staging[w.txns[i].id] == map[]
    ensures var t := w.txns[i]; var p := PublishTxn(w, t);
            && p.end == Done && Filed(p.world) && i < |p.world.txns| && p.txn == p.world.txns[i]
            && p.txn.state == Published && SameBuild(t, p.txn)
            && p.world.active == w.active && p.world.generations == w.generations
  {
    hide VerifySealedTree, ValidTransaction, Filed, Kept, Persist;
    var t := w.txns[i];
    var w1 := w.(staging := w.staging - {t.id});
    ClearedFiled(w, t.id);
    IndexFinds(w, i);
    var u := t.(state := Published, updatedAt := w.clock);
    ReworkedIsValid(t, u);
    PersistReplaces(w1, i, u);
    PersistKept(w1, i, u);
    KeptFiled(w1, Persist(w1, u).world, []);
  }

  lemma SameActivation(w: World, w1: World, t: Txn, u: Txn)
    requires w1.active == w.active && w1.generations == w.generations && SameBuild(t, u)
    ensures ReadActive(w1) == ReadActive(w) && (TreeVerifies(w1, u) <==> TreeVerifies(w, t))
    ensures Pinned(u) <==> Pinned(t)
    ensures PointerNames(ReadActive(w), u) <==> PointerNames(ReadActive(w), t)
  {
    SamePointerRead(w, w1);
  }

  // ------------------------------------------------------------- what publishing and activating do on a reachable disk

  ghost predicate Reaches(cfg: Config, w: World, w': World) {
    exists acts :: Run(cfg, w, acts, w')
  }

  lemma RecoversReaches(cfg: Config, w: World, w': World)
    requires Recovers(cfg, w, w')
    ensures Reaches(cfg, w, w')
  {
    hide Run, RecoverySteps;
    var acts :| RecoverySteps(cfg, w, acts, w');
    StepsAreRun(cfg, w, acts, w');
  }

  lemma ReachesThen(cfg: Config, w: World, act: Act, w': World)
    requires Enabled(cfg, w, act) && Reaches(cfg, After(w, act), w')
    ensures Reaches(cfg, w, w')
  {
    hide Enabled, After;
    var acts :| Run(cfg, After(w, act), acts, w');
    assert ([act] + acts)[1..] == acts;
    assert Run(cfg, w, [act] + acts, w');
  }

  lemma ReachesSelf(cfg: Config, w: World)
    ensures Reaches(cfg, w, w)
  {
    assert Run(cfg, w, [], w);
  }

  lemma MarkReaches(cfg: Config, w: World, i: nat)
    requires Inv(w) && i < |w.txns| && w.txns[i].state == Published
    ensures var w1 := After(w, MarkActive(i, true));
            && Enabled(cfg, w, MarkActive(i, true)) && Inv(w1) && i < |w1.txns| && w1.txns[i].state == State.Activating
            && !PointerNames(ReadActive(w1), w1.txns[i]) && (Pinned(w1.txns[i]) <==> Pinned(w.txns[i]))
            && ActivateTxn(w, w.txns[i]) == ActivateTxn(w1, w1.txns[i])
  {
    hide Inv, ReadActive, Swing, CasAllows, Persist, Blank, VerifySealedTree, ValidTransaction;
    var act := MarkActive(i, true);
    var t := w.txns[i];
    RecordAt(w, i);
    ReachableReadable(w);
    UnnamedPublished(w, i);
    PublishedEnabled(cfg, w, i);
    StepKeeps(cfg, w, act);
    InvSingle(w);
    MarkMoves(w, i, true);
    var u := Changed(w, t, act);
    MovesValid(w, i, u);
    PersistReplaces(w, i, u);
    var w1 := After(w, act);
    assert w1 == Replace(w, i, u);
    InvHistory(w);
    InvHistory(w1);
    assert u == SnapshotBefore(t, ReadActive(w)).(state := State.Activating, updatedAt := w.clock,
          activatedAt := Some(w.clock));
    assert MarkActivating(w, SnapshotBefore(t, ReadActive(w))) == TxnExec(w1, w1.txns[i], true);
  }

  lemma PublishedEnabled(cfg: Config, w: World, i: nat)
    requires Inv(w) && i < |w.txns| && w.txns[i].state == Published
    ensures Enabled(cfg, w, MarkActive(i, true)) && TreeVerifies(w, w.txns[i]) && w.txns[i].activatedAt.None?
  {
    hide Inv, VerifySealedTree, ReadActive;
    RecordAt(w, i);
    ReachableReadable(w);
  }

  /** Record i is ACTIVATING and the pointer has not moved. */
  ghost predicate StaysBehind(w: World, i: nat, w': World) {
    i < |w'.txns| && w'.txns[i].state == State.Activating && w'.history == w.history
  }

  lemma SavesKeepHistory(w: World, act: Act)
    requires SavesOn(act)
    ensures After(w, act).history == w.history
  {
  }

  /** Under the invariant, activation succeeds exactly when active.json names the record already or may be written. */
  lemma ActivateReaches(cfg: Config, w: World, i: nat)
    requires Inv(w) && i < |w.txns| && (w.txns[i].state == Published || w.txns[i].state == State.Activating)
    ensures var a := ActivateTxn(w, w.txns[i]);
            && Reaches(cfg, w, a.world)
            && (a.ok <==> PointerNames(ReadActive(w), w.txns[i]) || Pinned(w.txns[i]))
            && (a.ok ==> ActivatedAt(a.world, i))
            && (!a.ok ==> StaysBehind(w, i, a.world))
    decreases w.txns[i].state == Published
  {
    hide Inv, ReadActive, ActivateTxn, Reaches, Enabled, After, PointerNames, Pinned, Run, Recovers;
    if w.txns[i].state == Published {
      MarkReaches(cfg, w, i);
      SavesKeepHistory(w, MarkActive(i, true));
      UnnamedPublished(w, i);
      ActivateReaches(cfg, After(w, MarkActive(i, true)), i);
      ReachesThen(cfg, w, MarkActive(i, true), ActivateTxn(w, w.txns[i]).world);
    } else if PointerNames(ReadActive(w), w.txns[i]) {
      NamedActivates(cfg, w, i);
    } else {
      SwingTurn(cfg, w, i);
      ReachesSelf(cfg, w);
      if Pinned(w.txns[i]) { RecoversReaches(cfg, w, ActivateTxn(w, w.txns[i]).world); }
    }
  }

  lemma UnnamedPublished(w: World, i: nat)
    requires Inv(w) && i < |w.txns| && w.txns[i].state == Published
    ensures !PointerNames(ReadActive(w), w.txns[i])
  {
    hide Inv, ReadActive;
    NotNamed(w, i);
    RecordAt(w, i);
    GenerationNonempty(w, i);
  }

  lemma NamedActivates(cfg: Config, w: World, i: nat)
    requires Inv(w) && i < |w.txns| && w.txns[i].state == State.Activating && PointerNames(ReadActive(w), w.txns[i])
    ensures var a := ActivateTxn(w, w.txns[i]);
            a.ok && Reaches(cfg, w, a.world) && ActivatedAt(a.world, i)
  {
    hide Inv, ReadActive, Reaches, VerifySealedTree, Recovers, Persist, ValidTransaction;
    var t := w.txns[i];
    RecordAt(w, i);
    ReachableReadable(w);
    ActivatePassesCompare(w, i);
    NamedPointer(w, i);
    if t.activatedAt.None? {
      StampTurn(cfg, w, i, w.clock);
      RecoversReaches(cfg, w, Persist(w, t.(activatedAt := Some(w.clock), updatedAt := w.clock)).world);
      var stamped := t.(activatedAt := Some(w.clock), updatedAt := w.clock);
      assert stamped == t.(state := State.Activating, updatedAt := w.clock, activatedAt := Some(w.clock));
    } else {
      ReachesSelf(cfg, w);
    }
  }

  lemma PublishReaches(cfg: Config, w: World, i: nat)
    requires Inv(w) && i < |w.txns| && w.txns[i].state == Sealed
    ensures Enabled(cfg, w, PublishRecord(i)) && Inv(After(w, PublishRecord(i)))
    ensures var w1 := After(w, PublishRecord(i));
            && i < |w1.txns| && w1.txns[i].state == Published && (Pinned(w1.txns[i]) <==> Pinned(w.txns[i]))
            && PublishTxn(w, w.txns[i]) == PublishExec(w1, w1.txns[i], Done)
  {
    hide Inv, Persist, VerifySealedTree, Blank, ValidTransaction;
    var t := w.txns[i];
    RecordAt(w, i);
    NoStaging(w, i);
    assert w.staging - {t.id} == w.staging;
    var act := PublishRecord(i);
    assert Enabled(cfg, w, act);
    StepKeeps(cfg, w, act);
    InvSingle(w);
    ChangedIsValid(cfg, w, act);
    PersistReplaces(w, i, Changed(w, t, act));
  }

  /**
   * PublishAndActivate on a reachable disk: only steps of the protocol, and success exactly when the record may be
   * written to active.json; then active.json names it and it is ACTIVATING.
   */
  lemma PublishAndActivateReaches(cfg: Config, w: World, i: nat)
    requires Inv(w) && i < |w.txns|
    requires (w.txns[i].state == Sealed || w.txns[i].state == Published || w.txns[i].state == State.Activating)
    ensures var e := PublishAndActivateTxn(w, w.txns[i].id);
            && Reaches(cfg, w, e.world)
            && (e.ok <==> PointerNames(ReadActive(w), w.txns[i]) || Pinned(w.txns[i]))
            && (e.ok ==> ActivatedAt(e.world, i))
            && (!e.ok ==> StaysBehind(w, i, e.world))
  {
    hide Inv, ReadActive, ActivateTxn, Reaches, Enabled, After, PointerNames, Pinned, Run, PublishTxn, ActivatedAt;
    LoadsAt(w, i);
    if w.txns[i].state == Sealed {
      PublishReaches(cfg, w, i);
      SavesKeepHistory(w, PublishRecord(i));
      var w1 := After(w, PublishRecord(i));
      ActivateReaches(cfg, w1, i);
      UnnamedSealed(w, i);
      UnnamedPublished(w1, i);
      ReachesThen(cfg, w, PublishRecord(i), ActivateTxn(w1, w1.txns[i]).world);
    } else {
      assert PublishTxn(w, w.txns[i]) == PublishExec(w, w.txns[i], Done) by { PublishedAlready(w, w.txns[i]); }
      ActivateReaches(cfg, w, i);
    }
  }

  lemma PublishedAlready(w: World, t: Txn)
    requires t.state == Published || t.state == State.Activating
    ensures PublishTxn(w, t) == PublishExec(w, t, Done)
  {
  }

  lemma UnnamedSealed(w: World, i: nat)
    requires Inv(w) && i < |w.txns| && w.txns[i].state == Sealed
    ensures !PointerNames(ReadActive(w), w.txns[i])
  {
    hide Inv, ReadActive;
    NotNamed(w, i);
    GenerationNonempty(w, i);
  }

  // ---------------------------------------------------------------- a whole install

  /** A reconciliation that succeeds on an ACTIVATING record leaves it COMMITTED and named as before. */
  lemma ReconciledCommits(cfg: Config, w: World, i: nat)
    requires Distinct(w) && i < |w.txns| && w.txns[i].state == State.Activating
    requires ReconcileEnvironment(cfg, w, w.txns[i].id).ok
    ensures var w' := ReconcileEnvironment(cfg, w, w.txns[i].id).world;
            && i < |w'.txns| && w'.txns[i].state == State.Committed && w'.txns[i].id == w.txns[i].id
                  && ReadActive(w') == ReadActive(w)
  {
    hide ReconcileEnvironment, ReconcileOnce, CollectWith, CommitObserved, Superseded, LatestHitAmong, VerifyPublished;
    CommitPoint(cfg, w, i);
    var done := CommitWorld(FirstPass(cfg, w, LoadActive(w).value).world, i);
    CollectSameRecords(done);
    CollectKeepsPointer(done, LatestCommitted(done.txns, ActiveGen(done), |done.txns|), LatestHit(done, |done.txns|));
  }

  lemma SealedKeepsBuild(cfg: Config, w: World, w': World, i: nat)
    requires Reaches(cfg, w, w') && i < |w.txns| && !Failable(w.txns[i].state)
    ensures i < |w'.txns| && SameBuild(w.txns[i], w'.txns[i])
  {
    hide Run;
    var acts :| Run(cfg, w, acts, w');
    RunMovesOn(cfg, w, acts, w');
  }

  ghost method Advance(disk: Disk, w: World)
    requires Initial(disk.start) && Run(disk.cfg, disk.start, disk.run, w) && Reaches(disk.cfg, w, disk.Snapshot())
    modifies disk`run
    ensures disk.Reachable() && old(disk.run) <= disk.run && Inv(disk.Snapshot())
  {
    hide Run, Initial, Inv;
    var acts :| Run(disk.cfg, w, acts, disk.Snapshot());
    RunsCompose(disk.cfg, disk.start, disk.run, w, acts, disk.Snapshot());
    disk.run := disk.run + acts;
    ReachableInv(disk.cfg, disk.start, disk.run, disk.Snapshot());
  }

  /** How an install of record i, sealed as `t`, may end once it is published. */
  ghost predicate AppliedAs(w: World, i: nat, t: Txn, ok: bool) {
    && i < |w.txns| && SameBuild(t, w.txns[i])
    && w.txns[i].state == (if ok then State.Committed else State.Activating)
    && (Pinned(t) ==> ReadActive(w) == PointerTo(t) && w.active.ActiveFile? && WrittenBy(w.active.record, t))
  }

  lemma NamedAsWritten(w: World, i: nat, t: Txn)
    requires Inv(w) && i < |w.txns| && ReadActive(w) == PointerTo(w.txns[i]) && SameBuild(t, w.txns[i])
    ensures w.active.ActiveFile? && WrittenBy(w.active.record, t) && ReadActive(w) == PointerTo(t)
  {
    hide Inv, ReadActive, TreeVerifies;
    TipRecord(w, i);
  }

  lemma FailedReconcileKeeps(cfg: Config, w: World, i: nat)
    requires Inv(w) && i < |w.txns| && w.txns[i].state == State.Activating
    requires !ReconcileEnvironment(cfg, w, w.txns[i].id).ok
    ensures var w' := ReconcileEnvironment(cfg, w, w.txns[i].id).world;
            w'.txns == w.txns && w'.history == w.history && ReadActive(w') == ReadActive(w)
  {
    hide Inv, ReconcileEnvironment;
    InvSingle(w);
    EnvironmentFailureKeepsActivating(cfg, w, i);
  }

  /**
   * From SEALED to the commit: publish, activate, reconcile. The record ends COMMITTED, or ACTIVATING when something
   * fails; active.json is its own, or as before when it refuses the record.
   */
  method ApplySealed(disk: Disk, t: Txn, ghost i: nat) returns (ok: bool)
    requires disk.Reachable() && i < |disk.txns| && disk.txns[i] == t && t.state == Sealed
    modifies disk
    ensures disk.Reachable() && old(disk.run) <= disk.run
    ensures AppliedAs(disk.Snapshot(), i, t, ok)
    ensures !Pinned(t) ==> !ok && disk.history == old(disk.history)
    ensures Working(disk.cfg) ==> (ok <==> Pinned(t))
    ensures Working(disk.cfg) && ok ==> Serves(disk.cfg, disk.Snapshot(), t.generationId)
  {
    hide Run, Initial, Inv, VerifySealedTree, ReconcileEnvironment, PublishAndActivateTxn, Working, Reaches, Recovers,
      Pinned, ReadActive, PointerNames, WrittenBy, Serves, BinsGone;
    ghost var w := disk.Snapshot();
    ReachableInv(disk.cfg, disk.start, disk.run, w);
    PublishAndActivateReaches(disk.cfg, w, i);
    UnnamedSealed(w, i);
    var activated := PublishAndActivateOn(disk, t.id);
    Advance(disk, w);
    ghost var w1 := disk.Snapshot();
    SealedKeepsBuild(disk.cfg, w, w1, i);
    if !activated {
      return false;
    }
    NamedAsWritten(w1, i, t);
    ReconcileRuns(disk.cfg, w1, i);
    RecoversReaches(disk.cfg, w1, ReconcileEnvironment(disk.cfg, w1, w1.txns[i].id).world);
    InvSingle(w1);
    if Working(disk.cfg) {
      ReconcileTurn(disk.cfg, w1, i);
      ActivatingServes(disk.cfg, w1, i);
    }
    ok := ReconcileEnvironmentOn(disk, t.id);
    Advance(disk, w1);
    SealedKeepsBuild(disk.cfg, w1, disk.Snapshot(), i);
    if ok { ReconciledCommits(disk.cfg, w1, i); } else { FailedReconcileKeeps(disk.cfg, w1, i); }
    NamedAsWritten(disk.Snapshot(), i, t);
  }

  /** How the worker leaves the disk when the record was accepted: record i holds what it made of it. */
  ghost predicate WorkerEnds(w: World, i: nat, source: Txn, faults: set<Point>, ok: bool) {
    && i < |w.txns| && SameSource(source, w.txns[i])
    && (faults != {} ==> w.txns[i].state == State.Failed && RightCode(faults, w.txns[i].errorCode))
    && (faults == {} ==> w.txns[i].state == (if ok then State.Committed else State.Activating))
    && (faults == {} && Pinned(source) ==>
          && ReadActive(w) == PointerTo(w.txns[i]) && w.active.ActiveFile? && WrittenBy(w.active.record, w.txns[i]))
  }

  /** The worker never gets as far as active.json. */
  predicate NoSwing(source: Txn, faults: set<Point>) {
    faults != {} || !Pinned(source)
  }

  /**
   * The install worker, holding the lock from SealNew to the commit. With a working environment it commits exactly when
   * the build had no fault and the record is pinned. A failed build ends FAILED with its code; a record active.json
   * refuses, or an environment that fails, leaves it ACTIVATING. The pointer moves only to the record itself, and in
   * every case the disk stays reachable.
   */
  method ApplyGeneration(disk: Disk, t: Txn, temp: string, script: seq<FileWrite>, lineage: string, faults: set<Point>)
    returns (t': Txn, ok: bool, ghost i: nat)
    requires disk.Reachable() && (t.revision == 0 && t.state == Created ==> Buildable(disk.Snapshot(), t))
    requires TEMP_PREFIX <= temp && forall k :: 0 <= k < |script| ==> BuilderFile(script[k].path)
    modifies disk
    ensures disk.Reachable() && old(disk.run) <= disk.run
    ensures !Buildable(old(disk.Snapshot()), t) ==> !ok && disk.Snapshot() == old(disk.Snapshot())
    ensures ok ==> SameSource(Taken(old(disk.Snapshot()), t), t')
    ensures Buildable(old(disk.Snapshot()), t) ==>
              WorkerEnds(disk.Snapshot(), i, Taken(old(disk.Snapshot()), t), faults, ok)
    ensures Buildable(old(disk.Snapshot()), t) && NoSwing(Taken(old(disk.Snapshot()), t), faults) ==>
              !ok && disk.history == old(disk.history)
    ensures Working(disk.cfg) ==>
              (ok <==> Buildable(old(disk.Snapshot()), t) && faults == {} && Pinned(Taken(old(disk.Snapshot()), t)))
    ensures Working(disk.cfg) && ok ==> Serves(disk.cfg, disk.Snapshot(), t'.generationId)
  {
    hide Run, Initial, Inv, Buildable, VerifySealedTree, Working, Pinned, ReadActive, Taken, RightCode, Serves;
    var sealed;
    t', sealed, i := SealNew(disk, t, temp, script, lineage, faults);
    if !sealed {
      return t', false, i;
    }
    SameSourcePins(Taken(old(disk.Snapshot()), t), t');
    ok := ApplySealed(disk, t', i);
  }

  lemma SameSourcePins(t: Txn, u: Txn)
    requires SameSource(t, u)
    ensures Pinned(u) <==> Pinned(t)
  {
  }

  lemma CreatedIsBuildable(disk: Disk, i: nat)
    requires disk.Reachable() && i < |disk.txns| && disk.txns[i].state == Created && disk.txns[i].revision != 0
    ensures Buildable(disk.Snapshot(), disk.txns[i]) && Taken(disk.Snapshot(), disk.txns[i]) == disk.txns[i]
  {
    hide Run, Initial, Inv;
    ReachableInv(disk.cfg, disk.start, disk.run, disk.Snapshot());
    LoadsAt(disk.Snapshot(), i);
  }

  /**
   * Starting an install and running its worker, on any reachable disk with a working environment: it commits exactly
   * when no earlier install must finish first, nothing fails and the record may be written to active.json. Its
   * generation is then the active one, and active.json holds its source pin and version. Refused, it changes nothing;
   * failed, it leaves the pointer alone and its record FAILED with the code of the failure.
   */
  method Install(disk: Disk, t: Txn, temp: string, script: seq<FileWrite>, lineage: string, faults: set<Point>)
    returns (ok: bool, ghost i: nat)
    requires disk.Reachable()
    requires t.revision == 0 && ValidTransaction(t) && t.state == Created && FreshRecord(t) && t.updatedAt <= disk.clock
    requires Unused(disk.Snapshot(), t)
    requires TEMP_PREFIX <= temp && forall k :: 0 <= k < |script| ==> BuilderFile(script[k].path)
    modifies disk
    ensures disk.Reachable() && old(disk.run) <= disk.run
    ensures MustFinish(old(disk.Snapshot())) ==> !ok && disk.Snapshot() == old(disk.Snapshot())
    ensures !MustFinish(old(disk.Snapshot())) ==> WorkerEnds(disk.Snapshot(), i, t, faults, ok)
    ensures NoSwing(t, faults) ==> !ok && disk.history == old(disk.history)
    ensures Working(disk.cfg) ==> (ok <==> !MustFinish(old(disk.Snapshot())) && faults == {} && Pinned(t))
    ensures ok ==>
              && ReadActive(disk.Snapshot()).Valid? && ReadActive(disk.Snapshot()).generationId == t.generationId
              && disk.active.ActiveFile? && disk.active.record.transactionId == t.id
              && disk.active.record.sourcePin == t.sourcePin && disk.active.record.version == t.expectedVersion
    ensures Working(disk.cfg) && ok ==> Serves(disk.cfg, disk.Snapshot(), t.generationId)
  {
    hide Run, Initial, Inv, Buildable, Working, Pinned, ReadActive, MustFinish, Unused, ValidTransaction, FreshRecord,
      SoleTxn, RightCode, Taken, Serves;
    var created := StartInstall(disk, t);
    if created.None? {
      return false, 0;
    }
    CreatedIsBuildable(disk, |old(disk.txns)|);
    SameSourcePins(t, created.value);
    var committed;
    committed, ok, i := ApplyGeneration(disk, created.value, temp, script, lineage, faults);
  }
}
