/** The managed root as an object: records, trees and the environment, changed one durable write at a time. */
module Store {
  import opened InstallTypes
  import opened Seal
  import opened Environment
  import opened Decide
  import opened World
  import opened Runs

  class Disk {
    const cfg: Config
    var txns: seq<Txn>
    var malformed: seq<string>
    var active: ActiveFile
    var generations: map<string, Tree>
    var staging: map<string, Tree>
    var failed: map<string, Tree>
    const strange: set<string>
    var env: Env
    var clock: Time
    ghost var history: seq<PointerWrite>
    ghost var start: World
    ghost var run: seq<Act>

    ghost function Snapshot(): World
      reads this
    {
      World(txns, malformed, active, generations, staging, failed, strange, env, clock, history)
    }

    /** The disk is what a run of the protocol's steps left; a crash anywhere leaves a prefix of such a run. */
    ghost predicate Reachable()
      reads this
    {
      Initial(start) && Run(cfg, start, run, Snapshot())
    }

    constructor (cfg: Config, generations: map<string, Tree>, staging: map<string, Tree>, failed: map<string, Tree>,
            strange: set<string>, env: Env)
      ensures Reachable() && run == []
      ensures Snapshot() == World([], [], NoActive, generations, staging, failed, strange, env, 1, [])
    {
      this.cfg := cfg;
      this.txns, this.malformed, this.active, this.clock := [], [], NoActive, 1;
      this.generations, this.staging, this.failed, this.strange, this.env := generations, staging, failed, strange, env;
      this.history := [];
      this.run := [];
      this.start := World([], [], NoActive, generations, staging, failed, strange, env, 1, []);
    }

    // -------------------------------------------------------------- transaction records

    method Find(id: string) returns (i: int)
      ensures i == IndexOf(txns, id)
    {
      i := 0;
      while i < |txns|
        invariant 0 <= i <= |txns|
        invariant forall j :: 0 <= j < i ==> txns[j].id != id
      {
        if txns[i].id == id {
          FirstIsIndex(txns, id, i);
          return;
        }
        i := i + 1;
      }
      i := -1;
    }

    method LoadTransaction(id: string) returns (r: Option<Txn>)
      ensures r == Load(Snapshot(), id)
    {
      var i := Find(id);
      if id in malformed || i < 0 {
        return None;
      }
      r := Some(txns[i]);
    }

    /** SaveTransaction: a record is written only over the revision it was read at. */
    method SaveTransaction(t: Txn) returns (ok: bool)
      modifies `txns, `clock
      ensures Exec(Snapshot(), ok) == Save(old(Snapshot()), t)
    {
      var i := Find(t.id);
      if !ValidTransaction(t) || t.id in malformed {
        return false;
      }
      var expected := if i < 0 then 0 else txns[i].revision;
      if t.revision != expected {
        return false;
      }
      var saved := t.(revision := expected + 1);
      if i < 0 {
        txns := txns + [saved];
      } else {
        txns := txns[i := saved];
      }
      clock := clock + 1;
      ok := true;
    }

    method InspectTransactions() returns (views: seq<View>)
      ensures views == Views(Snapshot())
    {
      views := [];
      for i := 0 to |txns|
        invariant |views| == i
        invariant forall j :: 0 <= j < i ==> views[j] == ViewOf(txns[j])
      {
        views := views + [ViewOf(txns[i])];
      }
      for i := 0 to |malformed|
        invariant |views| == |txns| + i
        invariant forall j :: 0 <= j < |txns| ==> views[j] == ViewOf(txns[j])
        invariant forall j :: |txns| <= j < |views| ==> views[j] == Malformed(true, malformed[j - |txns|])
      {
        views := views + [Malformed(true, malformed[i])];
      }
    }

    method HasNonterminalRecord() returns (found: bool)
      ensures found == HasNonterminal(Snapshot())
    {
      var views := InspectTransactions();
      for i := 0 to |views|
        invariant forall j :: 0 <= j < i ==> !Pending(views[j])
      {
        if Pending(views[i]) {
          return true;
        }
      }
      found := false;
      forall j | 0 <= j < |txns| ensures !Nonterminal(txns[j]) {
        assert !Pending(views[j]);
      }
    }

    method HasCommittedRecord() returns (found: bool)
      ensures found == HasCommitted(Snapshot())
    {
      for i := 0 to |txns|
        invariant forall j :: 0 <= j < i ==> txns[j].state != State.Committed
      {
        if txns[i].state == State.Committed {
          return true;
        }
      }
      found := false;
    }

    /**
     * persist: save and reload. A failed save is reported as done when the record on disk is already newer
     * than the caller's.
     */
    method PersistTransaction(t: Txn) returns (t': Txn, ok: bool)
      modifies `txns, `clock
      ensures Recovery.TxnExec(Snapshot(), t', ok) == Recovery.Persist(old(Snapshot()), t)
    {
      var saved := SaveTransaction(t);
      var loaded := LoadTransaction(t.id);
      if !saved {
        if loaded.Some? && loaded.value.revision > t.revision {
          return loaded.value, true;
        }
        return t, false;
      }
      t', ok := (if loaded.Some? then loaded.value else t), true;
    }

    // -------------------------------------------------------------- the active pointer

    method LoadActiveRecord() returns (r: Option<ActiveRecord>)
      ensures r == LoadActive(Snapshot())
    {
      if active.ActiveFile? && ValidActiveRecord(active.record) {
        return Some(active.record);
      }
      r := None;
    }

    method ReadActivePointer() returns (p: ActivePointer)
      ensures p == ReadActive(Snapshot())
    {
      if active.NoActive? {
        return Missing;
      }
      var r := LoadActiveRecord();
      if r.None? || r.value.generationId !in generations {
        return Invalid;
      }
      if !VerifyPublished(generations[r.value.generationId], r.value.generationId, r.value.manifestSha,
            r.value.sealSha) {
        return Invalid;
      }
      p := Valid(r.value.generationId, r.value.sealSha, r.value.manifestSha);
    }

    method WriteActiveRecord(r: ActiveRecord) returns (ok: bool)
      modifies `active, `clock, `history
      ensures Exec(Snapshot(), ok) == WriteActive(old(Snapshot()), r)
    {
      if !ValidActiveRecord(r) {
        return false;
      }
      ghost var from := ReadActive(Snapshot());
      active := ActiveFile(r);
      clock := clock + 1;
      history := history + [PointerWrite(IndexOf(txns, r.transactionId), from, ReadActive(Snapshot()))];
      ok := true;
    }

    // -------------------------------------------------------------- trees

    /** VerifySealedTree: the metadata, then a second walk compared entry by entry with the stored manifest. */
    method VerifyTree(tree: Tree, generationId: string, manifestSha: Digest, sealSha: Digest) returns (ok: bool)
      ensures ok == VerifySealedTree(tree, generationId, manifestSha, sealSha)
    {
      if !VerifyPublished(tree, generationId, manifestSha, sealSha) {
        return false;
      }
      var stored := tree[FILE_MANIFEST].manifest;
      var again := WalkSealManifest(tree);
      ok := stored.schema == MANIFEST_SCHEMA && again == stored.entries;
    }

    method VerifyGeneration(t: Txn) returns (ok: bool)
      ensures ok == Recovery.TreeVerifies(Snapshot(), t)
    {
      if t.generationId !in generations {
        return false;
      }
      ok := VerifyTree(generations[t.generationId], t.generationId, t.manifestSha, t.sealSha);
    }

    method ObserveTreeAt(found: Option<Tree>, t: Txn) returns (seen: TreeObservation)
      ensures seen == ObserveTree(found, t)
    {
      if found.None? {
        return AbsentTree;
      }
      var tree := found.value;
      seen := TreeObservation(true, tree == map[], false, false, "");
      if ReadsGeneration(tree) {
        var rec := tree[FILE_GENERATION].generation;
        seen := seen.(lineageId := rec.generationId, lineageMatch := rec.generationId == t.generationId);
      } else if ReadsCandidate(tree) {
        var rec := tree[FILE_CANDIDATE].candidate;
        seen := seen.(lineageId := rec.generationId,
                      lineageMatch := rec.generationId == t.generationId && rec.transactionId == t.id);
      }
      if t.manifestSha != NoDigest && t.sealSha != NoDigest {
        var verified := VerifyTree(tree, t.generationId, t.manifestSha, t.sealSha);
        if verified {
          seen := seen.(sealed := true, lineageMatch := true, lineageId := t.generationId);
        }
      }
    }

    // -------------------------------------------------------------- observation

    method PolicyForActive(r: ActiveRecord, allowStale: bool) returns (policy: Option<Policy>)
      ensures policy == PolicyFromActive(cfg, Snapshot(), r, allowStale)
    {
      if r.generationId !in generations {
        return None;
      }
      var verified := VerifyTree(generations[r.generationId], r.generationId, r.manifestSha, r.sealSha);
      if !verified {
        return None;
      }
      var bins := CollectRemovableBins(r.generationId);
      policy := Some(Policy(cfg.root, BinOf(cfg, r.generationId), bins, allowStale));
    }

    method CollectRemovableBins(activeGen: string) returns (bins: set<string>)
      ensures bins == RemovableBins(cfg, Snapshot(), activeGen)
    {
      bins := {};
      var left := generations.Keys;
      while left != {}
        invariant left <= generations.Keys
        invariant bins == set g | g in generations.Keys - left && ValidGenId(g) && g != activeGen :: BinOf(cfg, g)
        decreases left
      {
        var g :| g in left;
        if ValidGenId(g) && g != activeGen {
          bins := bins + {BinOf(cfg, g)};
        }
        left := left - {g};
      }
    }

    method ObserveEnvironmentNow() returns (seen: EnvObservation)
      ensures seen == ObserveEnvironment(cfg, Snapshot())
    {
      var r := LoadActiveRecord();
      if r.None? {
        return UnseenEnv;
      }
      var committed := HasCommittedRecord();
      var policy := PolicyForActive(r.value, committed);
      if policy.None? {
        return UnseenEnv;
      }
      var read := cfg.backend.read(env);
      if read.None? {
        return UnseenEnv;
      }
      var plan := ComputeEnvironmentPlan(cfg.norm, policy.value, read.value);
      seen := Observed(cfg.norm, plan, read.value);
    }

    method ScanUnknownDirectories() returns (unknown: set<string>)
      ensures unknown == UnknownDirectories(Snapshot())
    {
      var knownIds, knownGens := {}, {};
      for i := 0 to |txns|
        invariant knownIds == set j | 0 <= j < i :: txns[j].id
        invariant knownGens == set j | 0 <= j < i :: txns[j].generationId
      {
        knownIds := knownIds + {txns[i].id};
        knownGens := knownGens + {txns[i].generationId};
      }
      unknown := strange
        + (set g | g in generations && g !in knownGens :: "generations/" + g)
        + (set s | s in staging && s !in knownIds :: "staging/" + s);
      forall g ensures g !in knownGens <==> forall i :: 0 <= i < |txns| ==> txns[i].generationId != g { }
      forall s ensures s !in knownIds <==> forall i :: 0 <= i < |txns| ==> txns[i].id != s { }
    }

    /** Observe: the whole disk as one observation, with the trees of the primary record. */
    method ObserveDisk() returns (obs: Observation)
      ensures obs == Observe(cfg, Snapshot())
    {
      var views := InspectTransactions();
      var pointer := ReadActivePointer();
      var primary := PrimaryView(views, pointer);
      var stagingSeen, generationSeen := AbsentTree, AbsentTree;
      if primary.Some? {
        var full := LoadTransaction(primary.value.id);
        if full.Some? {
          stagingSeen := ObserveTreeAt(TreeOf(staging, full.value.id), full.value);
          generationSeen := ObserveTreeAt(TreeOf(generations, full.value.generationId), full.value);
        }
      }
      var unknown := ScanUnknownDirectories();
      var seen := ObserveEnvironmentNow();
      obs := Observation(views, stagingSeen, generationSeen, unknown, false, pointer, seen);
    }
  }

  lemma FirstIsIndex(txns: seq<Txn>, id: string, i: int)
    requires 0 <= i < |txns| && txns[i].id == id && forall j :: 0 <= j < i ==> txns[j].id != id
    ensures IndexOf(txns, id) == i
  {
    if i > 0 {
      assert forall j :: 0 <= j < i - 1 ==> txns[1..][j] == txns[j + 1];
      FirstIsIndex(txns[1..], id, i - 1);
    }
  }

  /** primaryTxn: the only nonterminal view, else the first view active.json names. */
  method PrimaryView(views: seq<View>, active: ActivePointer) returns (primary: Option<View>)
    ensures primary == Primary(views, active)
  {
    var pending: seq<int> := [];
    for i := 0 to |views|
      invariant forall k :: 0 <= k < |pending| ==> 0 <= pending[k] < i && Pending(views[pending[k]])
      invariant forall k, l :: 0 <= k < l < |pending| ==> pending[k] < pending[l]
      invariant forall k :: 0 <= k < i && Pending(views[k]) ==> k in pending
    {
      if Pending(views[i]) {
        pending := pending + [i];
      }
    }
    if |pending| == 1 {
      assert Sole(views, pending[0]);
      return Some(views[pending[0]]);
    }
    forall i ensures !Sole(views, i) {
      if |pending| > 1 { assert Pending(views[pending[0]]) && Pending(views[pending[1]]); }
    }
    if active.Valid? {
      for i := 0 to |views|
        invariant forall j :: 0 <= j < i ==> !(views[j].View? && views[j].generationId == active.generationId)
      {
        if views[i].View? && views[i].generationId == active.generationId {
          assert FirstNamed(views, active.generationId, i);
          return Some(views[i]);
        }
      }
    }
    primary := None;
  }
}
