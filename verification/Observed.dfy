/** What an observation shows in each kind of world, and the decision it leads to. */
module ObservedWorlds {
  import opened InstallTypes
  import opened Decide
  import opened World

  ghost predicate SoleTxn(w: World, i: int) {
    && 0 <= i < |w.txns| && Nonterminal(w.txns[i])
    && forall j :: 0 <= j < |w.txns| && Nonterminal(w.txns[j]) ==> j == i
  }

  /** active.json reads valid and names the generation of record k. */
  ghost predicate NamedTxn(w: World, k: int) {
    0 <= k < |w.txns| && ReadActive(w).Valid? && w.txns[k].generationId == ReadActive(w).generationId
  }

  ghost predicate HasFailable(w: World) {
    exists i :: 0 <= i < |w.txns| && Failable(w.txns[i].state)
  }

  /** Nothing makes recovery refuse before it looks at a transaction. */
  ghost predicate Readable(w: World) {
    w.malformed == [] && !ReadActive(w).Invalid?
  }

  ghost function StagingSeen(w: World, t: Txn): TreeObservation {
    ObserveTree(TreeOf(w.staging, t.id), t)
  }

  ghost function GenerationSeen(w: World, t: Txn): TreeObservation {
    ObserveTree(TreeOf(w.generations, t.generationId), t)
  }

  /** A staging tree the decision would clear once the generation of the record is sealed. */
  ghost predicate Leftover(w: World, t: Txn) {
    var s, g := StagingSeen(w, t), GenerationSeen(w, t);
    s.present && SealedHere(g) && (s.empty || s.lineageMatch)
  }

  lemma SoleView(w: World, i: int)
    requires w.malformed == []
    ensures Sole(Views(w), i) <==> SoleTxn(w, i)
  {
    var views := Views(w);
    if SoleTxn(w, i) {
      forall j | 0 <= j < |views| && Pending(views[j]) ensures j == i { assert Nonterminal(w.txns[j]); }
    }
    if Sole(views, i) {
      forall j | 0 <= j < |w.txns| && Nonterminal(w.txns[j]) ensures j == i { assert Pending(views[j]); }
    }
  }

  lemma PendingViews(w: World)
    requires w.malformed == []
    ensures AnyPending(Views(w)) <==> HasNonterminal(w)
    ensures !ReservedNameTaken(Views(w))
  {
    if AnyPending(Views(w)) {
      var i :| 0 <= i < |Views(w)| && Pending(Views(w)[i]);
      assert Nonterminal(w.txns[i]);
    }
    if HasNonterminal(w) {
      var i :| 0 <= i < |w.txns| && Nonterminal(w.txns[i]);
      assert Pending(Views(w)[i]);
    }
  }

  lemma FailableViews(w: World)
    requires w.malformed == []
    ensures AnyFailable(Views(w)) <==> HasFailable(w)
  {
    if AnyFailable(Views(w)) {
      var i :| 0 <= i < |Views(w)| && Pending(Views(w)[i]) && Failable(Views(w)[i].state);
      assert Failable(w.txns[i].state);
    }
    if HasFailable(w) {
      var i :| 0 <= i < |w.txns| && Failable(w.txns[i].state);
      assert Pending(Views(w)[i]);
    }
  }

  lemma ViewsOfWorld(w: World)
    requires w.malformed == []
    ensures |Views(w)| == |w.txns|
    ensures forall i :: Sole(Views(w), i) <==> SoleTxn(w, i)
    ensures AnyPending(Views(w)) <==> HasNonterminal(w)
    ensures AnyFailable(Views(w)) <==> HasFailable(w)
    ensures !ReservedNameTaken(Views(w))
  {
    hide Sole, SoleTxn, AnyPending, AnyFailable, HasNonterminal, HasFailable, ReservedNameTaken;
    PendingViews(w);
    FailableViews(w);
    forall i ensures Sole(Views(w), i) <==> SoleTxn(w, i) {
      SoleView(w, i);
    }
  }

  /** `obs` is the observation of the disk and `d` the decision on it. */
  ghost predicate DecidedAs(cfg: Config, w: World, obs: Observation, d: Decision) {
    obs == Observe(cfg, w) && d == DecisionFor(obs)
  }

  /** The observation is about this record: its trees, the pointer and the environment as they are on disk. */
  ghost predicate Shows(cfg: Config, w: World, t: Txn, obs: Observation) {
    && Primary(obs.transactions, obs.active) == Some(ViewOf(t))
    && obs.staging == StagingSeen(w, t)
    && obs.generation == GenerationSeen(w, t)
    && obs.active == ReadActive(w)
    && obs.environment == ObserveEnvironment(cfg, w)
  }

  /** A malformed record or an invalid pointer blocks, whatever else is on disk. */
  lemma UnreadableBlocks(cfg: Config, w: World, obs: Observation, d: Decision)
    requires !Readable(w) && DecidedAs(cfg, w, obs, d)
    ensures d == Blocked()
  {
    if w.malformed != [] {
      assert Views(w)[|w.txns|] == Malformed(true, w.malformed[0]);
    }
  }

  lemma ObserveSole(cfg: Config, w: World, i: int, obs: Observation, d: Decision)
    requires Distinct(w) && Readable(w) && SoleTxn(w, i) && DecidedAs(cfg, w, obs, d)
    ensures Shows(cfg, w, w.txns[i], obs)
    ensures d == DecideOne(obs, ViewOf(w.txns[i]))
  {
    ViewsOfWorld(w);
    IndexFinds(w, i);
    assert Sole(Views(w), i);
    assert forall j :: Sole(Views(w), j) ==> j == i;
  }

  lemma PrimaryNamed(w: World, k: int)
    requires Distinct(w) && Readable(w) && !HasNonterminal(w) && NamedTxn(w, k)
    ensures Primary(Views(w), ReadActive(w)) == Some(ViewOf(w.txns[k]))
  {
    ViewsOfWorld(w);
    forall i ensures !Sole(Views(w), i) { }
    assert FirstNamed(Views(w), ReadActive(w).generationId, k) by {
      assert forall j :: 0 <= j < k ==> w.txns[j].generationId != w.txns[k].generationId;
    }
    assert forall j :: FirstNamed(Views(w), ReadActive(w).generationId, j) ==>
          w.txns[j].generationId == w.txns[k].generationId;
  }

  lemma DecideNamed(w: World, k: int, obs: Observation)
    requires Distinct(w) && Readable(w) && !HasNonterminal(w) && NamedTxn(w, k)
    requires obs.transactions == Views(w) && obs.active == ReadActive(w) && !obs.reservedIdCollision
    ensures DecisionFor(obs) == NamedDecision(obs, w.txns[k].state)
  {
    ViewsOfWorld(w);
    assert ActiveRecordAt(obs, k);
    forall j | 0 <= j < |w.txns| && ActiveRecordAt(obs, j) ensures j == k {
      assert w.txns[j].generationId == w.txns[k].generationId;
    }
    assert Terminal(w.txns[k].state) by {
      assert Nonterminal(w.txns[k]) ==> HasNonterminal(w);
    }
    assert ActiveInState(obs, w.txns[k].state);
    assert !PointerUnrelated(obs);
  }

  lemma ObserveNamed(cfg: Config, w: World, k: int, obs: Observation, d: Decision)
    requires Distinct(w) && Readable(w) && !HasNonterminal(w) && NamedTxn(w, k) && DecidedAs(cfg, w, obs, d)
    ensures Shows(cfg, w, w.txns[k], obs)
    ensures d == NamedDecision(obs, w.txns[k].state)
    ensures Terminal(w.txns[k].state)
  {
    PrimaryNamed(w, k);
    IndexFinds(w, k);
    DecideNamed(w, k, obs);
    assert Nonterminal(w.txns[k]) ==> HasNonterminal(w);
  }

  /** The decision when no record is nonterminal and active.json names one in the given state. */
  function NamedDecision(obs: Observation, state: State): Decision {
    if state == State.Failed then
      if EnvComplete(obs.environment) then Do(Ready, Some(State.Committed), Action.Commit)
      else Do(Reconciling, Some(State.Activating), ReconcileEnv)
    else if LeftoverStaging(obs).Some? then Do(Ready, None, LeftoverStaging(obs).value)
    else if !EnvComplete(obs.environment) then Do(Ready, None, ReconcileEnv)
    else Do(Ready, None, NoAction)
  }

  /** With no nonterminal record and no named one, recovery has nothing to do. */
  lemma ObserveUnnamed(cfg: Config, w: World, obs: Observation, d: Decision)
    requires Distinct(w) && Readable(w) && !HasNonterminal(w) && (forall k :: !NamedTxn(w, k))
          && DecidedAs(cfg, w, obs, d)
    ensures d.gate == Ready && d.next.None? && (d.action == NoAction || d.action == DiagnoseRetain)
  {
    ViewsOfWorld(w);
    forall j | 0 <= j < |w.txns| ensures !ActiveRecordAt(obs, j) {
      assert !NamedTxn(w, j);
    }
  }

  lemma ObserveMany(cfg: Config, w: World, obs: Observation, d: Decision)
    requires Readable(w) && HasNonterminal(w) && (forall i :: !SoleTxn(w, i)) && DecidedAs(cfg, w, obs, d)
    ensures d ==
              if HasFailable(w) then Decision(Reconciling, None, Action.FailFailableExtras, Interrupted) else Blocked()
    ensures obs.transactions == Views(w)
  {
    ViewsOfWorld(w);
  }
}
