/** Activation, environment reconciliation and the recovery loop, as functions of the durable state. */
module Recovery {
  import opened InstallTypes
  import opened Seal
  import opened Environment
  import opened Decide
  import opened World
  import opened Collector

  // ---------------------------------------------------------------- persisting a transaction

  datatype TxnExec = TxnExec(world: World, txn: Txn, ok: bool)

  /** persist: save and reload; a failed save counts as done when the disk is already newer. */
  function Persist(w: World, t: Txn): TxnExec {
    var e := Save(w, t);
    if e.ok then
      TxnExec(e.world, if Load(e.world, t.id).Some? then Load(e.world, t.id).value else t, true)
    else
      match Load(w, t.id)
      case Some(l) => if l.revision > t.revision then TxnExec(w, l, true) else TxnExec(w, t, false)
      case None => TxnExec(w, t, false)
  }

  /** persistTxnState: set the state and code of a loaded record, stamping the times it enters. */
  function WithState(t: Txn, state: State, code: Code, now: Time): Txn {
    t.(state := state, errorCode := code, updatedAt := now,
       activatedAt := if state == State.Activating && t.activatedAt.None? then Some(now) else t.activatedAt,
       committedAt := if state == State.Committed && t.committedAt.None? then Some(now) else t.committedAt)
  }

  function PersistTxnState(w: World, id: string, state: State, code: Code): Exec {
    match Load(w, id)
    case None => Exec(w, false)
    case Some(t) =>
      if t.state == state && t.errorCode == code then Exec(w, true)
      else Save(w, WithState(t, state, code, w.clock))
  }

  // ---------------------------------------------------------------- activation

  ghost predicate TreeVerifies(w: World, t: Txn) {
    && t.generationId in w.generations
    && VerifySealedTree(w.generations[t.generationId], t.generationId, t.manifestSha, t.sealSha)
  }

  predicate PointerNames(p: ActivePointer, t: Txn) {
    p.Valid? && p.generationId == t.generationId && p.sealSha == t.sealSha
  }

  function SnapshotBefore(t: Txn, p: ActivePointer): Txn {
    match p
    case Valid(g, seal, _) => t.(beforeKind := BeforeValid, beforeGeneration := g, beforeDigest := seal)
    case _ => t.(beforeKind := BeforeAbsent, beforeGeneration := "", beforeDigest := NoDigest)
  }

  function MarkActivating(w: World, t: Txn): TxnExec {
    if t.state == State.Activating && t.activatedAt.Some? then TxnExec(w, t, true)
    else Persist(w, t.(state := State.Activating, updatedAt := w.clock,
                       activatedAt := if t.activatedAt.None? then Some(w.clock) else t.activatedAt))
  }

  /** The compare of the compare-and-swap on active.json. */
  predicate CasAllows(t: Txn, p: ActivePointer) {
    !p.Invalid? && (PointerNames(p, t)
    || match EffectiveKind(t.beforeKind, t.beforeGeneration)
       case BeforeAbsent => p.Missing?
       case BeforeValid =>
         p.Valid? && p.generationId == t.beforeGeneration && (t.beforeDigest == NoDigest || p.sealSha == t.beforeDigest)
       case Unrecorded => false)
  }

  /** The compare succeeds exactly when the decision saw the expected predecessor. */
  lemma CasMatchesDecision(t: Txn, p: ActivePointer)
    requires !PointerNames(p, t)
    ensures CasAllows(t, p) <==> ExpectedPredecessor(p, t.beforeKind, t.beforeGeneration, t.beforeDigest)
  {
  }

  function RecordFor(t: Txn, now: Time): ActiveRecord {
    ActiveRecord(t.runtimeKind, t.generationId, t.manifestSha, t.sealSha, t.sourcePin, t.expectedVersion, t.id, now)
  }

  /** Second half of activate: compare, write active.json, read it back, stamp the record. */
  ghost function Swing(w: World, t: Txn): TxnExec {
    var p := ReadActive(w);
    if p.Invalid? then TxnExec(w, t, false)
    else if PointerNames(p, t) then TxnExec(w, t, true)
    else if !CasAllows(t, p) then TxnExec(w, t, false)
    else
      var written := WriteActive(w, RecordFor(t, w.clock));
      if !written.ok || !PointerNames(ReadActive(written.world), t) || !TreeVerifies(written.world, t) then
        TxnExec(written.world, t, false)
      else if t.activatedAt.None? then
        Persist(written.world, t.(activatedAt := Some(w.clock), updatedAt := w.clock))
      else TxnExec(written.world, t, true)
  }

  ghost function ActivateTxn(w: World, t: Txn): TxnExec {
    if t.state != State.Published && t.state != State.Activating then TxnExec(w, t, false)
    else if !TreeVerifies(w, t) then TxnExec(w, t, false)
    else
      var p := ReadActive(w);
      if p.Invalid? then TxnExec(w, t, false)
      else if PointerNames(p, t) then MarkActivating(w, t)
      else if t.state == State.Published then
        var marked := MarkActivating(w, SnapshotBefore(t, p));
        if marked.ok then Swing(marked.world, marked.txn) else marked
      else Swing(w, t)
  }

  // ---------------------------------------------------------------- environment

  function WriteHome(cfg: Config, w: World, plan: Plan): Exec {
    if !plan.setHome then Exec(w, true)
    else
      match cfg.backend.writeHome(w.env, plan.home)
      case None => Exec(w, false)
      case Some(e) => Exec(w.(env := e), true)
  }

  function WritePath(cfg: Config, w: World, plan: Plan): Exec {
    if !plan.pathChanged then Exec(w, true)
    else
      match cfg.backend.writePath(w.env, plan.path)
      case None => Exec(w, false)
      case Some(e) => Exec(w.(env := e), true)
  }

  /** reconcileOnce: plan, write HERMES_HOME, write PATH, read back. */
  ghost function ReconcileOnce(cfg: Config, w: World, r: ActiveRecord, allowStale: bool): Exec {
    match PolicyFromActive(cfg, w, r, allowStale)
    case None => Exec(w, false)
    case Some(policy) =>
      match cfg.backend.read(w.env)
      case None => Exec(w, false)
      case Some(seen) =>
        var plan := PlanFor(cfg.norm, policy, seen);
        var home := WriteHome(cfg, w, plan);
        if !home.ok then home
        else
          var path := WritePath(cfg, home.world, plan);
          if !path.ok then path
          else
            var back := cfg.backend.read(path.world.env);
            Exec(path.world, back.Some? && EnvComplete(Observed(cfg.norm, plan, back.value)))
  }

  /** The environment as it is read back just before a commit. */
  ghost predicate CommitObserved(cfg: Config, w: World, r: ActiveRecord) {
    var policy := PolicyFromActive(cfg, w, r, false);
    var seen := cfg.backend.read(w.env);
    policy.Some? && seen.Some?
          && EnvComplete(Observed(cfg.norm, PlanFor(cfg.norm, policy.value, seen.value), seen.value))
  }

  function CommittedRecord(t: Txn, now: Time): Txn {
    t.(state := State.Committed, committedAt := Some(now), updatedAt := now)
  }

  ghost function CommitAndCollect(cfg: Config, w: World, t: Txn, r: ActiveRecord): Exec {
    if !CommitObserved(cfg, w, r) then Exec(w, false)
    else
      var done := Persist(w, CommittedRecord(t, w.clock));
      if !done.ok then Exec(done.world, false)
      else Exec(ReconcileOnce(cfg, Collect(done.world), r, true).world, true)
  }

  ghost function ReconcileEnvironment(cfg: Config, w: World, id: string): Exec {
    match Load(w, id)
    case None => Exec(w, false)
    case Some(t) =>
      if t.state != State.Activating && t.state != State.Committed then Exec(w, false)
      else
        match LoadActive(w)
        case None => Exec(w, false)
        case Some(r) =>
          if r.generationId != t.generationId && t.state == State.Activating then Exec(w, false)
          else
            var once := ReconcileOnce(cfg, w, r, t.state == State.Committed || HasCommitted(w));
            if !once.ok then once
            else if t.state == State.Activating then CommitAndCollect(cfg, once.world, t, r)
            else Exec(ReconcileOnce(cfg, once.world, r, true).world, true)
  }

  // ---------------------------------------------------------------- actions on the primary record

  ghost function PrimaryOf(obs: Observation): Option<View> {
    Primary(obs.transactions, obs.active)
  }

  ghost function PersistPrimary(w: World, obs: Observation, d: Decision): Exec {
    if d.next.None? || PrimaryOf(obs).None? then Exec(w, true)
    else PersistTxnState(w, PrimaryOf(obs).value.id, d.next.value, d.code)
  }

  ghost function PersistActivatingPrimary(w: World, obs: Observation): Exec {
    if PrimaryOf(obs).None? then Exec(w, false)
    else
      match Load(w, PrimaryOf(obs).value.id)
      case None => Exec(w, false)
      case Some(t) =>
        if obs.active.Invalid? then Exec(w, false)
        else Save(w, SnapshotBefore(t, obs.active).(state := State.Activating, updatedAt := w.clock))
  }

  ghost function RemoveEmptyStagingDir(w: World, obs: Observation): Exec {
    match PrimaryOf(obs)
    case None => Exec(w, true)
    case Some(v) =>
      if v.id !in w.staging then Exec(w, true)
      else if w.staging[v.id] != map[] then Exec(w, false)
      else Exec(w.(staging := w.staging - {v.id}), true)
  }

  ghost function RemoveEmptyGenerationDir(w: World, obs: Observation): Exec {
    match PrimaryOf(obs)
    case None => Exec(w, true)
    case Some(v) =>
      if v.generationId !in w.generations then Exec(w, true)
      else if w.generations[v.generationId] != map[] then Exec(w, false)
      else Exec(w.(generations := w.generations - {v.generationId}), true)
  }

  ghost function MoveStagingAside(w: World, obs: Observation): Exec {
    match PrimaryOf(obs)
    case None => Exec(w, true)
    case Some(v) =>
      if v.id !in w.staging then Exec(w, true)
      else if v.id in w.failed then Exec(w, false)
      else Exec(w.(staging := w.staging - {v.id}, failed := w.failed[v.id := w.staging[v.id]]), true)
  }

  ghost function RemoveProvenStaging(w: World, obs: Observation): Exec {
    if PrimaryOf(obs).None? || !obs.staging.lineageMatch || !obs.generation.sealed then Exec(w, true)
    else Exec(w.(staging := w.staging - {PrimaryOf(obs).value.id}), true)
  }

  /** failFailableExtras: every CREATED or BUILDING view in turn, stopping at the first error. */
  function FailExtras(w: World, views: seq<View>, n: nat): Exec
    requires n <= |views|
  {
    if n == 0 then Exec(w, true)
    else
      var before := FailExtras(w, views, n - 1);
      var v := views[n - 1];
      if !before.ok || v.Malformed? || !Failable(v.state) then before
      else PersistTxnState(before.world, v.id, State.Failed, Interrupted)
  }

  ghost function Then(e: Exec, obs: Observation, d: Decision): Exec {
    if e.ok then PersistPrimary(e.world, obs, d) else e
  }

  ghost function Execute(cfg: Config, w: World, obs: Observation, d: Decision): Exec {
    match d.action
    case NoAction => PersistPrimary(w, obs, d)
    case RemoveEmptyStaging => Then(RemoveEmptyStagingDir(w, obs), obs, d)
    case RemoveEmptyGeneration => Then(RemoveEmptyGenerationDir(w, obs), obs, d)
    case MoveStagingToFailed => Then(MoveStagingAside(w, obs), obs, d)
    case GCStaging => RemoveProvenStaging(w, obs)
    case PersistPublished => PersistPrimary(w, obs, d)
    case PersistActivating => PersistActivatingPrimary(w, obs)
    case Activate =>
      if PrimaryOf(obs).None? then Exec(w, false)
      else
        (match Load(w, PrimaryOf(obs).value.id)
         case None => Exec(w, false)
         case Some(t) => var e := ActivateTxn(w, t); Exec(e.world, e.ok))
    case FailFailableExtras => FailExtras(w, obs.transactions, |obs.transactions|)
    case ReconcileEnv =>
      var marked := PersistPrimary(w, obs, d);
      if !marked.ok then marked
      else if PrimaryOf(obs).None? then Exec(marked.world, false)
      else ReconcileEnvironment(cfg, marked.world, PrimaryOf(obs).value.id)
    case Commit => PersistPrimary(w, obs, d.(next := Some(State.Committed)))
    case FailTransaction => Exec(w, true)
    case DiagnoseRetain => Exec(w, true)
    case BlockUnsafe => Exec(w, true)
  }

  // ---------------------------------------------------------------- the recovery loop

  const MAX_RECOVER_STEPS: nat := 8

  datatype Stop = Finished | ActionFailed | GuardTripped | StepsExhausted

  datatype Recovered = Recovered(world: World, gate: Gate, decision: Decision, stop: Stop, steps: nat)

  predicate Blocks(d: Decision) {
    d.gate == BlockedUnsafe || d.action == BlockUnsafe
  }

  predicate Rests(d: Decision) {
    (d.action == NoAction && d.next.None?) || d.action == DiagnoseRetain
  }

  function RankState(s: State): int {
    match s
    case Created => 1
    case Building => 2
    case Sealed => 3
    case Published => 4
    case Activating => 5
    case Committed => 6
    case Failed => 0
  }

  predicate ForwardOrNoop(prev: Decision, next: Decision) {
    if Blocks(next) then false
    else if next.action == NoAction || next.action == DiagnoseRetain || next.action == ReconcileEnv then true
    else if prev.action != next.action then true
    else prev.next.Some? && next.next.Some? && prev.next != next.next
         && RankState(next.next.value) > RankState(prev.next.value)
  }

  /** RecoverWith under the lock, from iteration `step` with the decision executed before it. */
  ghost function Recover(cfg: Config, w: World, step: nat, prev: Decision): Recovered
    requires step <= MAX_RECOVER_STEPS
    decreases MAX_RECOVER_STEPS - step
  {
    if step == MAX_RECOVER_STEPS then Recovered(w, BlockedUnsafe, Blocked(), StepsExhausted, step)
    else
      var obs := Observe(cfg, w);
      var d := DecisionFor(obs);
      if Blocks(d) then Recovered(w, BlockedUnsafe, d, Finished, step + 1)
      else if Rests(d) then Recovered(if d.gate == Ready then Collect(w) else w, d.gate, d, Finished, step + 1)
      else if step > 0 && !ForwardOrNoop(prev, d) then Recovered(w, BlockedUnsafe, d, GuardTripped, step + 1)
      else
        var e := Execute(cfg, w, obs, d);
        if e.ok then Recover(cfg, e.world, step + 1, d)
        else
          var gate := if d.action == ReconcileEnv then Reconciling else BlockedUnsafe;
          Recovered(e.world, gate, d, ActionFailed, step + 1)
  }

  const NoDecision := Decision(Ready, None, NoAction, NoCode)

  ghost function RecoverWith(cfg: Config, w: World): Recovered {
    Recover(cfg, w, 0, NoDecision)
  }
}
