# Crash-safe installs: a Dafny model

This project models the generational installer of the node service and proves what its crash safety rests on. An install
is a transaction that moves CREATED, BUILDING, SEALED, PUBLISHED, ACTIVATING, COMMITTED, or FAILED. Its record is saved under
an optimistic revision, its tree is sealed by a manifest, `active.json` is swung by compare-and-swap against a recorded
predecessor, startup recovery observes the disk, decides, executes one action and loops, and a collector deletes trees that
are no longer needed.

Four smaller parts of the repository are modelled beside it: single-flight runtime discovery, the digest and the copy of
managed skill bundles, the staged migration of the desktop's legacy data, and the projection of stored operations from
install transactions.

## How it is built

- `Types`, `Seal`, `Environment`, `World`, `Decide`, `Collector` and `Recovery` define records, trees, the durable state and
  what each operation does to it, as functions of that state.
- `Store`, `Collecting`, `Recovering` and `Managing` are the imperative side: a `Disk` object whose fields are the durable
  state, and the methods with the loops of the source. Each method is proved against its function. `Disk.Reachable` says
  that the disk is what a run of the protocol's steps left; the manager's methods record each durable write as one step.
- `Runs` lists the steps and the invariant every run keeps. `Safety` states what follows: pointer safety, the lifecycle
  graph, the activation chain, retention and the commit point. `Refinement` shows that recovery and collection take only
  such steps. `Convergence` proves how recovery ends.
- `Observed`, `Reconcile`, `Termination` and `Evidence` are about recovery from arbitrary disks, reachable or not.
  `World.Filed` says what every disk has, one record file for an identifier; `World.Distinct` adds that no two records share a
  generation identifier, which are drawn at random and never reused.
- `Losses` says, for reachable disks, exactly which trees a commit inside recovery deletes.
- `Gates`, `Verdicts`, `Activation`, `Deletions`, `Paths` and `Records` state the outcomes in the terms of who meets them: the
  gate a run leaves under any environment, what each decision is made on, what an activation writes field by field, which
  trees a collection deletes by the files in them, what is left on PATH, and what a save and a look at the disk mean.
- `Atomic`, `SingleFlight`, `Bundle`, `Migration` and `Projection` stand alone.

A crash drops memory only, so it is the end of a run of durable steps; a theorem about every run is one about every crash
point. `history` in the durable state is auxiliary: it lists the pointer writes. Times come from a clock that every save
moves on.

## Results that differ from what one might expect

- A crash at SEALED or PUBLISHED with an active predecessor ends BLOCKED_UNSAFE, because the predecessor is stored only
  together with ACTIVATING (`services/node/internal/install/activate.go:28-41`) and an unrecorded kind is read as ABSENT
  (`services/node/internal/install/recovery_decide.go:201-215`). `Convergence.InterruptedInstallEnds` gives every case.
- The forward guard of the recovery loop can fire: with an empty staging directory left for the active committed record and
  another for the record that is failed, the second RemoveEmptyStaging repeats the first action without a later state
  (`services/node/internal/install/recover.go:113-130`). `Termination.RecoveryTerminates` says exactly when, and
  `Termination.GuardCanFire` gives the disk. Installs of the present code build under generations/ and never make such a disk.
- `persist` reports success to a writer that was overtaken (`services/node/internal/install/manager.go:253-257`).
- The environment plan's changed flag is wrong for one kind of input, and planning again is not idle, when the desired bin is
  itself removable under the platform's spelling of paths. `Environment.ChangedFlagIsExact` and `Environment.ReplanIsIdle` say
  exactly when; `Environment.ChangedFlagCanBeWrong` and `Environment.ReplanCanChange` give an input.
- A commit inside recovery collects before recovery ends (`services/node/internal/install/environment_apply.go:66-77`), so a
  proven tree can go before the final collection. `Losses.CommitTakesEvidence` gives a disk on which a verifying generation
  goes; `Losses.RecoveryLosesExactly` says, from what is on the disk before the recovery, exactly when and which trees;
  `Evidence.NothingToCommitKeepsTrees` says when none goes whatever the environment does.
- A record with a blank source pin or version passes transaction validation but not validation of `active.json`
  (`services/node/internal/install/transaction.go:83-139`, `services/node/internal/install/active_pointer.go:107-130`); such
  an install cannot be activated and blocks. `Convergence.BlankPinBlocks` gives the disk.

## Modelling choices

- SHA-256 is injective, and fresh identifiers are unused. A record is its decoded value, and an ill-formed one is malformed or
  INVALID. Trees map the paths of regular files to contents; they have no links.
- `install.lock` is an exclusive lock: operations on the disk do not interleave. The worker holds it from SealNew to the
  commit (`services/node/internal/runtime/hermes/apply_generation.go:23-27`).
- The rename that replaces a record is the Windows one (`services/node/internal/install/atomic_windows.go:7-17`). In the
  installer each record write is one step; `Atomic` shows what one write is made of. The write of the candidate record is
  kept as two steps, so a lone temporary file can be left in a generation directory.
- The environment backend of a process is given by three functions on the environment that may fail; `Working` says that they
  do not. Theorems without `Working` hold for all of them. A history is a sequence of sessions, each with a backend of its own.
- The build callback writes any files but the candidate, manifest and generation records; build, validation, hooks and
  operations may fail at any point of a given set.
- In single-flight discovery one method is one section under the mutex; what every method keeps holds in every interleaving.
- Opaque text such as paths and identifiers is `string`; bundle paths are texts of bytes shorter than a 4-byte length.

## Model

| member | source | states |
|---|---|---|
| Convergence.CrashConvergence | services/node/internal/install/recover.go:46-101 | Take any processes running installs, recoveries and collections, cut at any durable step, then any number of recoveries cut the same way, each process with an environment of its own that may fail; an uncut recovery with a working environment ends with exactly the gate, pointer and record states predicted from the first cut, in at most six iterations, never by the guard or the step cap, at rest when READY, and recovering again changes nothing. |
| Convergence.InterruptedInstallEnds | services/node/internal/install/recovery_decide.go:80-182 | The prediction state by state: CREATED ends FAILED without a code and attributable BUILDING FAILED as interrupted, READY with the pointer unmoved; SEALED or PUBLISHED with an active predecessor ends PUBLISHED and BLOCKED_UNSAFE; without one, and from ACTIVATING, it ends COMMITTED and active; a BUILDING tree with only a temporary file, or a record that active.json refuses, blocks. |
| Convergence.BlankPinBlocks | services/node/internal/install/active_pointer.go:107-130 | A record with a blank source pin is valid to the store, and recovery of a first install with such a record publishes it, marks it ACTIVATING and blocks with no active.json. |
| Convergence.CrashedRecoveriesKeepPrediction | services/node/internal/install/recovery_execute.go:9-144 | Wherever crashed recoveries leave the disk, the predicted end is the one of the disk they started from. |
| Convergence.RecoveryTakesSteps | services/node/internal/install/recover.go:66-97 | Recovery takes only steps of the protocol, whatever the environment backend does and whether it finishes or fails. |
| Convergence.LoopEnds | services/node/internal/install/recover.go:66-97 | From any iteration and with any environment, a loop that stops by itself ends as predicted and a second recovery of that disk is idle; or the gate is RECONCILING, exactly when a reconciliation failed on a disk the loop had reached. |
| Gates.GateVerdict | services/node/internal/install/recover.go:66-101 | On any disk and with any environment a run ends READY exactly when it came to rest, RECONCILING exactly when the action that failed was the reconciliation of the environment, and BLOCKED_UNSAFE otherwise: a blocking decision, another failed action, a tripped guard or the last iteration. |
| Gates.AnyEnvironmentEnds | services/node/internal/install/recover.go:46-101 | Recovery with any environment, after any processes and cut recoveries: READY and BLOCKED_UNSAFE ends are the predicted ones; at a RECONCILING end active.json names an ACTIVATING or COMMITTED record, and a later recovery with a working environment still ends as predicted. |
| Gates.RefusedWriteEndsReconciling | services/node/internal/install/environment_apply.go:82-134 | Where active.json names the only record that may be under way, home or PATH is not in place and the backend reads but refuses the write needed, recovery ends RECONCILING after one iteration with every record, tree and the pointer as they were. |
| Runs.StepKeeps | services/node/internal/install/manager.go:86-170 | Every durable step of manager, recovery, environment and collection keeps the protocol invariant. |
| Runs.RunKeeps | services/node/internal/install/manager.go:86-192 | The invariant holds after every run of steps, so at every crash point. |
| Runs.SessionsKeep | services/node/internal/install/manager.go:86-192 | The invariant holds after any number of processes, whatever environment each of them met. |
| Runs.LatestIsReplaced | services/node/internal/install/gc.go:116-137 | The record the collector retains as latest superseded is the one the pointer last replaced. |
| Safety.PointerSafety | services/node/internal/install/active_pointer.go:85-105 | In every reachable state active.json is missing or names a generation that verifies against its seal and belongs to an ACTIVATING or COMMITTED record; it never reads INVALID. |
| Safety.ActiveRecordIsTheWriters | services/node/internal/install/activate.go:56-72 | In every reachable state with active.json there is one ACTIVATING or COMMITTED record whose kind, source pin, version, generation, digests and identifier it holds, each in its own field. |
| Safety.EveryChangeIsAnEdge | services/node/internal/install/transaction_store.go:34-68 | Although a save accepts any state, every single persisted change of any process in a history is one edge of the intended graph, the creation of a CREATED record, or the stamp of an activation time on an ACTIVATING one. |
| Safety.LifecycleMovesOn | services/node/internal/install/transaction_store.go:34-68 | Between any two states of a history of processes every record has followed a path of the graph; a sealed record keeps its build, a terminal one is never written again, pointer writes are never taken back. |
| Safety.PathIsClosure | services/node/internal/install/types.go:7-25 | The path relation is the reflexive transitive closure of the lifecycle edges. |
| Safety.LifecycleHolds | services/node/internal/app/runtime_install.go:129-166 | In every reachable state at most one record is nonterminal and active.json never names a FAILED one. |
| Safety.ActivationChain | services/node/internal/install/activate.go:36-74 | Each pointer write goes from the pointer left by the one before, which is exactly the recorded predecessor, to the writer's own generation; writers are distinct and all but the last are COMMITTED. |
| Safety.ActivatePassesCompare | services/node/internal/install/activate.go:135-166 | For an ACTIVATING record of a reachable disk the compare always succeeds, and active.json names it exactly when it has written. |
| Activation.ActivateExactly | services/node/internal/install/activate.go:8-94 | Activation on any disk succeeds exactly for a PUBLISHED or ACTIVATING record whose tree verifies, under a readable pointer that names it already, or that may be written and, for an ACTIVATING one, passes the compare; then it is ACTIVATING and named, otherwise active.json is as it was. |
| Activation.ActivateWritesFields | services/node/internal/install/activate.go:56-72 | After an activation that swung, active.json holds every field of the record, dated no earlier than the start; when it named the record already it is unchanged. |
| Safety.RetainedTreesVerify | services/node/internal/install/gc.go:84-114 | In every reachable state the active generation, the one it immediately replaced and the sealed tree in flight are on disk and verify. |
| Safety.CollectRetains | services/node/internal/install/gc.go:30-80 | A collection leaves those trees and every tree of a transaction in flight untouched. |
| Safety.CollectTwice | services/node/internal/install/gc.go:84-160 | In every reachable state a second collection deletes nothing. |
| Safety.CommitPointInRuns | services/node/internal/install/environment_apply.go:57-77 | A record is COMMITTED only if some process of the history passed through a state where it was ACTIVATING, active.json named its generation, the tree verified, and the home and PATH that process read were the ones the generation asks for. |
| Refinement.CollectRuns | services/node/internal/install/gc.go:47-80 | A collection is a sequence of reclaims of places that neither active.json, the replaced generation nor a transaction in flight needs. |
| Refinement.ReconcileRuns | services/node/internal/install/environment_apply.go:35-80 | Reconciling is environment writes, at most one commit, and reclaims. |
| Termination.RecoveryTerminates | services/node/internal/install/recover.go:66-101 | From any disk whose records have distinct transaction and generation identifiers, with a working environment: at most six iterations, never the step cap, and the guard fires exactly on a disk with an empty staging directory both for the one failable record and for the active committed one. |
| Termination.StepAdvances | services/node/internal/install/recover.go:113-151 | Every action that succeeds lowers the measure of work left. |
| Termination.FailExtrasRuns | services/node/internal/install/recovery_execute.go:122-132 | Failing the extras fails every CREATED or BUILDING record as interrupted and touches no other. |
| Termination.GuardCanFire | services/node/internal/install/recover.go:113-130 | A concrete disk on which the forward guard stops recovery with an error. |
| Termination.SharedGenerationTripsGuard | services/node/internal/install/recover.go:113-130 | Why the identifiers must be distinct: where a COMMITTED and a FAILED record share the active generation, recovery repeats the same commit and the guard fires without any staging directory. |
| Termination.GuardFiresOnce | services/node/internal/install/recover.go:80-83 | After the guard fired, the next recovery does not meet it. |
| Evidence.RecoveryKeepsEvidence | services/node/internal/install/recovery_execute.go:9-61 | From any disk and with any environment: before the final collection every non-empty tree is in place, under failed/, or was a staging tree whose own record already had a sealed matching generation, unless a commit on the way collected it, proven and unprotected on the disk of that very commit; the final collection, made only when READY, deletes proven and unprotected trees alone. |
| Losses.RecoveryLosesExactly | services/node/internal/install/environment_apply.go:57-77 | Exactly what goes before the final collection, for every disk that any processes left and with a working environment: a tree that holds a file is gone if and only if recovery will commit a record (ACTIVATING, and active.json names it or accepts it; SEALED or PUBLISHED, with no active.json yet and accepted by it), home or PATH prefix is not already in place for it, and the tree is proven, not that record's, not the latest other committed generation and not the latest failed tree; any other tree is unchanged. |
| Losses.CommitTakesEvidence | services/node/internal/install/gc.go:30-80 | A concrete disk: two superseded COMMITTED generations, a third install that crashed after it wrote active.json, and an incomplete environment; the older generation, which verifies, is gone at the exit of the loop. |
| Losses.CommitTakesSuperfluous | services/node/internal/install/gc.go:84-160 | The collection of a commit removes exactly the trees that were superfluous beside the record before it was committed. |
| Deletions.OnlyShownTreesGo | services/node/internal/install/gc.go:176-189 | On any disk, a tree a collection removes stands where a record leaves its trees and holds the two seal files of its digests, or, for a record without digests, a generation record or else a candidate of its own. |
| Deletions.NeededTreesStay | services/node/internal/install/gc.go:84-114 | On any disk a collection leaves the active generation and the staging and generation trees of every record in flight. |
| Deletions.OlderFailedBuildGoes | services/node/internal/install/gc.go:139-160 | Of two builds that failed unsealed and left their candidate record, the older is deleted by the next collection; the latest failed one is kept. |
| Deletions.SupersededGenerationGoes | services/node/internal/install/gc.go:116-137 | A committed generation goes exactly when its two seal files hash to its digests, it is not the active one, and another that is not active committed later. |
| Deletions.CommittedGoes | services/node/internal/install/gc.go:43-80 | The same for any committed record, with the tree proven by whatever the record can show. |
| Deletions.FailedGoes | services/node/internal/install/gc.go:43-80 | A failed generation goes exactly when it is proven and a later failed one is proven too. |
| Deletions.UnsealedIsProven | services/node/internal/install/gc.go:176-189 | A tree is proven for a record without digests exactly by a readable generation record that names it, or, with none, by a well-formed candidate record that does. |
| Deletions.SealedIsProven | services/node/internal/install/gc.go:176-189 | A tree is proven for a record that was sealed on some tree exactly when both seal files hash to its digests. |
| Evidence.NothingToCommitKeepsTrees | services/node/internal/install/recovery_execute.go:146-225 | With any environment: where every record is CREATED, BUILDING or terminal and active.json names no record but a COMMITTED one, every non-empty tree is in place or under failed/ before the final collection, except a staging tree whose own record already had a sealed matching generation. |
| Evidence.NothingIsCollected | services/node/internal/install/environment_apply.go:35-80 | On such a disk no iteration of the loop collects, whatever the environment does. |
| Evidence.WithoutCommitNothingIsDeleted | services/node/internal/install/recovery_execute.go:146-225 | On any disk, if the run lists no collection before its exit, the same holds. |
| Evidence.OnlyCommitsCollect | services/node/internal/install/environment_apply.go:57-77 | Every collection before the exit of the loop follows a save that just committed a record. |
| Evidence.RunEndsAtExit | services/node/internal/install/recover.go:76-79 | A run ends with the disk at the exit of its loop, or with one collection of it exactly when it finishes READY. |
| Evidence.ExecuteKept | services/node/internal/install/recovery_execute.go:9-61 | One action, successful or not, accounts for every non-empty tree; only a reconciliation that commits an ACTIVATING record collects. |
| Reconcile.CommitPoint | services/node/internal/install/environment_apply.go:35-80 | For any backend, a reconciliation that succeeds on an ACTIVATING record saw the pointer name it and read both values in place, and only then saved COMMITTED. |
| Reconcile.EnvironmentFailureKeepsActivating | services/node/internal/install/environment_apply.go:50-69 | When it fails nothing but the environment has changed: still ACTIVATING, pointer unmoved. |
| Reconcile.CommitSawValues | services/node/internal/install/environment_apply.go:57-69 | What a commit observed: the active tree passes the full check, and the home and PATH that were read are the ones it asks for. |
| Reconcile.CommittedReconcilesActive | services/node/internal/install/environment_apply.go:35-55 | Reconciling any COMMITTED record, active or not, succeeds exactly when active.json names a tree that verifies, changes the environment alone and leaves it ready for that tree. |
| Recovery.CasMatchesDecision | services/node/internal/install/recovery_decide.go:201-226 | For a pointer that does not name the record, the compare of the swap succeeds exactly when the decision saw the expected predecessor. |
| Decide.DecideRecovery | services/node/internal/install/recovery_decide.go:6-36 | The loops compute the decision function of the observation. |
| Decide.DecideWithoutPending | services/node/internal/install/recovery_decide.go:38-61 | The decision when no record is nonterminal, including a FAILED record that is active. |
| Verdicts.WhatFails | services/node/internal/install/recovery_decide.go:80-144 | Exactly when a record is failed, with which code and which clearing: a CREATED or BUILDING one with trees in one place at most and no foreign generation, or a SEALED one still in staging. |
| Verdicts.WhatMovesOn | services/node/internal/install/recovery_decide.go:112-182 | Exactly when a record is published, marked ACTIVATING, activated, reconciled or committed, in terms of its sealed generation, leftover staging, what active.json names and what it read before. |
| Verdicts.WhatIsCleared | services/node/internal/install/recovery_decide.go:80-195 | Exactly when an empty directory is removed or a superseded staging tree is deleted. |
| Verdicts.WhatBlocks | services/node/internal/install/recovery_decide.go:80-182 | Exactly which contradictions block as unsafe, and that every other block is an inconsistency. |
| Verdicts.WhatTerminalNeeds | services/node/internal/install/recovery_decide.go:38-61 | With no record in flight, exactly when an active record is committed or reconciled, its leftovers cleared, or unknown directories noted. |
| Verdicts.WhatComesFirst | services/node/internal/install/recovery_decide.go:6-36 | An invalid pointer, a reserved identifier or a malformed record blocks before anything else; several records in flight are failed where they may be, and block otherwise. |
| Verdicts.CompareIsAsBefore | services/node/internal/install/activate.go:135-166 | The compare passes exactly when active.json names the record, or reads as before: absent, or the recorded generation under the recorded seal, an unrecorded kind counting by its generation. |
| Verdicts.GuardLetsPass | services/node/internal/install/recover.go:113-151 | The guard lets a decision follow exactly when it does not block and is idle, reconciles, acts differently, or acts alike towards a later state. |
| ObservedWorlds.ObserveSole | services/node/internal/install/observe.go:16-69 | With one nonterminal record the observation shows its trees, the pointer and the environment, and the decision is its state's. |
| Collector.SecondCollectionIsIdle | services/node/internal/install/gc.go:84-160 | With distinct times and one proven tree per failure a second collection is the identity, in whatever order equal times sort. |
| Collector.CollectedPlaces | services/node/internal/install/gc.go:43-80 | A collection removes exactly the proven, unprotected trees. |
| Collector.CollectKeepsPointer | services/node/internal/install/gc.go:93-98 | The pointer reads the same after a collection. |
| Collector.LatestHitIsLatest | services/node/internal/install/gc.go:139-160 | The failed tree that is retained is proven and belongs to a FAILED record none is later than. |
| Collecting.CollectTrees | services/node/internal/install/gc.go:30-80 | The deletion loop ends in the collected disk and reports exactly what it deleted and kept; stopped by a failure it has touched only doomed trees. |
| Collecting.RetentionSet | services/node/internal/install/gc.go:84-114 | The set built is exactly the protected places. |
| Collecting.GcCandidates | services/node/internal/install/gc.go:201-254 | The candidates are exactly the directories whose lineage a record proves. |
| Collecting.LatestPreviousCommitted | services/node/internal/install/gc.go:116-137 | The scan finds a COMMITTED record off the pointer with the greatest time. |
| Collecting.LatestFailedProven | services/node/internal/install/gc.go:139-160 | The scan finds the proven tree of the latest FAILED record. |
| Store.Disk.SaveTransaction | services/node/internal/install/transaction_store.go:34-68 | A valid record is written only over the revision it was read at, with the next revision; otherwise nothing changes. |
| Store.Disk.LoadTransaction | services/node/internal/install/transaction_store.go:70-83 | The record of that identifier, or none when it is missing or malformed. |
| Store.Disk.InspectTransactions | services/node/internal/install/transaction_store.go:128-171 | One view for each record and each malformed file, in order. |
| Store.Disk.HasNonterminalRecord | services/node/internal/install/transaction_store.go:92-103 | True exactly when a record is nonterminal. |
| Store.Disk.PersistTransaction | services/node/internal/install/manager.go:250-266 | Save and reload; a failed save over a newer record counts as done. |
| Store.Disk.ReadActivePointer | services/node/internal/install/active_pointer.go:85-105 | Missing, invalid or valid, by the record and the published seal it names. |
| Store.Disk.WriteActiveRecord | services/node/internal/install/active_pointer.go:41-57 | A valid record replaces active.json and the write is appended to the history; an invalid one changes nothing. |
| Store.Disk.VerifyTree | services/node/internal/install/verify.go:19-72 | The method accepts exactly the trees that pass the metadata check and whose second walk equals the stored manifest. |
| Store.Disk.ObserveTreeAt | services/node/internal/install/observe.go:71-98 | Presence, emptiness, lineage and seal of a tree, step by step. |
| Store.Disk.ObserveDisk | services/node/internal/install/observe.go:16-49 | The observation of the whole disk. |
| Store.Disk.ScanUnknownDirectories | services/node/internal/install/observe.go:127-175 | Exactly the directories no record accounts for. |
| Store.PrimaryView | services/node/internal/install/observe.go:51-69 | The only nonterminal view, else the first active.json names. |
| World.SaveReplaces | services/node/internal/install/transaction_store.go:34-68 | Saving a changed copy of a loaded record replaces that record and nothing else. |
| Records.SaveExactly | services/node/internal/install/transaction_store.go:34-68 | On any disk a save goes through exactly for a valid record over the very revision it was read at; then that record alone differs, with the next revision. |
| Records.PersistExactly | services/node/internal/install/manager.go:250-266 | persist succeeds exactly when the save went through or the disk is newer than the caller, who is then handed the newer record. |
| Records.SeenTree | services/node/internal/install/observe.go:71-98 | A tree is seen sealed exactly when the full check passes, and its lineage matches when sealed, by its generation record, or by a candidate of this very transaction and generation. |
| Records.NothingUnknown | services/node/internal/install/observe.go:127-175 | Nothing is noted exactly when every directory belongs to a record. |
| Records.DisagreeingSealIsRefused | services/node/internal/install/verify.go:20-72 | A seal of another generation, place, manifest or schema is refused, and so is a tree that lists differently. |
| Records.CommitTimeDecides | services/node/internal/install/gc.go:191-199 | A committed record counts by its commit: one committed earlier is not the one retained, whenever it was saved last. |
| Recovering.RecoverRoot | services/node/internal/install/recover.go:46-101 | The loop ends as the recovery function says, with the gate set to its verdict, which GateVerdict ties to how the run stopped; a reachable disk stays reachable. |
| Recovering.ExecuteAction | services/node/internal/install/recovery_execute.go:9-61 | The action executed leaves the disk the decision asks for. |
| Recovering.ReconcileEnvironmentOn | services/node/internal/install/environment_apply.go:35-80 | Reconcile, observe, commit, collect and reconcile again, in that order. |
| Recovering.ReconcileOnceOn | services/node/internal/install/environment_apply.go:82-134 | HERMES_HOME before PATH, and success only when both read back. |
| Recovering.ActivateRecord | services/node/internal/install/activate.go:8-94 | Verify, snapshot the predecessor, mark ACTIVATING, compare, swing, read back, stamp; after a success active.json holds the record field by field, or is unchanged when it named it. |
| Recovering.FailFailableExtrasOn | services/node/internal/install/recovery_execute.go:122-132 | Every CREATED or BUILDING view in turn, stopping at the first error. |
| Managing.ApplyGeneration | services/node/internal/runtime/hermes/apply_generation.go:11-82 | The install worker: with a working environment it commits exactly when the record was accepted, nothing failed and active.json accepts it, and home and PATH then serve it; a failed build ends FAILED with its code and the pointer unmoved, a record active.json refuses or an environment that fails leaves it ACTIVATING; active.json is the record's own, field by field, or as before; the disk stays reachable. |
| Managing.Install | services/node/internal/app/runtime_install.go:331-420 | From any reachable disk with a working environment, starting an install and running its worker commits exactly when no earlier install must finish first, nothing fails and active.json accepts the record; active.json then holds its identifier, source pin and version, and home and PATH serve it. Refused, nothing changes; failed, its record says how, and the pointer has not moved unless it was written for it. |
| Managing.SealNew | services/node/internal/install/manager.go:86-168 | From an accepted CREATED record, saved before or with fresh identifiers on a disk without another build, to SEALED exactly when nothing fails, with a verifying tree that holds the candidate and what the build wrote; a failure up to the build ends FAILED as interrupted, one after it as an invalid seal; a refused record changes nothing. |
| Managing.UnsavedNeedsIdleDisk | services/node/internal/install/manager.go:90-93 | Saving an unsaved record without looking keeps at most one nonterminal record exactly when there was none. |
| Managing.SealGeneration | services/node/internal/install/seal.go:41-139 | Succeeds exactly when no hook or operation fails, and then the tree carries a valid seal; a failure never changes a file the seal covers, and leaves a seal file only when that file's last sync was what failed. |
| Managing.CreateCandidate | services/node/internal/install/manager.go:220-248 | A fresh generation directory holding exactly the candidate record, or no directory. |
| Managing.StartInstall | services/node/internal/app/runtime_install.go:129-166 | Refused exactly when a SEALED, PUBLISHED or ACTIVATING record must finish, and then nothing changes; otherwise leftovers are FAILED as interrupted, every other record is as it was, and the new CREATED record is the only nonterminal one. |
| Managing.FailFailableNonterminals | services/node/internal/install/transaction_store.go:105-126 | Reload, fail and save each CREATED or BUILDING record, stopping at the first error. |
| Managing.PublishAndActivateReaches | services/node/internal/install/manager.go:172-192 | On a reachable disk publishing and activating are steps of the protocol, and succeed exactly when active.json names the record already or may be written; then it is ACTIVATING and named. |
| Managing.PublishAndActivateOn | services/node/internal/install/publish.go:9-64 | The method does what the publish and activate functions say on any disk, including refused trees and staging in the way. |
| Managing.RejectedTreeEnds | services/node/internal/install/manager.go:268-285 | On any disk a SEALED record whose tree does not verify goes back to ACTIVATING without a code when active.json names its generation, and is FAILED with the conflict code otherwise; nothing else changes but its own empty staging directory. |
| Managing.RefusedPublishChangesNothing | services/node/internal/install/manager.go:172-187 | A record in another state, or with files in staging, is refused without a change. |
| Managing.PublishAndActivateExactly | services/node/internal/install/manager.go:172-192 | Otherwise it succeeds exactly when the tree verifies, the pointer is readable and names the record or may be written and, for an ACTIVATING one, passes the compare; after a failure active.json is as it was. |
| Managing.ReconciledCommits | services/node/internal/install/environment_apply.go:57-79 | A reconciliation that succeeds on an ACTIVATING record leaves it COMMITTED and the pointer as it was. |
| Seal.SealPinsTree | services/node/internal/install/verify.go:19-72 | Against the seal of a tree, another tree passes verification exactly when it is the same tree. |
| Seal.SealedTreeVerifies | services/node/internal/install/seal.go:41-139 | A tree that was just sealed passes verification. |
| Seal.ManifestIgnoresWalkOrder | services/node/internal/install/seal.go:141-180 | Any ordered list of the files is the manifest, whatever order they were met in. |
| Seal.ManifestIsInjective | services/node/internal/install/seal.go:141-192 | Equal manifests mean equal files with equal contents. |
| Seal.WalkSealManifest | services/node/internal/install/seal.go:141-180 | The walk, in any order, gives the manifest. |
| Environment.ReplanIsIdle | services/node/internal/install/environment.go:40-75 | After applying a plan, planning again asks for no change exactly when the desired bin is not itself stale. |
| Paths.ReconcileServes | services/node/internal/install/environment_apply.go:35-134 | After a reconciliation with a working environment, on any reachable disk: home is the managed root, the active bin leads PATH, no bin of another generation still on disk is left, nor, once some record was committed, of one that was; every entry that is no generation's bin keeps its order. |
| Paths.OnceReadsBack | services/node/internal/install/environment_apply.go:118-134 | Whatever the backend did, a reconciliation that reports success read back the values the active generation asks for. |
| Environment.AppliedPlanIsComplete | services/node/internal/install/environment.go:77-86 | Applying any plan makes the environment observably complete. |
| Environment.PlanKeepsForeignEntries | services/node/internal/install/environment.go:49-74 | Foreign PATH entries keep their order and multiplicity and none is invented. |
| Environment.DesiredLeadsOnce | services/node/internal/install/environment.go:56-74 | A list that must be led by the desired bin has it once: no later entry is the same directory. |
| Environment.NothingDroppedWithoutLeave | services/node/internal/install/environment.go:48-55 | Without leave to remove stale bins a plan drops nothing but other spellings of the desired bin. |
| Environment.ChangedFlagIsExact | services/node/internal/install/environment.go:49-74 | The changed flag says whether the list differs, except exactly for a stale desired bin that already leads the kept entries. |
| Environment.ChangedFlagCanBeWrong | services/node/internal/install/environment.go:49-74 | An input with the flag set and the list unchanged: two bins that the platform spells alike. |
| Environment.ReplanCanChange | services/node/internal/install/environment.go:40-75 | On the same input planning again asks for a change again. |
| Environment.ComputeEnvironmentPlan | services/node/internal/install/environment.go:40-75 | The loops compute the plan function. |
| Atomic.Dir.WriteAtomic | services/node/internal/install/atomic.go:62-156 | With any failure or death at any operation or injection point, the destination holds the old record or the whole new one, the latter exactly when the rename was reached; success is reported exactly when nothing but the final directory sync failed; a live process leaves no temporary file; no other file changes. |
| Atomic.OnlyTheLastSyncIsForgiven | services/node/internal/install/atomic.go:62-156 | Of all single failures only that of the directory sync after the rename is not reported, and exactly those after the rename leave the new record. |
| Atomic.PersistRecord | services/node/internal/install/manager.go:250-266 | Unless the process dies, nil is returned if and only if the requested record with the next revision is on disk or the disk was newer than the caller; on an error the old record is there. |
| Atomic.SaveRecord | services/node/internal/install/transaction_store.go:34-68 | The revision check over the atomic write, with any failure. |
| Atomic.SingleWriterIsTruthful | services/node/internal/install/manager.go:250-266 | With one writer nil means exactly that the requested record is on disk. |
| Atomic.StaleWriterIsMisled | services/node/internal/install/manager.go:253-257 | A stale writer is told nil although its record was not written. |
| SingleFlight.LiveCallerIsIsolated | services/node/internal/app/runtime_discovery.go:113-132 | In every interleaving, a caller still waiting has a flight that nobody has cancelled, that counts it and that new callers join. |
| SingleFlight.CancelledMeansAbandoned | services/node/internal/app/runtime_discovery.go:120-131 | An unfinished flight is cancelled exactly when nobody waits for it. |
| SingleFlight.OneFlightPerKind | services/node/internal/app/runtime_discovery.go:73-84 | At most one unfinished flight of a kind has waiters. |
| SingleFlight.RuntimeDiscovery.Detect | services/node/internal/app/runtime_discovery.go:57-87 | Answers from an unexpired cache, joins a flight that has waiters, or starts one; disturbs no other caller and never revives a flight without waiters. |
| SingleFlight.RuntimeDiscovery.GiveUp | services/node/internal/app/runtime_discovery.go:117-131 | A leaving caller takes a finished result or its context error; only the last one out cancels. |
| SingleFlight.RuntimeDiscovery.Complete | services/node/internal/app/runtime_discovery.go:89-111 | A finished flight removes only its own entry, and fills the cache exactly with an error-free SUPPORTED result somebody still waits for. |
| Bundle.DecodeInverts | services/node/internal/managedskills/bundle.go:198-222 | The framed encoding has a decoder that inverts it. |
| Bundle.DigestPinsBundle | services/node/internal/managedskills/bundle.go:173-196 | Equal digests mean equal file sets with equal contents. |
| Bundle.MostSignificantFirst | services/node/internal/managedskills/bundle.go:198-222 | A length prefix has its most significant byte first, then the digits of the rest. |
| Bundle.FrameLayout | services/node/internal/managedskills/bundle.go:198-222 | A frame is a 4-byte length, the path, an 8-byte length and the content. |
| Bundle.DepthOfJoined | services/node/internal/managedskills/bundle.go:269 | The depth that is limited is the number of path segments. |
| Bundle.InspectDirectory | services/node/internal/managedskills/bundle.go:95-196 | Accepts exactly the directories within all limits, in any walk order, with the sorted files, the pre-image of their digest and their total size. |
| Bundle.LimitsAreKept | services/node/internal/managedskills/bundle.go:19-26 | An acceptable bundle has SKILL.md, at most 128 files and 2 MiB in all; a path deeper than 8, a file over 512 KiB, an unsafe path or an ownership marker that is not excluded is refused. |
| Bundle.CopySourceDirectory | services/node/internal/managedskills/bundle.go:51-93 | Succeeds exactly for an acceptable source, a free destination and files that read as inspected; the copy then has the source's files and bytes, and on failure the destination is as it was. |
| Bundle.HashFiles | services/node/internal/managedskills/bundle.go:186-222 | The bytes fed to the hash are the encoding of the sorted files. |
| Migration.ProductData.Migrate | apps/desktop/src-tauri/src/product_data.rs:94-173 | Whatever fails or dies, the legacy tree is unchanged and the stable side is as it was, missing, or complete with its marker; undisturbed, it succeeds exactly when it is settled or the copy can be made, and then is complete; the staging copy is gone after a success and after a refused copy whose cleanup goes through; what is not to be migrated is untouched. |
| Migration.CrashesKeepDataSafe | apps/desktop/src-tauri/src/product_data.rs:94-173 | Through any number of crashed runs the legacy tree is the same and the stable side is free or complete. |
| Migration.CrashedRunsCanBeRepeated | apps/desktop/src-tauri/src/product_data.rs:94-173 | After any number of crashed runs the disk is complete or can still be migrated. |
| Migration.SettledStays | apps/desktop/src-tauri/src/product_data.rs:100-105 | Once complete, later runs leave the disk as it is. |
| Migration.CopyDirectory | apps/desktop/src-tauri/src/product_data.rs:219-279 | Success means a plain source, everything copied and the counts exact; undisturbed it fails only on a link, a special file or an overflow. |
| Migration.CompleteHasEverything | apps/desktop/src-tauri/src/product_data.rs:138-166 | A complete migration has every legacy entry and a valid marker that counts the legacy files and their bytes. |
| Migration.MarkerIsGood | apps/desktop/src-tauri/src/product_data.rs:175-217 | A marker is good exactly when it is small, of schema 1, between the two identifiers, and dated; a bad one is an error and not absent. |
| Projection.ViewFollowsTransaction | services/node/internal/app/runtime_install.go:221-290 | Whatever is stored and whichever updates are refused, the view is SUCCEEDED at cleanup for COMMITTED and RUNNING for ACTIVATING. |
| Projection.ViewFields | services/node/internal/app/runtime_install.go:221-290 | The code, retry flag and times of the view: cleared and dated for COMMITTED, cleared for ACTIVATING, the transaction's code for FAILED, and otherwise only the stage differs. |
| Projection.StoredFollowsView | services/node/internal/app/runtime_install.go:221-290 | A refused update stores nothing; when all are taken the view is stored, except over a terminal operation no transaction owns. |
| Projection.ProjectionIsIdempotent | services/node/internal/app/runtime_install.go:221-290 | Projecting a view again gives the same view and stores nothing new. |
| Projection.ReadsAgree | services/node/internal/app/runtime_install.go:221-290 | Two reads of one stored operation agree but for the times, except exactly when a refused first update leaves a pending operation its error code. |
| Projection.SecondReadAgrees | services/node/internal/app/runtime_install.go:422-428 | A second read, of what the first one left stored, agrees with it but for the times, except exactly when the first one showed such a refusal and the second update is taken. |
| Projection.InstallOperations.ProjectOperation | services/node/internal/app/runtime_install.go:221-290 | The updates asked of the store, one by one, as the projection function says. |
| Projection.InstallOperations.FailOperation | services/node/internal/app/runtime_install_run.go:96-119 | An operation its transaction owns is projected, a terminal one left alone, any other stored FAILED with exactly the code and retry flag given. |
| Projection.InstallOperations.CancelOperation | services/node/internal/app/runtime_install.go:434-488 | An owned operation is projected and a terminal one refused. With a worker, transactions may change while it is waited for: one that succeeded or failed makes the operation not cancellable, one that was cancelled answers CANCELLED, one that still runs answers the operation as stored. Without one CANCELLED is stored, or the store's refusal returned. No other operation changes. |
| Projection.InstallOperations.EndWorker | services/node/internal/app/runtime_install_run.go:151-178 | What each end stores: success is SUCCEEDED at cleanup; after a failed Apply an owned operation is projected, one neither owned nor terminal is FAILED with the given code and flag, or CANCELLED with its own. No install its transaction owns is newly FAILED or CANCELLED. |
| Projection.InstallOperations.InterruptStale | services/node/internal/app/runtime_install.go:555-594 | When no update is refused every listed operation is terminal or owned; every operation it reports is listed and stored FAILED as interrupted, no owned install is failed, and none outside the list changes. |
| Recovering.PersistTxnStateOn | services/node/internal/install/recovery_execute.go:74-101 | State, code and the times a state enters with, saved unless both are already there. |
| Termination.PersistEnters | services/node/internal/install/recovery_execute.go:74-101 | A persisted state dates the record: the first activation or commit is stamped and later ones keep it, the save is dated, and a record already there under the same code is not written. |
| Recovering.PersistActivatingOn | services/node/internal/install/recovery_execute.go:103-120 | The observed predecessor is stored together with ACTIVATING. |
| Recovering.RemoveEmptyStagingOn | services/node/internal/install/recovery_execute.go:146-166 | Only an empty staging directory of the primary record is removed. |
| Recovering.RemoveEmptyGenerationOn | services/node/internal/install/recovery_execute.go:168-188 | Only an empty generation directory of the primary record is removed. |
| Recovering.MoveStagingToFailedOn | services/node/internal/install/recovery_execute.go:190-213 | The staging tree moves to failed/ unless a tree is there already. |
| Recovering.RemoveProvenStagingOn | services/node/internal/install/recovery_execute.go:215-225 | A staging tree goes only with matching lineage and a sealed generation. |
| Recovering.CommitRecordOn | services/node/internal/install/environment_apply.go:57-79 | Commit only on an observed environment, then collect, then drop stale PATH entries. |
| Recovering.MarkActivatingRecord | services/node/internal/install/activate.go:96-108 | ACTIVATING with a first activation time, saved unless both are there. |
| Store.Disk.PolicyForActive | services/node/internal/install/environment.go:135-149 | A policy exactly for an active tree that verifies, with every other generation's bin removable. |
| Store.Disk.CollectRemovableBins | services/node/internal/install/environment.go:120-133 | Exactly the bins of the other generations. |
| Store.Disk.ObserveEnvironmentNow | services/node/internal/install/observe.go:112-125 | The observed environment, seen as wrong when anything cannot be read. |
| Environment.DropStale | services/node/internal/install/environment.go:48-55 | The entries that are not stale, in order, and whether any was dropped. |
| Environment.DropDesired | services/node/internal/install/environment.go:64-71 | The entries that are not the desired bin, in order. |
| SingleFlight.RuntimeDiscovery.Receive | services/node/internal/app/runtime_discovery.go:113-116 | A caller of a finished flight gets that flight's result. |
| SingleFlight.RuntimeDiscovery.Release | services/node/internal/app/runtime_discovery.go:110 | Releasing the context of a finished flight disturbs nothing. |
| Bundle.EncodingIsInjective | services/node/internal/managedskills/bundle.go:198-222 | Equal pre-images come from equal lists of files. |
| Bundle.CopyFiles | services/node/internal/managedskills/bundle.go:72-84 | Every inspected file is copied as it is read now, under the directories above it, until one cannot be read or the copy is cancelled. |
| Migration.ProductData.Stage | apps/desktop/src-tauri/src/product_data.rs:123-172 | With the stable side free it stays free or becomes complete. |
| Migration.PutMarkerKeepsRest | apps/desktop/src-tauri/src/product_data.rs:163-164 | Writing the marker changes no other entry and makes the marker valid. |
| Projection.InstallOperations.FailUnowned | services/node/internal/app/runtime_install.go:563-593 | Every operation ends as it was or, listed and open before, FAILED as interrupted and reported; the loop stops at a refused update. |
| Projection.InstallOperations.ProjectOpenInstalls | services/node/internal/app/runtime_install.go:292-302 | Every listed install is stored as its projection; nothing else is touched. |
| Projection.ProjectionNeverFailsOwned | services/node/internal/app/runtime_install.go:221-290 | A projection never stores FAILED or CANCELLED for an owned operation. |

## Left out

- Collect: a failing deletion inside recovery is modelled by the reclaim steps of a run and by the fault of the deletion loop, not in the recovery function, which completes the collection.
- Managing.SealNew: an unsaved record is accepted only with fresh identifiers on a disk without another build in progress; the source does not check this, its callers pass a record saved by the code that does, and Managing.UnsavedNeedsIdleDisk shows that the condition is needed.
- Managing.ApplyGeneration: the same condition on an unsaved record, which it passes to SealNew.
- Termination.RecoveryTerminates: disks where two records share a generation identifier, which Termination.SharedGenerationTripsGuard shows must be left out.
- Managing.StartInstall: the operation row and the idempotency key around it belong to the database.
- markTransactionFailed, which fails a CREATED record before its worker starts, is the FailRecord step; that it runs without the lock is not modelled. A busy or unavailable lock, which leaves recovery without touching the disk, is not modelled.
- Manifest entries carry no file size; the digest determines it. Transaction fields that nothing reads back (step, operation, seal and publish times) are dropped.
- The order in which sorting leaves equal times: the scan takes the first, and the collection lemmas hold for any choice.
- Empty directories inside generation trees, links, reparse points and alternate data streams; changes to sealed trees by others.
- A reserved-identifier collision between record files cannot arise from distinct file names; the decision handles the flag, the observation never raises it.
- JSON, record size limits, path resolution, and read errors of a readable disk.
- The replacement of records outside Windows, which removes first and then renames (`services/node/internal/install/atomic_other.go:7-12`).
- The startup hook ReconcileManagedEnvironment and the settings broadcast after an environment write.
- The failpoints between the steps of publish and activate, which only return early and so equal a crash there.
- The flight's own deadline in single-flight discovery: a discoverer that times out is one that returns an error.
- safeRelativePath, case folding and UTF-8 validity in bundles are given by the platform as functions; file types other than regular files and directories are refused before the model starts.
- The migration's check that a copied file kept its size: a failing copy stands for it. Only the migration's own directory entries are modelled, not the identifiers' parent directory.
- The projection of operations assumes that no transaction changes between reading it and updating the row.
- Start, preflight decisions, workers and post-checks of installs, HTTP, events, logging, the desktop user interface, the updater, and the other services: plumbing, or easy members.
