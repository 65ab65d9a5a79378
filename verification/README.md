# Punaro: verified model of its crash-safe protocols

A Dafny model of the parts of Punaro whose correctness lives over whole runs: the server update with its
fence, bridge, backup, migration, recovery and abort; the redemption of an enrollment under a write-ahead
journal; and, smaller, release-catalog advancement, the JSON scanners, startup reconciliation, the blob
store, the Access key cache, the fleet cycle and the simulator's retry loop.

`dafny verify dfyconfig.toml` checks everything.

**Updates.** `UpdatePhases` holds the phases and the transition table, `UpdateHistory` the durable world, the
events that change it and the guard each event needs, `UpdateTheorems` what follows for every legal history.
`UpdateExecutor` is the program: `ExecuteUpdate` and the executor it drives, with every external action free
to succeed, be refused, end uncertainly or kill the process (`Faults`), and any number of invocations after
one another. It is proved to produce only legal histories, so the theorems hold of all its runs. `UpdateDoctor`
is what the server doctor demands of the recovery receipt, `UpdateRestore` what restoring a backup brings back, and
`UpdateRuns` holds the runs from an installation that show where a promise fails, and the ways out.

**Enrollment.** `PrivateDirectory` models directory entries that are live but not yet durable and survive a
power loss independently of one another. `EnrollmentSafety` states what must hold whatever a crash leaves and
shows that each durable step keeps it; `Enrollment` is the program over it; `CredentialFormat` justifies its
size reservation; `PrivatePath` is the creation of the private directory itself.

**Fleet.** `FleetTrailers` folds per-file results, `FleetLedger` and `FleetPlan` say which durable moves a cycle
makes and when report generations rise, and `FleetCycle` is the program proved to make exactly those moves.

**Where the code does less than it promises.** The model keeps the code as it is, shows the failing run and
proves when the promise holds:

- Clean-up of an unpublished start can remove the host stage while the writer is down, although the operator
  guide says the previous writer is restarted first. This happens exactly when the resume check fails
  (`AbortUnpublishedStart`, `LoseStoppedWriter`).
- An abort that dies after removing the stage, followed by a plain resume, migrates with the writer up and
  without a receipt (`ResumeAfterHalfAbort`, from an installation in `MigrateUnguarded`). The writer is down at
  migration exactly when no abort of this update restarted it; the receipt is missing exactly when such an abort, or
  the publication of a recovery, took it away (`WriterDownAtMigration`, `ReceiptUntilRemoval`).
- The server doctor demands a receipt in recovery_config, where there never is one (`RecoveryConfigHasNoReceipt`,
  reached by `ReachRecoveryConfig`), and none in writers_stopped, where there is one from the backup on
  (`StopWithReceipt`). `FencedIsAccepted`, `StoppedAccepted`, `BackedAccepted` and `EndedAccepted` say for all phases
  exactly when its demand is met.
- The operator guide says to run the command again after a crash. Migration steps are recorded as pending outside
  the transaction that applies them, so a migration that died or failed in between leaves the schema dirty, and the
  database refuses to be opened ever after (`StrandMigration`). From every other reachable world an undisturbed
  resume commits, whatever the receipt (`ExecuteUpdate`).
- A migration that died between two steps can be resumed, but not recovered on the spot: the compatible mode needs
  the target schema and the restore mode the source one (`FailToRecover`, exact in `OnTheSpot`). Restoring the backup
  recovers from every reachable world that holds the receipt (`RecoverFromReceipt`), which only the abort above can
  have taken away (`ReceiptWhenNeeded`).
- Fleet report generations can repeat although every write succeeded: publishing a tree rewrites the state
  file without the generation, and a report goes out before its generation is written (`ForgetGeneration`,
  `RepeatGeneration`). They rise exactly when no cycle ends that way (`RisesIffNeverSpoiled`, `SpoilsByFields`).
- A release of which every file collides is recorded without being published, and called current one cycle
  later (`RecordWithoutPublishing`). A newly recorded release was published exactly when it had files left.
- Creating the private directory makes the whole path durable only if everything above the deepest existing
  entry was durable already (`EnsurePrivateDir`, `LeaveAncestorVolatile`).

**Inputs.** Identifiers, release names, digests and paths of the update are only compared, so they are numbers there.
Clocks, HTTP answers, container commands, file contents read from outside, hashes and signature
checks enter as parameters. Conditions on them that the surrounding program establishes appear as `requires`:
`ExecuteUpdate` is asked for a finished update only when none is active, because the command takes over the
active request (cmd/punaro/update_command.go:119-134), and the server hands out credentials the client accepts.

## Model

| member | source | states |
|---|---|---|
| `UpdateTheorems.MigrateAfterBackup` | cmd/punaro/update_orchestrator.go:133-141 | over every history of invocations, failures and crashes, a migration call is preceded by this update's own backup: marker durable and matching, the database still as saved, receipt bound on the host |
| `UpdateTheorems.AbortedNeverMigrated` | cmd/punaro/update_orchestrator.go:81-91 | an aborted transaction never had its migration called, anywhere in its history |
| `UpdateTheorems.CommittedInOrder` | cmd/punaro/update_orchestrator.go:141-159 | a committed update migrated, started its candidate, passed the doctor and published, each successfully and in that order |
| `UpdateTheorems.ExaminedInOrder` | cmd/punaro/update_orchestrator.go:141-153 | a transaction at doctor_passed has the first three of these behind it, in order |
| `UpdateTheorems.PublishedOnlyCommits` | cmd/punaro/update_orchestrator.go:92-104 | from config_published a transaction can only stay or commit; recovery is out of reach for ever |
| `UpdateTheorems.Stays` | internal/postgres/update.go:159-178 | a set of phases closed under the transition table is never left by any history |
| `UpdateTheorems.Entry` | internal/postgres/update.go:471-484 | every phase a transaction is in was entered by one guarded event of the history |
| `UpdateTheorems.Back` | cmd/punaro/update_orchestrator.go:133-159 | each forward phase was entered from exactly one phase and right after the proof it needs |
| `UpdateTheorems.BackedBefore` | internal/postgres/migrations/006_transactional_update_fence.sql:385-403 | backup_verified was entered with a marker taken for this update, of the database as it still was, and held by its receipt |
| `UpdateTheorems.ReceiptPhaseWasBacked` | cmd/punaro/server_doctor.go:1174-1183 | every phase for which the server doctor demands a receipt was reached through a step that bound one |
| `UpdateTheorems.ReceiptUntilRemoval` | cmd/punaro/server_doctor.go:1174-1183 | from its backup on and while the update is active, its receipt is missing if and only if an abort at backup_verified or the publication of a recovery took it away |
| `UpdateTheorems.DemandedSinceBackup` | cmd/punaro/server_doctor.go:1174-1183 | all that time the server doctor demands it |
| `UpdateTheorems.RecoveryConfigHasNoReceipt` | cmd/punaro/server_doctor.go:1174-1183 | the doctor demands a receipt in recovery_config, and in every reachable state there is none |
| `UpdateTheorems.WriterDownAtMigration` | cmd/punaro/update_orchestrator.go:116-146 | the writer is down when migration is called if and only if no abort of this update restarted it since it was proved stopped |
| `UpdateTheorems.DownUntilAbort` | cmd/punaro/update_orchestrator.go:116-146 | from writers_stopped up to the migration the writer is down exactly until an abort of this very update restarts it |
| `UpdateTheorems.TerminalOutcome` | cmd/punaro/update_orchestrator.go:81-91 | what a terminal phase leaves on the host when it becomes durable: committed means the target published and running on the target schema, recovered and aborted mean the previous image running and nothing staged |
| `UpdateTheorems.RemovalIsSafe` | cmd/punaro/update_command.go:366-420 | a stage without a durable transaction is removed only when the database holds no such transaction; no receipt is lost with it; if the writer had been stopped, the previous writer was restarted and answered right before; if it was inspected and found running, it runs |
| `UpdateTheorems.StagedAgain` | internal/operator/update.go:106-145 | a stage found after a removal was reserved anew in between, under its own key |
| `UpdateTheorems.ReachableIsWellFormed` | cmd/punaro/update_orchestrator.go:38-192 | every reachable world is well formed: one active transaction at most, and host and database agree with its phase |
| `UpdateTheorems.WellFormedStep` | cmd/punaro/update_orchestrator.go:114-191 | every guarded event keeps well-formedness |
| `UpdateTheorems.OwnedStep` | internal/postgres/update.go:392-426 | every guarded event keeps at most one active transaction, owning the stage |
| `UpdateTheorems.ConsistentStep` | cmd/punaro/update_orchestrator.go:114-191 | every guarded event keeps the host state its active transaction needs |
| `UpdateTheorems.UnclaimedStep` | cmd/punaro/update_command.go:228-259 | every guarded event keeps a stage without a transaction untouched: previous image, unpublished, no receipt |
| `UpdateTheorems.LevelledStep` | internal/postgres/migrate.go:237-292 | every guarded event keeps the schema in the window of the active update and where its phase says; only its migration leaves it dirty |
| `UpdateTheorems.BoundStep` | internal/operator/update.go:193-212 | every guarded event keeps a bound receipt that of the staged update, naming its release, image and source schema |
| `UpdateTheorems.AnchoredStep` | internal/postgres/migrations/006_transactional_update_fence.sql:45-63 | the write fence: while an update is active nothing moves away from the snapshot its receipt names |
| `UpdateTheorems.DirtyIsOwned` | internal/postgres/state.go:85-137 | a dirty schema always has an active update, and its phase does not advance |
| `UpdateTheorems.AppliedOnce` | internal/postgres/migrate.go:272-281 | over all crashes, retries and updates migration steps are applied in strictly rising order, so none twice |
| `UpdateTheorems.SchemaRises` | internal/postgres/migrate.go:272-281 | the schema never falls |
| `UpdateTheorems.CalledBefore` | cmd/punaro/update_command.go:697-709 | the migrator does nothing for an update before it was called for it |
| `UpdateTheorems.MigratesUnguarded` | cmd/punaro/update_orchestrator.go:139-146 | an update that commits although its stage was gone and its writer up at backup_verified has migrated with the writer up and no receipt |
| `UpdateDoctor.ReceiptSince` | internal/operator/update.go:193-212 | over every history there is a receipt exactly if the last event that bound one or removed the stage bound one |
| `UpdateDoctor.FencedIsAccepted` | cmd/punaro/server_doctor.go:1153-1155 | a fenced update never has a receipt, as the doctor demands |
| `UpdateDoctor.StoppedAccepted` | cmd/punaro/server_doctor.go:1153-1155 | in writers_stopped the doctor is content if and only if no receipt was bound since that phase, or its stage was removed again |
| `UpdateDoctor.BackedAccepted` | cmd/punaro/server_doctor.go:1156-1157 | from the backup on it is content, receipt and marker agreeing, if and only if neither an abort at backup_verified nor the publication of a recovery removed the stage |
| `UpdateDoctor.EndedAccepted` | cmd/punaro/server_doctor.go:1150-1152 | until another update begins it is content with a recovered or aborted update, and with a committed one exactly once a stage that held a receipt is gone |
| `UpdateRestore.RestoredIsWellFormed` | internal/postgres/migrations/006_transactional_update_fence.sql:110-244 | from whatever reachable world the receipt is taken, the restored installation is well formed, with that update in recovery_required |
| `UpdateRestore.RestoresTheSnapshot` | cmd/punaro/main.go:1443-1678 | however far the update has come, its receipt brings back exactly what it would have brought back when it was bound |
| `UpdateRestore.BoundToThePresent` | internal/backup/create.go:73-195 | and when it was bound that was the database as it stood, but for the update's own row and the timeline |
| `UpdateRestore.RowsStay` | internal/postgres/migrations/006_transactional_update_fence.sql:246-332 | while a receipt is bound no other row changes and no other update begins |
| `UpdatePhases.Rank` | cmd/punaro/update_orchestrator.go:114-191 | at most eight transitions remain in the loop, at most four in recovery, none exactly in a terminal phase |
| `UpdatePhases.Next` | cmd/punaro/update_orchestrator.go:114-191 | the phase each pass moves to is allowed by the table, lowers the rank, and never mixes recovery with the forward path |
| `UpdatePhases.MarkerSurvivesReceipt` | cmd/punaro/update_command.go:683-695 | marker to receipt to marker is the identity, and so is receipt to marker to receipt |
| `UpdateHistory.LegalAppend` | cmd/punaro/update_orchestrator.go:114-191 | a history stays legal when a guarded event is appended |
| `UpdateExecutor.CommandUpdateExecutor.ExecuteUpdate` | cmd/punaro/update_orchestrator.go:38-192 | one invocation keeps the history legal; success is a terminal transaction of exactly this request, within eight advances, four in recovery, with the host as that phase promises; a recovery never changes the data. From every reachable world that is not dirty an undisturbed resume commits, an abort before the migration aborts, a recovery recovers if and only if its mode fits and its doctor finds the schema of the mode, and a new update that starts cleanly commits; if the process dies at a durable step, the update is left right before it. Over a dirty schema nothing is done |
| `UpdateExecutor.CommandUpdateExecutor.FindAndDrive` | cmd/punaro/update_orchestrator.go:38-192 | the same, once the process holds its start guard; an abort or recovery never starts an update |
| `UpdateExecutor.CommandUpdateExecutor.RunInvocations` | cmd/punaro/update_command.go:70-226 | any number of invocations, with any requests, failures and deaths, and application writes between them, keep the history legal; over a dirty schema none ever does anything |
| `UpdateExecutor.CommandUpdateExecutor.RunPhases` | cmd/punaro/update_orchestrator.go:114-191 | the loop ends within the rank of its first phase, on success at a terminal phase with the host it promises, and never leaves a bridge open in a living process; orderly it commits or is cut off at a durable step, and recovers if and only if mode and schema fit |
| `UpdateExecutor.CommandUpdateExecutor.RunPhase` | cmd/punaro/update_orchestrator.go:114-182 | one orderly pass makes the next durable step or dies before it; a recovery pass keeps the condition under which the recovery gets to its end, or fails by it |
| `UpdateExecutor.CommandUpdateExecutor.FencedStep` | cmd/punaro/update_orchestrator.go:116-132 | on every exit of a living process an open bridge is consumed; success means writers_stopped is durable |
| `UpdateExecutor.CommandUpdateExecutor.StopForFence` | cmd/punaro/update_orchestrator.go:117-128 | success means the writer was found stopped with the bridge as it was; a failure of a living process leaves no bridge open |
| `UpdateExecutor.CommandUpdateExecutor.CommitBridge` | cmd/punaro/update_command.go:872-896 | a bridge commit counts if and only if it was confirmed, or was uncertain and the exact transaction is found at writers_stopped; it is rolled back exactly when the failure was certain |
| `UpdateExecutor.CommandUpdateExecutor.AbortPendingStart` | cmd/punaro/update_command.go:384-406 | the bridge is consumed and rolled back once; the stage goes only when no such transaction is durable and the previous writer was restarted, answered its probe and is up |
| `UpdateExecutor.CommandUpdateExecutor.AbortUnpublishedStart` | cmd/punaro/update_command.go:366-382 | the stage is removed under a stopped writer if and only if the resume check failed without the process dying, so that the writer was never inspected |
| `UpdateExecutor.CommandUpdateExecutor.RestorePreviousWriterAndAbortStage` | cmd/punaro/update_command.go:408-420 | a removed stage implies that the previous writer was restarted and answered its probe, and runs |
| `UpdateExecutor.CommandUpdateExecutor.CleanupUnpublishedUpdate` | cmd/punaro/update_command.go:228-259 | the explicit clean-up changes no transaction and removes a stage only if its update is not durable and nothing is active |
| `UpdateExecutor.CommandUpdateExecutor.Begin` | cmd/punaro/update_orchestrator.go:44-74 | a started update is either durably fenced or holds one open bridge; a failed start holds none |
| `UpdateExecutor.CommandUpdateExecutor.StageStart` | cmd/punaro/update_orchestrator.go:48-53 | success has staged exactly this request; a refused start loses a stopped writer's stage only in the one case |
| `UpdateExecutor.CommandUpdateExecutor.FenceStart` | cmd/punaro/update_orchestrator.go:54-71 | the fence is durable or one bridge is open; a fence over another schema than the request names is refused |
| `UpdateExecutor.CommandUpdateExecutor.StartUpdate` | cmd/punaro/update_orchestrator.go:44-191 | a new update that starts cleanly commits or is cut off at a durable step; cut short after the stop it leaves the writer down and its stage behind |
| `UpdateExecutor.CommandUpdateExecutor.ReconcileFence` | cmd/punaro/update_orchestrator.go:57-71 | an ambiguous fence is accepted only if the durable transaction is exactly this request |
| `UpdateExecutor.CommandUpdateExecutor.Drive` | cmd/punaro/update_orchestrator.go:81-191 | abort ends in aborted or in an error, and the other modes end in a terminal phase or in an error; orderly, each ends as its phase says |
| `UpdateExecutor.CommandUpdateExecutor.DriveRecovery` | cmd/punaro/update_orchestrator.go:92-104 | an orderly recovery ends exactly as its mode allows, and never changes the data |
| `UpdateExecutor.CommandUpdateExecutor.Resume` | cmd/punaro/update_orchestrator.go:105-191 | an orderly resume from a forward phase commits or is cut off at a durable step |
| `UpdateExecutor.CommandUpdateExecutor.AbortUpdate` | cmd/punaro/update_orchestrator.go:81-91 | from migration_started on an abort is refused and changes nothing; before, an orderly one aborts, or dies with the previous writer up and the stage gone |
| `UpdateExecutor.CommandUpdateExecutor.EnterRecovery` | cmd/punaro/update_orchestrator.go:92-104 | recovery is entered only after the migration boundary and before publication; otherwise it is refused and changes nothing; undisturbed it changes nothing but the phase |
| `UpdateExecutor.CommandUpdateExecutor.PrepareResume` | cmd/punaro/update_command.go:559-567 | resuming changes the stage alone; it stages again if the stage was gone; of a finished update it completes the stage |
| `UpdateExecutor.CommandUpdateExecutor.ForwardStep` | cmd/punaro/update_orchestrator.go:116-159 | one forward pass reaches exactly the next phase |
| `UpdateExecutor.CommandUpdateExecutor.ForwardProof` | cmd/punaro/update_orchestrator.go:133-159 | the external work of a phase yields the evidence its transition needs; orderly it never fails and keeps the receipt |
| `UpdateExecutor.CommandUpdateExecutor.CandidateProof` | cmd/punaro/update_orchestrator.go:147-159 | starting, examining and publishing the candidate yield their evidence and leave the data and the receipt |
| `UpdateExecutor.CommandUpdateExecutor.RecoveryStep` | cmd/punaro/update_orchestrator.go:160-182 | one recovery pass reaches exactly the next phase and leaves the data |
| `UpdateExecutor.CommandUpdateExecutor.RecoveryProof` | cmd/punaro/update_orchestrator.go:160-182 | doctor and publication of a recovery always follow a successful recovery by the same process, which has set the recovered installation |
| `UpdateExecutor.CommandUpdateExecutor.ExamineOrPublish` | cmd/punaro/update_orchestrator.go:165-179 | the recovery doctor passes if and only if the schema is that of the mode |
| `UpdateExecutor.CommandUpdateExecutor.Advance` | cmd/punaro/update_command.go:872-914 | success means the compare-and-swap is durable, the host clean-up of a terminal phase succeeded and the host is as that phase promises |
| `UpdateExecutor.CommandUpdateExecutor.AdvanceDurably` | cmd/punaro/update_command.go:897-914 | the same for a durable transaction; a process that dies first changes nothing |
| `UpdateExecutor.CommandUpdateExecutor.SwapPhase` | internal/postgres/migrations/006_transactional_update_fence.sql:334-429 | one compare-and-swap: the phase moves exactly when the write took effect, and nothing else changes; a marker must match the update and the present state |
| `UpdateExecutor.CommandUpdateExecutor.CleanUp` | cmd/punaro/update_command.go:897-914 | only a terminal phase touches the host, and only its stage; undisturbed it succeeds over the state the phase implies |
| `UpdateExecutor.CommandUpdateExecutor.Backup` | cmd/punaro/update_command.go:650-681 | a bound receipt makes every retry return its marker and change nothing; the marker returned is bound, matches the update and names the database as it still is; undisturbed over the update's own stage it always succeeds |
| `UpdateExecutor.CommandUpdateExecutor.ReuseReceipt` | cmd/punaro/update_command.go:652-660 | a receipt that is bound is never refused for not matching |
| `UpdateExecutor.CommandUpdateExecutor.BindNewBackup` | cmd/punaro/main.go:1362-1435 | a new backup names its transaction and the snapshot, and is bound before it counts |
| `UpdateExecutor.CommandUpdateExecutor.Migrate` | cmd/punaro/update_command.go:697-709 | the call is on record before the schema can change; success means the target schema and nothing pending; otherwise the first disturbed step decides where it stands |
| `UpdateExecutor.CommandUpdateExecutor.ApplySteps` | internal/postgres/migrate.go:272-281 | every version up to the target is applied, or the migration stands at the first disturbed step |
| `UpdateExecutor.CommandUpdateExecutor.ApplyStep` | internal/postgres/migrate.go:273-280 | one version is recorded as pending and then applied; disturbed in between it stays pending |
| `UpdateExecutor.CommandUpdateExecutor.StartCandidate` | cmd/punaro/update_command.go:755-764 | success means the target image is running and was probed |
| `UpdateExecutor.CommandUpdateExecutor.Doctor` | cmd/punaro/update_command.go:784-809 | which doctor ran is decided by this process having recovered; a recovery doctor fixes the schema |
| `UpdateExecutor.CommandUpdateExecutor.Publish` | cmd/punaro/update_command.go:811-823 | publishing the previous configuration needs a recovery by this process and leaves no stage; publishing the target leaves the target image and a published stage |
| `UpdateExecutor.CommandUpdateExecutor.PublishTarget` | internal/operator/update.go:283-324 | the marker names the target before the journal says published |
| `UpdateExecutor.CommandUpdateExecutor.PublishPrevious` | internal/operator/update.go:375-423 | the marker names the previous image before the stage goes |
| `UpdateExecutor.CommandUpdateExecutor.ReturnStage` | internal/operator/update.go:386-420 | success leaves no stage; undisturbed the previous image is published |
| `UpdateExecutor.CommandUpdateExecutor.AbortToPrevious` | cmd/punaro/update_command.go:825-836 | success means the previous image runs, passed its doctor, nothing is staged, and nothing else changed |
| `UpdateExecutor.CommandUpdateExecutor.RestartPrevious` | cmd/punaro/update_command.go:825-833 | success means the previous image was started, answered and passed its doctor, and nothing else changed |
| `UpdateExecutor.CommandUpdateExecutor.Recover` | cmd/punaro/update_command.go:838-870 | success means the previous image is published and running and this process holds the recovered installation; undisturbed it succeeds if and only if the mode fits |
| `UpdateExecutor.CommandUpdateExecutor.PutBack` | internal/operator/update.go:382-413 | success means the previous image is published, and nothing else changed |
| `UpdateExecutor.CommandUpdateExecutor.SelectMode` | cmd/punaro/update_command.go:838-853 | undisturbed, it succeeds if and only if the mode fits the installed image and schema |
| `UpdateExecutor.CommandUpdateExecutor.StartRecovered` | cmd/punaro/update_command.go:858-870 | the previous image is started and probed before recovery counts |
| `UpdateExecutor.CommandUpdateExecutor.PreflightAndPull` | cmd/punaro/update_command.go:525-557 | success has staged exactly this request; a stopped writer is then known as an orphan of an earlier attempt |
| `UpdateExecutor.CommandUpdateExecutor.Fence` | cmd/punaro/update_command.go:596-611 | the fence is one durable row or, for the schema-5 source, one open bridge and nothing durable; never over another schema than the request names |
| `UpdateExecutor.CommandUpdateExecutor.StopWriters` | cmd/punaro/update_command.go:613-627 | success means the writer was found stopped after the stop |
| `UpdateExecutor.CommandUpdateExecutor.StageUpdate` | internal/operator/update.go:106-145 | success reserves the stage under this key, or confirms it; another key or a foreign image is refused |
| `UpdateExecutor.CommandUpdateExecutor.ResumeUpdateStage` | internal/operator/update.go:150-161 | only an existing stage of this key is resumed |
| `UpdateExecutor.CommandUpdateExecutor.AbortStage` | internal/operator/update.go:329-369 | only an exact, unpublished stage over the previous image is removed; absence over the previous image is success |
| `UpdateExecutor.CommandUpdateExecutor.CompleteStage` | internal/operator/update.go:425-451 | only the published stage of this key over the target image is completed |
| `UpdateExecutor.CommandUpdateExecutor.ActiveFor` | cmd/punaro/update_command.go:517-523 | not found means that neither this update nor any active one is durable; over a dirty schema nothing is found |
| `UpdateExecutor.CommandUpdateExecutor.Update` | internal/postgres/device_auth_store.go:57-99 | a lookup by ID tells the truth or fails, and over a dirty schema it fails |
| `UpdateExecutor.CommandUpdateExecutor.ActiveUpdate` | internal/postgres/update.go:429-441 | the lookup of the active update tells the truth or fails, and over a dirty schema it fails |
| `UpdateExecutor.CommandUpdateExecutor.Serve` | internal/postgres/migrations/006_transactional_update_fence.sql:45-63 | the application writes only while no update is active |
| `UpdateExecutor.CommandUpdateExecutor.NothingDies` | cmd/punaro/update_orchestrator.go:114-191 | what an orderly run promises becomes, if nothing disturbs it, that resume, abort and fitting recovery succeed |
| `UpdateExecutor.CommandUpdateExecutor.OrderlyStop` | internal/postgres/migrate.go:272-281 | an orderly migration that stops has died before a step or between its halves, and only then leaves the schema dirty |
| `UpdateRuns.ResumeAfterHalfAbort` | cmd/punaro/update_command.go:825-836 | from every state at backup_verified, two commands: an abort that dies before the database hears of it, and an undisturbed resume, which calls the migration with the writer up and no receipt |
| `UpdateRuns.MigrateUnguarded` | cmd/punaro/update_orchestrator.go:81-146 | the same as three commands from an installation |
| `UpdateRuns.LoseStoppedWriter` | docs/operator-guide.md:839-843 | two commands after which the writer is down and no stage is left to restart it from, although the guide promises the writer is restarted first |
| `UpdateRuns.DieStopped` | cmd/punaro/update_orchestrator.go:116-132 | the first command of a bridged update, cut short after it stopped the writer, leaves the writer down, its stage behind and nothing durable |
| `UpdateRuns.RefuseAndLose` | cmd/punaro/update_command.go:366-382 | from every such state a second command that is refused and cannot resume the stage loses it |
| `UpdateRuns.ReachRecoveryConfig` | cmd/punaro/update_orchestrator.go:160-182 | two commands from an installation to recovery_config, without a receipt |
| `UpdateRuns.RecoverUpToConfig` | cmd/punaro/update_orchestrator.go:160-182 | from every migrated state a compatible recovery that dies before its last step |
| `UpdateRuns.StopWithReceipt` | cmd/punaro/server_doctor.go:1153-1155 | one command that leaves writers_stopped with a receipt, where the doctor demands none |
| `UpdateRuns.StartUpTo` | cmd/punaro/update_orchestrator.go:114-159 | one command that dies before a phase becomes durable leaves the update in the phase before, with its receipt |
| `UpdateRuns.StartUpToStep` | internal/postgres/migrate.go:272-281 | one command that dies at a migration step leaves the schema right before it, dirty exactly if the step was recorded |
| `UpdateRuns.StrandMigration` | docs/operator-guide.md:835-840 | a migration that died between recording and applying a step: after any number of further commands it stands exactly there, although the guide says to run the command again |
| `UpdateRuns.FailToRecover` | cmd/punaro/update_command.go:838-870 | a migration that died between two steps: the compatible recovery fails undisturbed, and the restore one too if a step had been made |
| `UpdateRuns.OnTheSpot` | cmd/punaro/update_command.go:784-853 | in every reachable clean world after the migration started one of the two recovery modes gets to its end on the spot if and only if the schema is the source or the target one or the recovery has passed its doctor |
| `UpdateRuns.RestoreInstallation` | cmd/punaro/main.go:1443-1678 | the receipt of an update yields a new installation with exactly the restored state, and leaves the old one alone |
| `UpdateRuns.RecoverFromReceipt` | docs/operator-guide.md:859-883 | from every reachable world that holds a receipt, dirty or not: restored and recovered, undisturbed, the previous release runs on the previous schema |
| `UpdateRuns.ReceiptWhenNeeded` | cmd/punaro/server_doctor.go:1174-1183 | an update past its migration lacks its receipt only if an abort at backup_verified removed it, or if its recovery has passed the doctor and needs it no more |
| `Enrollment.EnrollmentClient.RunEpisodes` | cmd/punaro-enroll/main.go:186-306 | over any history of commands, crashes and power losses no key gets two credentials, of every posted key the journal survives or the credential is on disk or the server rejected it, and at most one key is waiting |
| `Enrollment.EnrollmentClient.RunRedeem` | cmd/punaro-enroll/main.go:186-306 | one command keeps all of that, replaces no file that was there, and an undisturbed recover from every crash state leaves exactly the minted credential and no journal |
| `Enrollment.EnrollmentClient.Exchange` | cmd/punaro-enroll/main.go:275-300 | one exchange under the journal's key; success means the credential minted for that key is certainly on disk |
| `Enrollment.EnrollmentClient.Deliver` | cmd/punaro-enroll/main.go:288-300 | the credential reaches the journal durably before it reaches the credential file, and the journal goes last |
| `Enrollment.EnrollmentClient.ObtainJournal` | cmd/punaro-enroll/main.go:222-274 | the journal in hand is the live one, for this destination, and the destination is free or already holds its credential |
| `Enrollment.EnrollmentClient.CreateJournal` | cmd/punaro-enroll/main.go:255-267 | a first journal is written only where none is and only with room for a credential |
| `Enrollment.EnrollmentClient.LinkJournal` | cmd/punaro-enroll/private_file_unix.go:260-295 | publication without replacement is atomic: the complete journal or none |
| `Enrollment.EnrollmentClient.PostRedemption` | cmd/punaro-enroll/main.go:718-777 | a request is sent only while every crash would leave its journal, and carries that journal's key |
| `Enrollment.EnrollmentClient.Serve` | cmd/punaro-enroll/main.go:718-777 | the server mints at most once for a key and keeps what it minted |
| `Enrollment.EnrollmentClient.FillJournal` | cmd/punaro-enroll/private_file_unix.go:223-255 | on success the journal with the confirmed credential is durable; the size check cannot refuse it |
| `Enrollment.EnrollmentClient.WriteCredential` | cmd/punaro-enroll/private_file_unix.go:337-350 | on success the journal's credential is durably at its destination, and nothing that was there is replaced |
| `Enrollment.EnrollmentClient.RemoveJournalIfCurrent` | cmd/punaro-enroll/main.go:569-584 | only the given journal of a settled key is removed, and every durable credential stays |
| `Enrollment.EnrollmentClient.PreflightDestination` | cmd/punaro-enroll/main.go:308-331 | the destination is free or holds exactly the confirmed credential |
| `Enrollment.EnrollmentClient.LoadJournal` | cmd/punaro-enroll/main.go:555-565 | a loaded journal is the live one and absence is real |
| `Enrollment.EnrollmentClient.SyncDirectory` | cmd/punaro-enroll/private_file_unix.go:302-322 | a directory sync makes every live entry certain |
| `Enrollment.EnrollmentClient.PowerLoss` | cmd/punaro-enroll/private_file_unix.go:223-322 | whatever subset of unsynced entries a power loss keeps, safety holds |
| `EnrollmentSafety.NewJournalIsSafe` | cmd/punaro-enroll/private_file_unix.go:260-295 | publishing a first journal keeps every earlier key settled |
| `EnrollmentSafety.FilledJournalIsSafe` | cmd/punaro-enroll/private_file_unix.go:223-255 | replacing the journal by its filled form keeps its key in every crash state |
| `EnrollmentSafety.CredentialLinkIsSafe` | cmd/punaro-enroll/private_file_unix.go:337-350 | linking the credential is safe once the journal certainly holds it |
| `EnrollmentSafety.JournalRemovalIsSafe` | cmd/punaro-enroll/main.go:569-584 | removing the journal is safe once its key is settled |
| `EnrollmentSafety.PostIsSafe` | cmd/punaro-enroll/main.go:718-777 | a request is safe whatever the server does with it, once its journal is certain |
| `EnrollmentSafety.NarrowingIsSafe` | cmd/punaro-enroll/private_file_unix.go:302-322 | a sync or a power loss keeps safety |
| `EnrollmentSafety.OneKeyInFlight` | cmd/punaro-enroll/main.go:222-268 | two unsettled keys are the same key |
| `EnrollmentSafety.UnsettledIsRecoverable` | cmd/punaro-enroll/main.go:213-300 | after any crash the journal that comes back is that of the unsettled key, and its destination is free or already correct |
| `EnrollmentSafety.EnrollmentFormatIsSound` | cmd/punaro-enroll/main.go:365-373 | the credential format and size checks of the command meet what the protocol assumes of them |
| `CredentialFormat.ReservationIsExact` | cmd/punaro-enroll/main.go:362-373 | a journal passes the size reservation if and only if it fits the file limit with any credential the client accepts |
| `CredentialFormat.CredentialIsPlain` | cmd/punaro-enroll/main.go:606-622 | every accepted credential is 80 characters, none of which JSON escapes |
| `CredentialFormat.PlaceholderIsPlain` | cmd/punaro-enroll/main.go:362-368 | so is the placeholder |
| `CredentialFormat.SecretIsPlain` | cmd/punaro-enroll/main.go:615-622 | 32 bytes in strict unpadded base64url are 43 plain characters |
| `CredentialFormat.FirstDot` | cmd/punaro-enroll/main.go:615-618 | the cut is at the first dot |
| `PrivateDirectory.Publish` | cmd/punaro-enroll/private_file_unix.go:223-295 | a link or rename is seen at once; after a crash the entry is old or new, and no other entry is affected |
| `PrivateDirectory.Unlink` | cmd/punaro-enroll/private_file_unix.go:324-336 | a removal is seen at once; after a crash the entry is old or gone |
| `PrivateDirectory.Sync` | cmd/punaro-enroll/private_file_unix.go:302-322 | after a sync every entry is certainly what it is now |
| `PrivatePath.DirectoryChain.RunHistory` | cmd/punaro-enroll/private_file_unix.go:47-109 | over any history of attempts, deaths, concurrent attempts and power losses, from any path others left, what the command made lies beneath a durable entry and only the deepest of it may not be durable |
| `PrivatePath.NothingBeneath` | cmd/punaro-enroll/private_file_unix.go:89-107 | beneath an entry made and not yet synced there is nothing |
| `PrivatePath.PowerLossKeepsSound` | cmd/punaro-enroll/private_file_unix.go:47-109 | a power loss keeps that |
| `PrivatePath.DirectoryChain.EnsurePrivateDir` | cmd/punaro-enroll/private_file_unix.go:47-109 | success makes the directory durable; the whole path is durable then if everything above the deepest entry already there was, and for a command that runs alone only then; undisturbed it succeeds |
| `PrivatePath.LeaveAncestorVolatile` | cmd/punaro-enroll/private_file_unix.go:48-60 | a run that succeeds over two entries that were not durable and leaves the upper one so |
| `PrivatePath.DurableThroughout` | cmd/punaro-enroll/private_file_unix.go:65-107 | what was made since lies beneath durable entries, so the whole path is durable if the rest was |
| `PrivatePath.DirectoryChain.FindMissing` | cmd/punaro-enroll/private_file_unix.go:65-88 | the first existing ancestor is durable before anything is made beneath it, and nothing above it is touched |
| `PrivatePath.DirectoryChain.MakeMissing` | cmd/punaro-enroll/private_file_unix.go:89-107 | what is missing is made from the top down, one durable entry beneath another |
| `PrivatePath.DirectoryChain.MakeAndSync` | cmd/punaro-enroll/private_file_unix.go:90-106 | a directory made here or by another process is durable before the next one is made |
| `ReleaseCatalog.ValidatePublicationCatalog` | cmd/punaro-release/main.go:360-400 | accepts if and only if the candidate is fresh and advances the live catalog: higher number, floor not lowered, nothing ruled out becomes eligible, every still eligible entry listed unchanged; each refusal names the first of these that fails |
| `ReleaseCatalog.KeepsBlocks` | cmd/punaro-release/main.go:375-382 | the pass over live blocks succeeds if and only if no ruled-out sequence becomes eligible |
| `ReleaseCatalog.NeverEligibleAgain` | cmd/punaro-release/main.go:360-400 | along chains of any length numbers and floors only rise, and a sequence once blocked or below the floor is never eligible again |
| `ReleaseCatalog.StillEligibleStillListed` | cmd/punaro-release/main.go:383-397 | along chains of any length an entry still eligible is still listed, unchanged |
| `ReleaseCatalog.AllowedMeansOneRelease` | internal/release/catalog.go:122-139 | while a sequence stays eligible, later catalogs allow exactly the name and digest an earlier one allowed for it |
| `ReleaseCatalog.CurrentNeverGoesBack` | internal/release/catalog.go:84-104 | the current release of a later catalog is never older |
| `ReleaseCatalog.Allows` | internal/release/catalog.go:124-139 | true if and only if the release is listed with that digest and eligible |
| `JsonEscapes.AcceptsExactlyPaired` | canopi/protocol/event.go:321-358 | the payload of any sequence of string tokens is accepted if and only if in every token each high surrogate escape stands immediately before a low one and each low one immediately after a high one |
| `JsonEscapes.ItemIsRead` | canopi/protocol/event.go:322-355 | one token with the bytes before it is passed over exactly when it is paired |
| `JsonEscapes.ValidJsonUnicodeEscapes` | canopi/protocol/event.go:321-358 | the index loop computes the scanner's verdict on every byte string |
| `JsonEscapes.ScanStringByte` | canopi/protocol/event.go:326-355 | one pass of the inner loop gives the verdict or moves to a position with the same verdict |
| `JsonEscapes.ScanLowSurrogate` | canopi/protocol/event.go:343-351 | true exactly when a complete low surrogate escape comes next |
| `JsonEscapes.DecodeHexQuad` | canopi/protocol/event.go:360-379 | accepts exactly four hex digits, and the 16-bit register loses nothing |
| `JsonEscapes.Value` | canopi/protocol/event.go:364-377 | n digits spell less than 16 to the n, so four fit the register |
| `JsonEscapes.DecodeInvertsEncode` | canopi/protocol/event.go:360-379 | decoding inverts encoding for any number of digits and any letter case of each |
| `JsonEscapes.EncodeInvertsDecode` | canopi/protocol/event.go:360-379 | every accepted digit string is an encoding of its value |
| `JsonEscapes.QuadRoundTrip` | canopi/protocol/event.go:360-379 | any 16-bit value written with four digits in any letter case is read back, whatever follows |
| `JsonEscapes.TextIsRead` | canopi/protocol/event.go:326-355 | inside a string the scanner reads off the pieces and accepts exactly paired text |
| `JsonEscapes.PairedFromLeftIsPaired` | canopi/protocol/event.go:342-354 | pairing read from the left is pairing of every escape |
| `JsonEscapes.EscapeIsRead` | canopi/protocol/event.go:337-354 | what one escape does to the scan, whatever bytes follow |
| `JsonMembers.CheckDecides` | canopi/protocol/event.go:272-319 | on the tokens of any value followed by anything, the check consumes exactly that value and accepts if and only if no object at any depth repeats a name and the depth is within the limit |
| `JsonMembers.CheckIsSound` | canopi/protocol/event.go:272-319 | whatever stream is accepted, what was consumed is the tokens of such a value |
| `JsonMembers.WholeStream` | canopi/protocol/event.go:260-270 | a stream passes as a whole if and only if it is the tokens of one such value |
| `JsonMembers.MembersDecide` | canopi/protocol/event.go:283-304 | an object's tail is accepted if and only if its names are distinct and new, and its values pass |
| `JsonMembers.ItemsDecide` | canopi/protocol/event.go:305-314 | an array's tail is accepted if and only if its values pass |
| `JsonMembers.Decoder.ValidateUniqueJsonValue` | canopi/protocol/event.go:272-319 | the token loop computes the check, without a depth limit |
| `JsonMembers.Decoder.ValidateUniqueJsonMembers` | canopi/protocol/event.go:260-270 | true if and only if the input is one value without repeated names and nothing follows |
| `JsonMembers.Decoder.UniqueJsonValue` | cmd/punaro-memory/mcp.go:549-602 | the token loop computes the check with the levels left, and demands an object where asked |
| `JsonMembers.Decoder.ValidUniqueJsonObject` | cmd/punaro-memory/mcp.go:402-413 | true if and only if the message has an allowed size and is one object without repeated names, with no more than the allowed levels, scalars counted |
| `Reconciliation.Reconciler.ReconcileTrustedAttachments` | cmd/punarod/main.go:635-700 | success means three finished loops, database, garbage collection, orphans, with no other call; a failure means the loops before it finished and none after it began |
| `Reconciliation.Reconciler.RunPhase` | cmd/punarod/main.go:639-658 | at most 1000 calls, each from where the page before it sends the loop; complete exactly at a short unchanged page; over a settled world complete if and only if there are fewer than 100000 items |
| `Reconciliation.EndsWithUnbrokenPass` | cmd/punarod/main.go:641-655 | a finished loop ends with an unbroken pass from the start to a short page with no change on any page |
| `Reconciliation.PassVisitsEverything` | cmd/punarod/main.go:641-655 | over an honest pager an unbroken pass looks at every item and finds each settled, in a world that does not move |
| `Reconciliation.FinishedMeansSettled` | cmd/punarod/main.go:635-700 | after a finished loop over an honest pager every item was looked at since the last change and none is unsettled |
| `Reconciliation.SettledOutcome` | cmd/punarod/main.go:39-42 | over a settled world a loop finishes if and only if there are fewer than 1000 times 100 items |
| `Reconciliation.SettledWorldCalls` | cmd/punarod/main.go:641-655 | over a settled world a loop takes one call per full page and one more |
| `Reconciliation.PageStart` | cmd/punarod/main.go:654 | page i of an unbroken pass starts right behind i full pages |
| `Reconciliation.NextPage` | internal/trustedattachment/service.go:295-303 | going on from the last key of a page leaves exactly what the page did not show |
| `BlobStore.NeverReplaced` | internal/attachment/blobstore.go:47-52 | over every history of requests a stored frame never changes |
| `BlobStore.RetryIsHarmless` | internal/attachment/blobstore.go:47-52 | an accepted request is accepted again at any later time and under any limit without a change; another frame at its index never is |
| `BlobStore.WithinQuota` | internal/attachment/blobstore.go:53-60 | while no request for a key allows more than a limit, the bytes under the key never exceed it |
| `BlobStore.OnlyGenuineFrames` | internal/attachment/blobstore.go:33-39 | whatever is stored was asked for, at a non-negative index, and matches its hash |
| `BlobStore.BlobStore.Put` | internal/attachment/blobstore.go:32-62 | Put does to the stored values what one request does, and keeps a buffer nobody else holds |
| `BlobStore.BlobStore.HasAll` | internal/attachment/blobstore.go:65-81 | true if and only if the stored indices are exactly 0 to count - 1 |
| `BlobStore.BlobStore.Get` | internal/attachment/blobstore.go:84-92 | the stored frame in a buffer nobody else holds, or nothing exactly when there is none |
| `BlobStore.BlobStore.CallerWrites` | internal/attachment/blobstore.go:94-97 | writing to any buffer outside the store changes nothing stored |
| `BlobStore.StoredBytes` | internal/attachment/blobstore.go:53-56 | the sum over the frames, in whatever order they are visited |
| `BlobStore.TotalWithout` | internal/attachment/blobstore.go:53-56 | the sum does not depend on which frame is taken first |
| `BlobStore.CloneChunk` | internal/attachment/blobstore.go:94-97 | an equal frame in a new buffer |
| `AccessKeys.Verifier.Key` | internal/access/verifier.go:157-173 | a returned key is listed by the latest successful refresh, whose lifetime has not run out, and from a snapshot it is younger than twice the lifetime; none is returned exactly when the cache cannot serve it and the source, read now, is refused or does not list it |
| `AccessKeys.Verifier.RefreshLocked` | internal/access/verifier.go:175-213 | succeeds if and only if the source is readable now and its document is good; a failure changes nothing |
| `AccessKeys.Verifier.ReadKeys` | internal/access/verifier.go:193-209 | succeeds if and only if some record is usable and no key ID stands for two usable ones; the keys are exactly those of the usable records |
| `AccessKeys.Verifier.Warm` | internal/access/verifier.go:148-155 | readiness is exactly a refresh |
| `AccessKeys.NewVerifier` | internal/access/verifier.go:76-81 | a lifetime above an hour is refused |
| `FleetTrailers.MergeTrailerResults` | internal/adapter/fleet.go:165-184 | the merge is one function of the parts, for every map iteration order |
| `FleetTrailers.MergePart` | internal/adapter/fleet.go:168-181 | each path of a part is folded once, whenever its turn comes |
| `FleetTrailers.MergedMeans` | internal/adapter/fleet.go:169-179 | a merged entry collides or drifts if and only if some part says so; its state is collision then, and otherwise the first state given |
| `FleetTrailers.MergeKeepsTrouble` | internal/adapter/fleet.go:165-184 | merging hides no collision and no drift and invents none, whatever the order of the parts |
| `FleetTrailers.TrailerState` | internal/adapter/fleet.go:327-337 | missing, collision or present, for every iteration order |
| `FleetTrailers.ReconcileState` | internal/adapter/fleet.go:339-346 | drifted if and only if something collides or drifts, for every iteration order |
| `FleetTrailers.AliasState` | internal/adapter/fleet.go:348-365 | the highest-ranking result decides, for every iteration order |
| `FleetPlan.RisesIffNeverSpoiled` | internal/adapter/fleet.go:50-163 | over any number of cycles the report generations strictly rise, and would go on rising from every point, if and only if no cycle spoils them |
| `FleetPlan.SpoilsByFields` | internal/adapter/fleet.go:97-163 | by the fields of a cycle and the digest on file: a cycle that sends its report spoils the next one unless its status write lands, or it noted the release and the status write leaves the file alone; one that dies before its report spoils it only if its last moves left a file without a generation after an earlier report |
| `FleetPlan.CycleRises` | internal/adapter/fleet.go:50-163 | one cycle keeps the reports rising exactly when it does not spoil them |
| `FleetPlan.HealthyNeverSpoils` | internal/adapter/fleet.go:157-163 | cycles whose process lives and whose status write succeeds never spoil them, however many there are |
| `FleetLedger.GenerationAfter` | internal/adapter/fleet.go:123-163 | whatever the moves, the generation on file is the new one, none or the old one, as the last stamp or wipe decides |
| `FleetLedger.RisesIffNoLag` | internal/adapter/fleet.go:62-65 | exactly the lagging moves make the next report fall back, with 64-bit wrap-around included |
| `FleetLedger.DigestAfter` | internal/adapter/fleet.go:123-163 | the digest on file is the old one, the new one or none, and the new one only after a record or a note |
| `FleetLedger.NextGeneration` | internal/adapter/fleet.go:62-65 | a report generation is positive even after wrap-around |
| `FleetCycle.FleetAgent.ReconcileFleetOnce` | internal/adapter/fleet.go:50-155 | the cycle makes exactly the moves its fields and the digest on file call for: at most one report, saying what is returned; the desired digest is newly on file only if the archive materialised to it and was then published or had nothing to publish; a release recorded without being published is reported as drifted or failed; current is never said of troubled files |
| `FleetCycle.FleetAgent.RunCycles` | internal/adapter/fleet.go:50-163 | the book of any number of cycles is that of their moves, so the report generations strictly rise exactly when no cycle spoils them |
| `FleetCycle.FleetAgent.KeepBook` | internal/adapter/fleet.go:50-163 | what is on file and what was sent follow from the moves |
| `FleetCycle.FleetAgent.ReconcileFleet` | internal/adapter/fleet.go:35-47 | a verified release is published, or skipped exactly when no file of it is left |
| `FleetCycle.FleetAgent.Install` | internal/adapter/fleet.go:97-127 | the moves from the archive to the noted digest, cut where the process dies |
| `FleetCycle.FleetAgent.ApplyRelease` | internal/adapter/fleet.go:97-155 | a new release is installed, projected and reported once |
| `FleetCycle.FleetAgent.ReportInstallation` | internal/adapter/fleet.go:97-155 | what is reported of a release, by how far it got |
| `FleetCycle.FleetAgent.Summarize` | internal/adapter/fleet.go:128-150 | the trailers of the release and of the live files, folded; current only of untroubled files, drifted if all files collide |
| `FleetCycle.FleetAgent.Conclude` | internal/adapter/fleet.go:140-154 | the reported state is the verdict on the trailers |
| `FleetCycle.FleetAgent.Reproject` | internal/adapter/fleet.go:66-96 | a release on file is reported once, by its live files alone |
| `FleetCycle.FleetAgent.PutFleetStatus` | internal/adapter/fleet.go:157-163 | one report, then its generation is written over whatever the file holds, with the digest kept; a death in between leaves the file as it was |
| `FleetCycle.FleetAgent.PublishTree` | internal/fleetconfig/apply.go:31-100 | the tree is live before its digest is on file, and that file forgets the generation |
| `FleetCycle.FleetAgent.Save` | internal/adapter/fleet.go:213-219 | a failed write leaves the file as it was, replaced or unreadable |
| `FleetCycle.ForgetGeneration` | internal/adapter/fleet.go:116-127 | a run in which every write succeeds and two reports carry the same generation, because the process died between publishing and noting |
| `FleetCycle.RepeatGeneration` | internal/adapter/fleet.go:157-163 | another, without any publication, because the process died between its report and the status write |
| `FleetCycle.RecordWithoutPublishing` | internal/adapter/fleet.go:40-42 | a release whose files all collide with what an earlier one published is recorded without being published; its own cycle reports drifted, the next one current |
| `BatchRetry.Simulation.RunSimulation` | cmd/canopi-sim/main.go:74-114 | over any run of answers every event made is confirmed once or still to be sent, never both and never neither |
| `BatchRetry.Simulation.Turn` | cmd/canopi-sim/main.go:77-97 | the tick moves on exactly when the whole batch is confirmed |
| `BatchRetry.Simulation.Replenish` | cmd/canopi-sim/main.go:98-103 | a batch is made only when everything made before it is confirmed |
| `BatchRetry.PostBatch` | cmd/canopi-sim/main.go:116-164 | the confirmed and the remaining events together are the batch; an answer that settles nothing leaves all of it |
| `BatchRetry.Unconfirmed` | cmd/canopi-sim/main.go:154-163 | the events whose status is not a success, in order, or nothing if a status is out of range |
| `BatchRetry.SelectConserves` | cmd/canopi-sim/main.go:154-163 | splitting by status loses and doubles no event |

## Left out

- Two update processes at once: the start guard and the database's one-active rule are modelled, interleaved processes are not.
- UpdateRuns.RestoreInstallation: the files, credentials and blobs that `punaro restore` copies, its checks of the target and its own resumption; the model has the state it ends in.
- A migrator container that outlives the command that started it.
- The copies of installation and timeline identity in an update row: they change only together with the server state, which is compared.
- Flag parsing, signature and release checks of the update command, and `completedUpdateMatches`: the request reaches the model checked.
- The marker's further field checks (timestamps, digests' spelling): boundary fields are compared for equality only.
- A crash inside the three file replacements of a publication: each replacement is one atomic step, as rename makes it.
- UpdateExecutor.CommandUpdateExecutor.AbortPendingStart: a rollback that reports an error may turn out to have committed the fence; the in-flight bridge is resolved by the time the call returns.
- Enrollment temporary files, file modes and ownership, the case folding of reserved names and the JSON text of the journal: a journal is a value that is present, absent or unreadable.
- Enrollment.EnrollmentClient.Serve: a server that forgets a key or answers it twice differently is outside the model.
- PrivatePath: symbolic links and permissions of ancestors are one check that may fail; other programs do not create or remove entries of the path while the command runs.
- ReleaseCatalog: parsing of a catalog's text and the spelling of names, digests and paths; what parsing guarantees is the predicate `WellFormed`.
- ReleaseCatalog.NeverEligibleAgain: chains start from any well-formed catalog, and freshness plays no part in them.
- JsonEscapes: payloads that end inside a string or hold malformed escapes have no token form; for them only the scanner function itself is given.
- JsonMembers: the JSON lexer; the decoder yields any token sequence, also ones no grammar allows.
- Reconciliation: what one batch does to its items; an honest service is described by what its page reports.
- BlobStore: the mutex, and memory limits of the total over all keys.
- AccessKeys: RSA parsing of a record, JWT verification and the file checks of a snapshot other than its age.
- FleetCycle: when a file collides (a live file whose managed part was edited away); prefix digests, alias and project-match states of a report, and the rename dance inside the publication of a tree, which is one atomic swap.
- The mailbox probe and the bounded output writers of the doctors: one pass and one buffer, without state that outlives a call.
- HTTP, WebSocket, Docker, launch and key-store plumbing, the firmware and the plugins.
