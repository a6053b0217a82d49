# SAPSOS local desktop: upgrade, restore and recovery

A Dafny model of the parts of SAPSOS that decide whether a user's data survives: the local schema
migrator, the desktop shell's restore and migration rollback, the handshake between the two
programs, the choice of the process the shell trusts, the ownership of the runtime manifest, and
two validators of untrusted structures. `dafny verify dfyconfig.toml` checks everything.

## Components

| file | models |
|---|---|
| LocalMigrations.dfy | the declared migrations and the planning loop |
| SchemaMigrator.dfy | one `run_migrations` call on a database file with a committed and a working copy, stopped by an error or by death at any statement |
| MigrationHistory.dfy | any number of such calls: exactly once, the journal, recovery |
| MigrationContract.dfy, Handshake.dfy | the record the API's `preflight` and `execute` write, and what the shell decides from it |
| Disk.dfy | the app-data directory: a mutable map from paths to bytes whose operations may fail |
| Restore.dfy | applying, undoing and finishing a pending restore |
| MigrationRollback.dfy | `rollback_migration`, `prepare_migration` and any number of starts that resume them |
| Upgrade.dfy | the handshake and the shell's preparation together, on the bytes of one database |
| Startup.dfy | one whole start: restore, migration, API, and what a failed start gives back |
| ProcessLineage.dfy | the bounded parent walk and the trust decision |
| RuntimeManifest.dfy | publishing the runtime manifest under a lock file, as an interleaving |
| CourseRuleTrees.dfy, CourseRules.dfy | expression trees, their flattenings, and the validator |
| PayloadShape.dfy | the depth-cut shape check on raw payloads |

## What came out

- Committed data is always the initial data put through one contiguous chain of migrations, over
  every history of calls, errors and deaths (`ExactlyOnce`).
- A failed migration's message says the schema version was not advanced. The handler also covers
  the two statements after the version commit. The message is false exactly when everything through
  the version commit went well, one of those two raised and the handler did its work
  (`FailedCall`), and that can happen to every sound migration (`LateFailure`).
- What each program answers is characterised by what is stored and what it is given, not only by the
  functions its model is proved against: the refusals of a migration call in their order (`Denied`
  in `RunMigrations`), the records of the two commands (`Tells`, `Accounts`), the shell's decision
  (`DecideExactly`, `PrepareDatabase`), the ends of a start (`Owed` in `Start`), the checks before a
  restore (`PassesChecks`), the trust in a process (`TrustExactly`), and the reason for which a
  rule tree is rejected (`RejectedExactly`).
- The shell never reports a database that is newer than the application as such: it finds the
  record of such a database inconsistent (`NewerDatabaseIsInconsistent`).
- A migration command that dies after recording its attempt, or an attempt marked FAILED, blocks
  every later start for good, as long as no restore replaces the database. `run_migrations` itself
  would sweep an attempt left IN_PROGRESS and recover (`RecoverAfter`), but the shell never gets that
  far (`BlockedStarts`). Exactly three kinds of databases are blocked for every version of the
  application: these, those without a readable version, and those whose version is too large for
  the shell (`BlockedExactly`).
- A migration rollback may stop anywhere any number of times: the backup is never altered, and the
  marker says ROLLED_BACK only over the backup's bytes (`StaysUndoing`). One undisturbed start
  completes it if and only if its marker names the database as the shell does (`ResumedExactly`).
- The shell marks a failed migration with the identity the API uses and starts to roll it back
  without comparing that with its own, but refuses such a marker at every later start. When the two
  identities differ, a rollback that stops after its first rename therefore leaves the user without
  a database for good, with the backup intact and unused (`ResumedUpgrade`, `StrandUpgrade`). Nor
  does a restore help, as a start that finds any marker puts the files before it back (`MarkedStart`).
- The evidence copy of the failed database is replaced by the backup if and only if some start
  stopped between installing the backup and recording it (`EvidenceExactly`); two starts suffice for
  that (`LoseEvidence`).
- On every run of a start, with failures and death anywhere, each original file a pending restore
  moves is at its place or in the safety directory (`Start`).
- When a restore was installed, the API was spawned and no file operation failed, a failed start
  gives the live files back exactly if and only if it left no sidecar that was not there before,
  and always when a migration was undone on the way (`RestoreRoundTrip`, `RestoredStart`). If the
  backup of that migration is missing, the restore is not put back at all.
- Unless an accepted restore was pending, no run of a start makes its migration's marker say
  ROLLED_BACK falsely (`Start`). With one the two do not compose: the start records an unfinished migration
  as rolled back and then puts the migrated database back (`RestoreOverMarker`). In a start in which
  nothing fails the marker says ROLLED_BACK over something else than the backup exactly when an
  accepted restore met an unfinished migration whose backup is on disk and was not already the
  database with no sidecar beside it (`HonestExactly`). The same happens to a migration the start
  itself makes on the restored database and undoes, and again exactly then (`HonestAfterMigration`).
- A migrated database is left without a marker, with nothing failing, exactly when the shell and the
  API know the database under different identities (`PrepareDatabase`).
- The visited list in the lineage walk never changes the answer for the first graph entry with its
  pid, which is all the trust decision passes. For an arbitrary record it does exactly when the walk
  passes an entry with the record's own pid (`VisitedListExactly`).
- The validator's "cycles" error cannot be raised: a cycle is always found as disconnected nodes.
- Two manifest writers can get inside the critical section at some moment if and only if one has
  been inside for more than 30 seconds (`TimelyExactly`, `OverdueBreaksOwnership`). Otherwise no two
  of them pass the check against the same predecessor (`OneClearedAtATime`).

## Assumptions

- A migration's `apply` edits the working copy only and commits nothing. Where it raises, it raises
  an error that is not the migrator's own, so the code is `migration_failed`.
- Errors that are not `Exception`s in Python count as death of the process. Death is an oracle that
  lets no later operation have an effect; a new process opens the file with what was committed.
- One migrator at a time; the shell's startup lock provides this.
- Hashing, JSON encoding and decoding, and resolving references inside app data are arbitrary
  functions. Decoding undoes encoding for migration markers where a contract says `Faithful`.
- The paths the shell derives differ from each other, and a safety backup is not one of them. Statements
  about what a restore keeps assume an unused safety directory and a staged file of its own
  (`Ordinary`, `Fit`), and say so in their antecedents.
- A rename is atomic; a write or copy that fails may leave anything in its target. Directories are
  not represented: creating one can only fail. A file is a regular file.
- The safety backup is a faithful copy taken before the attempt is recorded, and its reference resolves.
- The bytes of the database file are a function of what is committed to it (`store` in Upgrade.dfy).
- Journal rows with equal start times are ordered by insertion.
- A publisher leaves the manifest's critical section within 30 seconds and does not die inside it,
  where `Timely` says so. Withdrawing a manifest does not take the lock.
- Node ids and pids are numbers; only their equality matters.

## Model

| member | source | states |
|---|---|---|
| LocalMigrations.OrderedMigrations | apps/api/app/db/local_migrations.py:125-144 | a declared list is refused exactly when it is out of order, ill defined or repeats an id, with the error the scan meets first |
| LocalMigrations.BuildMigrationPlan | apps/api/app/db/local_migrations.py:147-166 | the planning loop terminates because target minus version falls, and returns what the specification `PlanOf` says |
| LocalMigrations.OrderErrorIsExact | apps/api/app/db/local_migrations.py:125-144 | no error if and only if from-versions do not fall, every migration is an upgrade with a usable id, and ids are unique |
| LocalMigrations.FirstErrorDecides | apps/api/app/db/local_migrations.py:125-144 | a list out of order is refused as such; otherwise the first migration that repeats an id or is ill defined gives the code, the repetition before the definition |
| LocalMigrations.FollowIsExact | apps/api/app/db/local_migrations.py:153-163 | the loop selects `p` if and only if `p` is a path from version to target none of whose steps has an alternative |
| LocalMigrations.OnlyPath | apps/api/app/db/local_migrations.py:153-163 | under unrivalled steps any two paths between the same versions are equal |
| LocalMigrations.PlanIsTheOnlyPath | apps/api/app/db/local_migrations.py:147-166 | a returned plan is the only path of declared migrations from current to target, a subsequence of the list, and no longer than target minus current |
| LocalMigrations.PlanFailsExactly | apps/api/app/db/local_migrations.py:147-166 | planning fails if and only if the list is ill declared, the request is a downgrade, or no path is free of alternatives |
| LocalMigrations.RefusalCodes | apps/api/app/db/local_migrations.py:147-166 | the code of every refusal to plan: that of the list, `downgrade_unsupported`, or `migration_path_missing` |
| LocalMigrations.PlanFailsWithoutPath | apps/api/app/db/local_migrations.py:147-166 | with distinct from-versions and current at most target, planning fails if and only if no path exists |
| SchemaMigrator.DatabaseFile.Prepare | apps/api/app/db/local_migrations.py:276-285 | creating the journal and sweeping earlier attempts: which of three durable states is left, by where the call stopped |
| SchemaMigrator.DatabaseFile.ApplyPlan | apps/api/app/db/local_migrations.py:331-339 | the transaction up to the version update: proceeding means every migration applied in order, the integrity checks passed and all version rows carry the target |
| SchemaMigrator.DatabaseFile.ValidateIntegrity | apps/api/app/db/local_migrations.py:245-255 | three statements with a check after each: the data passes exactly when all checks do and every statement proceeds, and the first failing check gives the code |
| SchemaMigrator.DatabaseFile.MarkFailed | apps/api/app/db/local_migrations.py:357-370 | the handler discards uncommitted work and marks this attempt FAILED, or leaves the file alone |
| SchemaMigrator.DatabaseFile.RunPlan | apps/api/app/db/local_migrations.py:330-346 | the inner `try`: data and version are committed exactly when the plan applies and every statement through the version commit proceeds, and the COMPLETED row comes only after that |
| SchemaMigrator.DatabaseFile.Admit | apps/api/app/db/local_migrations.py:275-329 | the call records its attempt exactly when it is ready and its first eight statements proceed; otherwise only the journal table and the sweep are left |
| SchemaMigrator.DatabaseFile.Attempt | apps/api/app/db/local_migrations.py:330-375 | the journalled attempt ends in one of five durable states stated as updates of the file; it ends FAILED after the version commit exactly when the statements say so |
| SchemaMigrator.DatabaseFile.RunMigrations | apps/api/app/db/local_migrations.py:258-377 | every call, with errors and death anywhere, leaves exactly one of eight durable states, each only under the checks that lead to it. In terms of the database alone: the version moves only to the target, along the plan, with the checks passed and a validated backup of this database where the plan needs one; earlier rows stay and at most the row of this attempt is added; an undisturbed call returns the code of the first check that fails, `safety_backup_required` included, or completes. The one state that is FAILED and yet advanced is characterised by the oracle |
| SchemaMigrator.StoredExactly | apps/api/app/db/local_migrations.py:181-192 | a stored version is read if and only if there is one LOCAL_DESKTOP row and it holds a positive integer |
| SchemaMigrator.InspectExactly | apps/api/app/db/local_migrations.py:169-238 | the state, version, plan and message of an inspection, from the version row, the statuses in the journal and the plan alone |
| SchemaMigrator.ApplyAllExactly | apps/api/app/db/local_migrations.py:333-334 | the data after a plan is what its migrations make of each other's results, in order |
| SchemaMigrator.RunLeaves | apps/api/app/db/local_migrations.py:258-377 | whatever durable state a call ends in: the target was earned if the version has moved, and the journal continues the earlier one |
| SchemaMigrator.UndisturbedAnswers | apps/api/app/db/local_migrations.py:258-377 | the code or report of an undisturbed call, the status of the row it has added, and when it adds one |
| MigrationHistory.RunAll | apps/api/app/db/local_migrations.py:258-377 | successive calls form a history; each starts at its own tick, and one whose statements all proceed ends as it does undisturbed |
| MigrationHistory.RunIsAtomic | apps/api/app/db/local_migrations.py:330-345 | one call leaves data and version alone, or carries both along its whole plan to its target with integrity checked |
| MigrationHistory.ExactlyOnce | apps/api/app/db/local_migrations.py:258-377 | over every history the committed data is the initial data put through one contiguous chain from the initial to the stored version, with no migration skipped or repeated |
| MigrationHistory.OnlyTargetsAreCommitted | apps/api/app/db/local_migrations.py:335-340 | every version ever stored is the initial one or the target of a call that advanced; never one inside a plan |
| MigrationHistory.RunKeepsJournal | apps/api/app/db/local_migrations.py:277-375 | each call keeps the journal invariant: unique attempts, only the last row open or failed, and each row explained by the version stored after it |
| MigrationHistory.JournalOverHistory | apps/api/app/db/local_migrations.py:277-375 | the journal invariant holds in every file of every history |
| MigrationHistory.JournalMeaning | apps/api/app/db/local_migrations.py:277-375 | at most one IN_PROGRESS row; a FAILED row is the last one inserted; a COMPLETED row's target is at most the stored version |
| MigrationHistory.FailedBlocks | apps/api/app/db/local_migrations.py:204-219 | with a FAILED row a call changes neither data, version nor journal and raises `schema_not_migratable` |
| MigrationHistory.FailedBlocksForever | apps/api/app/db/local_migrations.py:204-219 | once a FAILED row exists the file never changes again, over any further calls |
| MigrationHistory.FailedCall | apps/api/app/db/local_migrations.py:330-375 | the version of an attempt recorded as FAILED has moved if and only if the call was ready, the plan applies, every statement through the version commit proceeded, one of the two that complete the row raised, and the handler's three proceeded; the message then still says it was not advanced |
| MigrationHistory.LateFailure | apps/api/app/db/local_migrations.py:340-375 | every call with a sound plan can end that way: an error in the statement after the version commit |
| MigrationHistory.Recovery | apps/api/app/db/local_migrations.py:277-356 | from any file death can leave, with no FAILED row and a plan that applies, an undisturbed call ends CURRENT at the target |
| MigrationHistory.RecoveryOutcome | apps/api/app/db/local_migrations.py:286-356 | such a call completes an attempt if the version is below the target and otherwise only settles the journal |
| MigrationHistory.DeathAfterVersionCommit | apps/api/app/db/local_migrations.py:340-356 | after death behind the version commit the next call returns CURRENT and applies nothing again |
| MigrationHistory.RecoverAfter | apps/api/app/db/local_migrations.py:258-377 | in any history, a call whose own statements all proceed and that nothing stands in the way of ends CURRENT at its target, whatever happened before it |
| Handshake.AcceptedExactly | desktop-shell/src-tauri/src/main.rs:881-892 | a record written by either command passes the shell's test if and only if the supported version is a positive 32-bit number and the reported version is not above it |
| Handshake.NewerDatabaseIsInconsistent | desktop-shell/src-tauri/src/main.rs:884-892 | the preflight record of a database newer than the application is always refused as inconsistent |
| Handshake.InspectionIsInformed | apps/api/app/db/local_migrations.py:169-238 | an upgrade is required exactly when there is a plan, and then the plan has steps and leads up; current means the stored version is the target |
| Handshake.Newest | apps/api/app/runtime/migration_contract.py:79-92 | the journal row a command reports has the latest start of all rows, and there is one unless the journal is empty |
| Handshake.RunPreflight | apps/api/app/runtime/migration_contract.py:102-123 | preflight never changes the database; it writes a refusal or a record that tells version, state, plan and latest attempt from what is stored, and the latest attempt as interrupted exactly when it is IN_PROGRESS or INTERRUPTED |
| Handshake.InspectionTells | apps/api/app/runtime/migration_contract.py:79-123 | every field of the inspection record, from what is stored in the database |
| Handshake.RunUpgrade | apps/api/app/runtime/migration_contract.py:144-195 | the migration call bound to the safety backup: the record says CURRENT only when the database is at the target with the edited data, and otherwise gives the code of the failure; without errors it says CURRENT exactly when the migration works |
| Handshake.RecordAccounts | apps/api/app/runtime/migration_contract.py:160-195 | the record made of the outcome of a migration call tells what became of the database |
| Handshake.RunExecute | apps/api/app/runtime/migration_contract.py:126-195 | execute leaves nothing new unless an upgrade is required and the backup is taken; then the database and the record are those of one migration call; when nothing disturbs it the record is determined by the database and the backup |
| Handshake.CompletedReport | apps/api/app/db/local_migrations.py:347-356 | an undisturbed call finishes exactly when the plan applies and the integrity checks pass, and then reports its attempt, versions and ids |
| Handshake.DecisionMeans | desktop-shell/src-tauri/src/main.rs:976-1062 | whatever went wrong in the commands: starting means a current database, a marker means this attempt, this database and its backup, executing means an upgrade with no unfinished attempt, and none of these happens to a version the shell cannot read |
| Handshake.CalmDecision | desktop-shell/src-tauri/src/main.rs:976-1062 | without errors the decision is determined: start exactly when current, start migrated exactly when a migration under the shell's own identity completed, roll back exactly when one failed under a bound backup |
| Handshake.DoneIsMigrated | apps/api/app/db/local_migrations.py:335-346 | a completed attempt leaves the planned data, the target version and one appended COMPLETED row naming its backup |
| Handshake.PrepareDatabase | desktop-shell/src-tauri/src/main.rs:976-1062 | whatever goes wrong in the commands, the shell starts the API only on a current or absent database, or on one at the supported version under a marker bound to its backup, and upgrades none whose latest attempt is IN_PROGRESS or INTERRUPTED; when nothing fails each decision is taken if and only if what is stored in the database and the two identities call for it |
| Handshake.StartJustified | desktop-shell/src-tauri/src/main.rs:976-1062 | what each decision and every change of the database presuppose, in terms of what was stored |
| Handshake.CalmIsRight | desktop-shell/src-tauri/src/main.rs:976-1062 | the three decisions of an undisturbed start, each with its exact condition on what is stored |
| MigrationContract.DecideExactly | desktop-shell/src-tauri/src/main.rs:876-1062 | on any two records, well formed or not, starting, starting migrated and rolling back with a given marker each happen if and only if the fields of the records call for it |
| Handshake.UnfinishedBlocks | apps/api/app/db/local_migrations.py:190-219 | with an IN_PROGRESS or FAILED row the database is neither current nor upgradable |
| Handshake.BlockedExactly | apps/api/app/db/local_migrations.py:169-238 | with any declared migrations, no supported version the shell can read makes a database current if and only if an attempt never ended, its version cannot be read, or its version is no 32-bit number; none makes such a database upgradable either |
| Handshake.DeathLeavesInProgress | apps/api/app/db/local_migrations.py:314-341 | a command that died after recording its attempt leaves an IN_PROGRESS row |
| Handshake.BlockedStarts | desktop-shell/src-tauri/src/main.rs:979-999 | in every history of starts that begins with such a database, each start is stopped and the database never changes, as long as nothing but these starts changes it |
| Handshake.RunStarts | desktop-shell/src-tauri/src/main.rs:976-1062 | any number of starts, with errors and death in any command, is such a history, with the ticks of each start's statements |
| Upgrade.UpgradeOnDisk | desktop-shell/src-tauri/src/main.rs:936-1062 | on disk: the API is started after a migration only with the migrated database in place, a pending marker and a backup holding the database as it was; a stop after a rollback has put that database back, any other stop leaves the commands' database in place or in evidence; when nothing fails the database determines which |
| Upgrade.StopLeaves | desktop-shell/src-tauri/src/main.rs:1006-1047 | a start that stops leaves the database of the commands in place or in the evidence of its attempt |
| Upgrade.UndoneUpgrade | desktop-shell/src-tauri/src/main.rs:1252-1254 | whatever the API has written, undoing the migration brings back the database from before it |
| Upgrade.ResumedUpgrade | desktop-shell/src-tauri/src/main.rs:940-1031 | an interrupted rollback of a failed upgrade is completed by one undisturbed start, with the database as it was before, if and only if the shell and the API know it under the same identity; otherwise no start changes a file |
| Upgrade.StrandUpgrade | desktop-shell/src-tauri/src/main.rs:949-1031 | under different identities every due upgrade that fails can be stranded that way: the database absent, its bytes in a backup no start uses |
| Disk.Volume.Publish | desktop-shell/src-tauri/src/main.rs:797-805 | write beside and rename over: the target is replaced as a whole or not touched at all |
| Restore.FreeQuarantineName | desktop-shell/src-tauri/src/main.rs:1506-1511 | the search for a quarantine name ends on every finite directory with the first name not in use |
| Restore.ConsumeMarker | desktop-shell/src-tauri/src/main.rs:1503-1518 | the pending marker is renamed to an unused quarantine name before it is read; otherwise nothing has changed |
| Restore.VerifyStaged | desktop-shell/src-tauri/src/main.rs:1525-1541 | the staged file passes exactly when it has the expected size and hash and begins with the SQLite header, short of a failing read |
| Restore.Announce | desktop-shell/src-tauri/src/main.rs:1542-1554 | the consumed marker moves to the request's safety directory with its bytes, the status says applying, and no other file changes |
| Restore.PreserveSidecars | desktop-shell/src-tauri/src/main.rs:1556-1568 | every sidecar present is moved out, in order, or all moves are undone; under one fault the undo is complete |
| Restore.UndoSidecars | desktop-shell/src-tauri/src/main.rs:1561-1563 | undoing in reverse order loses no sidecar and, without a further failure, restores all of them |
| Restore.ClearLive | desktop-shell/src-tauri/src/main.rs:1556-1578 | the database follows the sidecars; on error every original is at its place or in the safety directory, and at its place under one fault |
| Restore.PutBack | desktop-shell/src-tauri/src/main.rs:1580-1585 | after a failed install the originals return: none is lost, and without a further failure the live files are as before |
| Restore.SwapIn | desktop-shell/src-tauri/src/main.rs:1579-1587 | the staged bytes become the database with no old sidecar beside it and exactly the originals in the safety directory, or the originals are put back |
| Restore.InstallStaged | desktop-shell/src-tauri/src/main.rs:1556-1587 | the whole swap, by its result and the number of failing operations |
| Restore.ApplyVerified | desktop-shell/src-tauri/src/main.rs:1542-1595 | announcement and swap seen from the state before them, with everything else unchanged |
| Restore.ApplyPendingRestore | desktop-shell/src-tauri/src/main.rs:1495-1595 | an unconsumed marker means nothing was done; Ok means the marker was a pending one of version and schema 1 and the staged bytes, with the expected size, hash and header, are installed and the originals kept; on error no original is lost and one fault leaves the live files as they were; without faults it installs if and only if all those checks pass |
| Restore.AcceptableIsChecked | desktop-shell/src-tauri/src/main.rs:1520-1541 | a request is acceptable if and only if version, status, schema, size, hash and header are as required |
| Restore.RollbackDatabase | desktop-shell/src-tauri/src/main.rs:1612-1623 | the failed database is quarantined and the original, or its absence, comes back |
| Restore.RollbackSidecars | desktop-shell/src-tauri/src/main.rs:1624-1629 | exactly the preserved sidecars return to their places; none is lost on the way |
| Restore.RollbackRestore | desktop-shell/src-tauri/src/main.rs:1611-1640 | on Ok database and preserved sidecars are back, the failed database is kept and the status says rolled back; on error no original is lost |
| Restore.RestoreRoundTrip | desktop-shell/src-tauri/src/main.rs:1495-1640 | apply then roll back returns the database and every original sidecar whatever the failed start wrote, and the live files exactly if and only if it left no other sidecar |
| Restore.FinalizeRestore | desktop-shell/src-tauri/src/main.rs:1597-1609 | marker and staged file are removed, the status says succeeded, and nothing else changes |
| Restore.RestoreAtMostOnce | desktop-shell/src-tauri/src/main.rs:1499-1513 | over every history of published markers and starts, installs never outnumber the markers published or left from before |
| Restore.RunEvents | desktop-shell/src-tauri/src/main.rs:1495-1595 | any sequence of published markers and starts, with failures and death anywhere, is such a history: each start does what one application does under the operations that fail in it |
| Restore.CalmStartInstalls | desktop-shell/src-tauri/src/main.rs:1495-1595 | in every such history a start in which nothing fails installs what is pending if and only if the marker asks for a restore that may be applied, and leaves the staged bytes as the database |
| Restore.InstallsAreApart | desktop-shell/src-tauri/src/main.rs:1499-1513 | between two installs a marker has been published: each marker leads to at most one |
| MigrationRollback.SetSidecarsAside | desktop-shell/src-tauri/src/main.rs:913-920 | each sidecar is untouched or in evidence with its bytes; it succeeds exactly when the renames do, and then none is left |
| MigrationRollback.SetAside | desktop-shell/src-tauri/src/main.rs:904-920 | database and sidecars go to evidence; on every exit their bytes are at their place or in evidence, and the database to keep is the same |
| MigrationRollback.InstallBackup | desktop-shell/src-tauri/src/main.rs:921-927 | the database becomes the backup's bytes in one rename, or is not touched |
| MigrationRollback.RollbackMigration | desktop-shell/src-tauri/src/main.rs:896-934 | stopping anywhere: the backup is untouched, no live byte is lost, and the marker changes only to ROLLED_BACK over a database equal to the backup with no sidecar; how far it gets is characterised by the operations that fail |
| MigrationRollback.BackupOfExactly | desktop-shell/src-tauri/src/main.rs:896-903 | the backup is the file the marker's reference resolves to, when there is a reference, it resolves, and the file is there |
| MigrationRollback.ResumeRollback | desktop-shell/src-tauri/src/main.rs:943-972 | a marker that is malformed, of another version or identity, or ROLLED_BACK stops the start with no file changed; any other is rolled back |
| MigrationRollback.PrepareFresh | desktop-shell/src-tauri/src/main.rs:973-1062 | without a marker: the branch the two records call for, with the marker on disk before the migrated database may be used |
| MigrationRollback.PrepareMigration | desktop-shell/src-tauri/src/main.rs:936-1062 | a marker always stops the start; otherwise the outcome is that of the two records |
| MigrationRollback.MigratedIsPending | desktop-shell/src-tauri/src/main.rs:1048-1061 | a start that goes on after a migration has left a marker that makes the next start undo it |
| MigrationRollback.RollbackStep | desktop-shell/src-tauri/src/main.rs:896-934 | one interrupted rollback leads from a resumable state to a resumable or completed one |
| MigrationRollback.RepeatedStarts | desktop-shell/src-tauri/src/main.rs:940-972 | any number of starts from any marker, whatever it says and whichever database it names, with failures and death anywhere: every start stops, and the states form a history of rollbacks whose progress is that of the operations |
| MigrationRollback.StaysUndoing | desktop-shell/src-tauri/src/main.rs:896-972 | in every state of such a history the backup is intact, and ROLLED_BACK stands only over the backup's bytes with no sidecar beside them |
| MigrationRollback.RecordedForGood | desktop-shell/src-tauri/src/main.rs:957-961 | once the rollback is recorded no start changes a file |
| MigrationRollback.OneCalmStartCompletes | desktop-shell/src-tauri/src/main.rs:940-972 | with a marker for the shell's own identity, one start without a failing operation completes the rollback, and nothing changes afterwards |
| MigrationRollback.RefusedForGood | desktop-shell/src-tauri/src/main.rs:949-955 | from a marker for another database, or one that says ROLLED_BACK or cannot be read, no number of starts changes a file |
| MigrationRollback.ResumedExactly | desktop-shell/src-tauri/src/main.rs:940-972 | an unfinished migration with its backup on disk is undone by one undisturbed start if and only if its marker names the database as the shell does; otherwise no start changes a file |
| MigrationRollback.FailedIsOpen | desktop-shell/src-tauri/src/main.rs:1006-1031 | an interrupted rollback of a failed migration leaves its marker unfinished and its backup as it was; the next start acts on it if and only if the marker's identity is the shell's |
| MigrationRollback.Strand | desktop-shell/src-tauri/src/main.rs:949-955 | every failed migration recorded under another identity can stop after its first rename, and any number of starts then leave the database absent and the backup unused |
| MigrationRollback.EvidenceExactly | desktop-shell/src-tauri/src/main.rs:904-934 | the evidence of a completed rollback is the failed database, and the backup instead if and only if an earlier start installed the backup and stopped before recording it |
| MigrationRollback.LoseEvidence | desktop-shell/src-tauri/src/main.rs:904-934 | from every pending marker with its backup two starts can lose the evidence |
| Startup.UndoRestore | desktop-shell/src-tauri/src/main.rs:1611-1640 | rolling a restore back after anything that left its safety directory alone gives back exactly the originals and nothing else; on error every original is at its place or kept |
| Startup.UndoMigration | desktop-shell/src-tauri/src/main.rs:1252-1254 | without failures the migration is undone exactly when its backup is on disk; no safety directory is touched |
| Startup.UndoStart | desktop-shell/src-tauri/src/main.rs:1250-1258 | migration first, restore second, with the files this leaves stated as a function of those before |
| Startup.Settle | desktop-shell/src-tauri/src/main.rs:1241-1249 | a successful start removes the pending and staged files of a restore and the migration marker and reports success; nothing else changes |
| Startup.RunApi | desktop-shell/src-tauri/src/main.rs:1232-1260 | without failures the API's readiness decides: it settles and leaves the live files as the API left them, or undoes; the end is the specified function of the prepared files, and no original is lost on any run |
| Startup.PreparationSeen | desktop-shell/src-tauri/src/main.rs:936-1062 | without failures result and files of the preparation are those specified, with and without a marker; a restore's safety directory is never touched |
| Startup.SameEnd | desktop-shell/src-tauri/src/main.rs:1157-1260 | the end of a start depends only on the live files, the marker and the files that are not the shell's own |
| Startup.StartDatabase | desktop-shell/src-tauri/src/main.rs:1157-1260 | from the migration on: the specified end without failures; on every run no original is lost, a marker is honoured, and without a restore it is honest |
| Startup.Start | desktop-shell/src-tauri/src/main.rs:1129-1260 | a start in which nothing fails succeeds if and only if the API becomes ready on a database the commands let it have, and leaves the live files and the marker each of its cases calls for; it does what `CalmStart` says; on every run, with death anywhere, each original is at its place or in the safety directory, a marker is honoured, and unless an accepted restore was pending the marker of its migration never says ROLLED_BACK falsely |
| Startup.OwedByCalmStart | desktop-shell/src-tauri/src/main.rs:1129-1260 | every end of an undisturbed start: no restore, a refused one or an accepted one, with and without a marker, decision by decision |
| Startup.PlainStart | desktop-shell/src-tauri/src/main.rs:1157-1260 | without restore and marker: success exactly for a ready API after `Start` or `StartMigrated`, and otherwise the live files of the commands, of the API, or of the backup |
| Startup.MarkerStops | desktop-shell/src-tauri/src/main.rs:943-972 | with a marker and no restore the start never succeeds: it restores the backup the marker names, or changes none of these files |
| Startup.StartIsHonest | desktop-shell/src-tauri/src/main.rs:1157-1260 | on every run without an installed restore, whatever fails, the marker of the migration the start found unfinished or made itself says ROLLED_BACK only over the backup with no sidecar beside it |
| Startup.RestoredStart | desktop-shell/src-tauri/src/main.rs:1129-1260 | what a start on a restore ends with, decision by decision: success exactly for a ready API, exactly the live files of before if and only if no new sidecar was left, always when a migration was undone, and nothing when the backup of the migration is missing |
| Startup.MarkedStart | desktop-shell/src-tauri/src/main.rs:1157-1170 | with any marker on disk, a start that finds a pending restore ends with the live files it began with |
| Startup.RestoreOverMarker | desktop-shell/src-tauri/src/main.rs:1129-1170 | with an unfinished marker and a pending restore the start records ROLLED_BACK and ends with the live files it began with |
| Startup.HonestExactly | desktop-shell/src-tauri/src/main.rs:1129-1170 | when nothing fails in a start on an unfinished migration, the marker it leaves says ROLLED_BACK only over the backup if and only if no restore was accepted, the backup is missing, or the database from before was already the backup with no sidecar beside it |
| Startup.HonestAfterMigration | desktop-shell/src-tauri/src/main.rs:1129-1260 | the same for a migration the start itself has made: when nothing fails it is dishonest exactly when it was undone on an installed restore and the files that come back are not the backup with no sidecar beside it |
| Startup.MigratedStartFails | desktop-shell/src-tauri/src/main.rs:1250-1258 | without a restore a migrated start that fails ends with the backup as the database and says so in the marker |
| ProcessLineage.LineageReaches | desktop-shell/src-tauri/src/main.rs:407-434 | true exactly for a hit without a repeated pid; for the first graph entry with its pid, exactly when following parents first meets the target's pid within 16 steps, at a process with the target's creation time and executable |
| ProcessLineage.VisitedListIsIrrelevant | desktop-shell/src-tauri/src/main.rs:412-419 | on every graph, cyclic ones included, the visited list only excludes the target itself |
| ProcessLineage.HitWithoutRepeat | desktop-shell/src-tauri/src/main.rs:412-419 | a walk that reaches its target has not met any pid twice |
| ProcessLineage.VisitedListExactly | desktop-shell/src-tauri/src/main.rs:412-419 | for any record the visited list stops a walk that would hit exactly when the walk passes an entry with the record's own pid |
| ProcessLineage.VisitedListMattersForShadowedRecord | desktop-shell/src-tauri/src/main.rs:412-419 | such a record exists, though the trust decision never passes one because it looks its candidate up by pid |
| ProcessLineage.TrustedRuntimeFromGraph | desktop-shell/src-tauri/src/main.rs:436-474 | each mode is returned if and only if the first entry with the candidate's pid deserves it: instance, executable and launch window, and then the spawned process itself, its descent within 16 steps, or the handoff where there is no such descent |
| ProcessLineage.TrustExactly | desktop-shell/src-tauri/src/main.rs:379-474 | the same of the specification the procedure is proved against |
| ProcessLineage.TrustMeans | desktop-shell/src-tauri/src/main.rs:379-474 | a trusted process has the expected instance, executable and launch window and satisfies its mode, a handoff only where no descent exists |
| ProcessLineage.ReusedPidIsNeverTrusted | desktop-shell/src-tauri/src/main.rs:460-461 | the spawn root's pid with another creation time is trusted in no mode |
| ProcessLineage.AppendingKeepsTrust | desktop-shell/src-tauri/src/main.rs:436-474 | more graph entries never withdraw trust, and change the mode only from handoff to descent |
| RuntimeManifest.AdvanceKeepsInvariant | apps/api/app/runtime/discovery.py:75-103 | each operation of a publisher keeps: at most the lock's owner inside, and what it has read still current |
| RuntimeManifest.NoTakeover | apps/api/app/runtime/discovery.py:81-85 | while nobody stays inside for more than 30 seconds no publisher ever finds a lock it may take over |
| RuntimeManifest.StepKeepsInvariant | apps/api/app/runtime/discovery.py:75-103 | so does every step of anybody, the withdrawal of a manifest included |
| RuntimeManifest.RunKeepsInvariant | apps/api/app/runtime/discovery.py:75-103 | every state of every timely interleaving satisfies the invariant |
| RuntimeManifest.OwnershipPasses | apps/api/app/runtime/discovery.py:75-103 | each manifest that replaces another shares its instance, or its writer found that very manifest of another protocol, dead or unreachable while inside, or it was withdrawn or unreadable; never are two publishers inside |
| RuntimeManifest.OneClearedAtATime | apps/api/app/runtime/discovery.py:86-100 | in every timely run at most one publisher at a time has passed the check, and what it has read is still the manifest it will replace, unless that was withdrawn or unreadable |
| RuntimeManifest.LonePublisher | apps/api/app/runtime/discovery.py:75-103 | with nobody else at work a publisher writes its manifest if and only if there is none, it cannot be read, it has the same instance, or it is of another protocol, of a dead process, or ready and unreachable; the lock is always removed |
| RuntimeManifest.IntruderEnters | apps/api/app/runtime/discovery.py:78-85 | with a publisher inside for more than 30 seconds a newcomer takes the lock over and enters, without any time passing |
| RuntimeManifest.TimelyExactly | apps/api/app/runtime/discovery.py:75-103 | in every state that satisfies the invariant two publishers can get inside at this moment if and only if one has been inside for more than 30 seconds |
| RuntimeManifest.OverdueBreaksOwnership | apps/api/app/runtime/discovery.py:81-85 | a publisher that stays inside for 31 seconds: two inside, and a live manifest replaced without entitlement |
| CourseRuleTrees.ValidIgnoresOrder | apps/api/app/domain/course_rules.py:19-77 | validity depends on the multiset of nodes only |
| CourseRuleTrees.FlattenIsValid | apps/api/app/domain/course_rules.py:19-77 | every flattening of a well-formed expression tree passes every check |
| CourseRuleTrees.DepthIsUnique | apps/api/app/domain/course_rules.py:64-77 | a node hangs below the root at one depth only |
| CourseRuleTrees.NoLoop | apps/api/app/domain/course_rules.py:64-77 | no node below the root is its own ancestor |
| CourseRuleTrees.SiblingsAreDisjoint | apps/api/app/domain/course_rules.py:70-71 | subtrees of different children share no node |
| CourseRuleTrees.Grow | apps/api/app/domain/course_rules.py:64-77 | the nodes below a node are the flattening of one well-formed tree |
| CourseRuleTrees.ValidIsFlattening | apps/api/app/domain/course_rules.py:19-77 | a list passes if and only if it is, in some order, the flattening of one expression tree under one rule with unique ids |
| CourseRuleTrees.UniqueRootPath | apps/api/app/domain/course_rules.py:64-77 | every node of an accepted list has exactly one finite parent path to the root |
| CourseRules.LocalProblemIsExact | apps/api/app/domain/course_rules.py:20-59 | the checks before the walk pass if and only if ids are unique, there is one rule and one root, links stay inside and arities hold |
| CourseRules.GroupByParent | apps/api/app/domain/course_rules.py:36-44 | the loop reports the first bad parent link, or groups every node under its parent in list order |
| CourseRules.CheckArities | apps/api/app/domain/course_rules.py:46-59 | the loop reports the first node with a wrong number of children |
| CourseRules.Walk.Visit | apps/api/app/domain/course_rules.py:61-73 | the walk terminates on every list, enters no node twice and, coming from the root, meets neither a cycle nor a visited node and adds exactly the subtree |
| CourseRules.Walk.VisitChildren | apps/api/app/domain/course_rules.py:70-71 | the loop over the children covers exactly their subtrees |
| CourseRules.VisitedEverything | apps/api/app/domain/course_rules.py:75-77 | the visited nodes are as many as the list has if and only if every node hangs below the root |
| CourseRules.WalkFromRoot | apps/api/app/domain/course_rules.py:61-77 | after the checks the only error left is disconnected nodes |
| CourseRules.CyclesAreDisconnected | apps/api/app/domain/course_rules.py:64-77 | a parent cycle that passes the checks is always rejected as disconnected |
| CourseRules.AcceptanceIsExact | apps/api/app/domain/course_rules.py:19-77 | accepted are exactly the flattenings of expression trees |
| CourseRules.AcceptanceIgnoresOrder | apps/api/app/domain/course_rules.py:19-77 | acceptance does not depend on the order of the list |
| CourseRules.ValidateCourseRuleExpressionTree | apps/api/app/domain/course_rules.py:19-77 | the validator accepts if and only if the list is a flattening, and names the first problem in the order of its checks, with the first node at fault for parents and child counts |
| CourseRules.RejectedExactly | apps/api/app/domain/course_rules.py:19-77 | each reason for rejection is given if and only if the list itself shows that fault first; none is ever a cycle |
| PayloadShape.ShapeIsExact | packages/shared/src/index.ts:2049-2082 | at any depth the cut-off traversal returns the exact key count and height of a value that fits in the remaining depth, and infinity with depth 9 for every other value, cyclic ones included |
| PayloadShape.ReduceIsExact | packages/shared/src/index.ts:2056-2066 | the fold over the children adds their key counts and takes the greatest depth, or ends at infinity as soon as one does not fit |
| PayloadShape.FitsByPaths | packages/shared/src/index.ts:2053-2055 | a value fits in a depth if and only if no path from it is longer |
| PayloadShape.CyclesAreCut | packages/shared/src/index.ts:2053-2055 | every value from which a cycle can be reached gets infinity and depth 9 |
| PayloadShape.DepthExactly | packages/shared/src/index.ts:2088-2093 | the depth test passes if and only if no path from the value has more than eight steps |
| PayloadShape.BoundedExactly | packages/shared/src/index.ts:2084-2098 | accepted are exactly the values that unfold to a finite tree of height at most 8 with at most 100 keys and a text within the byte limit; the text is only asked for when that tree exists |
| PayloadShape.KeysAreCounted | packages/shared/src/index.ts:2056-2082 | the key count of the unfolded value is the number of positions in it that are members of an object |
| PayloadShape.BoundedByKeys | packages/shared/src/index.ts:2084-2098 | accepted are exactly the values with no path of more than eight steps, at most 100 such positions, and a text of at most 8192 bytes |

## Left out

- ORM tables, Alembic versions, seed data, HTTP routers, the browser extension and the web UI.
- Process creation and capture, the named mutex, HTTP probes, timeouts and diagnostics files of the shell; their results are parameters.
- Startup.Start: a start in which the API process cannot be spawned returns without undoing anything, as in the shell; `CalmStart` says so and nothing more is claimed for it.
- Startup.Start: the API changes the database and the sidecars only, the migration commands also files that are not the shell's own; neither is given the shell's markers and safety directories.
- Restore.ApplyPendingRestore: says nothing about where a death between its renames leaves the live files beyond that no original is lost, because the source consumes the marker first and never resumes.
- Restore.FreeQuarantineName: the 32-bit overflow of the quarantine suffix.
- Handshake.PrepareDatabase: a second process migrating the same database at the same time.
- RuntimeManifest.OwnershipPasses: takeover of a lock whose holder died or is late, beyond the counterexample.
- PayloadShape.BoundedExactly: the length of the JSON text is an arbitrary function of the value; sparse arrays, `toJSON`, and numbers too large for exact counting are not represented.
- CourseRules.ValidateCourseRuleExpressionTree: the interpreter's recursion limit on very deep trees, and the wording of messages.
- Backup archives, pairing, data removal, settings and status texts.
