# Email delivery, roles and permissions, and small algorithms of the meeting backend

A Dafny model of three parts of the backend and proofs of what they guarantee. Verify it with
`dafny verify dfyconfig.toml`.

**Email delivery** (`JobQueue`, `Delivery*`). `enqueueEmailNotification` writes a notification row and a
background-job row, pushes a queue job and then writes QUEUED unconditionally. A worker runs `process` on
the job, and event handlers record success, retry or failure. All of them write the same two rows, each at
its own pace. `DeliveryProtocol` is a step system in which every I/O call is one step that may fail, and a
worker may die in the middle of `process`. The safety, outcome and termination theorems hold for all its
runs; `DeliveryRaces` says for exactly which configurations the two rows can be trusted; `DeliverySystem`
lifts the results to any number of interleaved notifications. `DeliveryServices` holds the services as
classes whose methods update their tables statement by statement, each proved to do exactly what its part
of the protocol does.

**Roles and permissions** (`Rbac*`, `*Migrations`, `Seed*`, `GuardedRecovery`, `RepairHistory`).
`RbacTables` has the four tables with their generated ids and the SQL statements the migrations send; each
statement is proved to keep the keys valid and to do to the by-code view what `RbacModel` says. The
migrations and seeds are methods with the source's loops over arbitrary entry lists, proved against closed
forms. Theorems over those: idempotence, confluence, exact conditions for a down to undo its up, recovery
after any pattern of failed seeds, and the repair of the history in which seeds ran before any role existed.

**Small algorithms** (`Inbox`, `BookingAudit`, `RestrictedHours`, `Masking`, `Slug`). Paging and the
batched status lookup, the two audit queries, the overnight window, metadata masking and file-name slugs,
each proved against an independent reading.

## What the proofs found

Where a comment and the code disagree, the model follows the code.

- The producer's last write can land after the worker's. Then a delivered mail reads QUEUED for good
  (`LateQueuedHappens`), and after a worker death it can be sent again (`LateQueuedCanDuplicate`).
- If the worker dies after marking a mail SENT, and all attempts that follow fail before the status
  guard, the final handler writes FAILED over SENT (`FailedOverSentHappens`, `TerminalIsFinalIff`). If it
  dies before marking it, the row may never say that the mail went out (`SentTellsIff`,
  `FailedHidesDeliveryIff`).
- A slow handler can write RETRYING over COMPLETED whenever the job is given more than one attempt
  (`StaleRetryIff`, `JobRowTellsIff`).
- `attempts || 3` takes 0 and undefined for 3 while the queue gives up after the first failure, so no
  failure is final (`FinalityAgreesWithQueue`, `ZeroAttemptsStrandsNotification`). An `attempts` key that
  is present and undefined also erases `addJob`'s default, because the options are spread last.
- The down of 20260720000005 says that it removes only what the up added. It removes every grant on a
  listed code (`BackfillDownUndoesUpIff`, `BackfillDownCanLose`).
- 20260821000001 says that it reverses 20260820000001 completely. It does so exactly on the states of
  `HandingBackRestoresIff` (`HandingBackCanLose`).
- The rename says that it keeps all grants. It loses those of a role that does not hold an already
  existing target (`GrantsSurviveRenamingIff`, `RenameCanLoseGrants`).
- A clean run of the seeds after failures need not reach what a never-failing run would have reached, not
  even when each code has a single inserting seed: an external grant placed before it takes effect in the
  second run only (`ExternalBeforeInserterIsNotRecovered`). The exact conditions are
  `SeedListRecoversIff` and, for all lists, `AnySeedListRecoversIff`.
- The repair is exact only if no seed listed a core role in vain (`RepairIff`): the backfill also grants
  what a no-fallback seed lists for a permission that another seed had inserted before it
  (`RepairCanOvergrant`).
- The inbox is ordered by `created_at` alone. Paging can repeat or miss a notification exactly when a page
  boundary falls between two with the same timestamp (`PagingIsExactIff`).
- `check-duplicate-room-bookings` counts pending and past rows, but only approved and active ones that a
  future window can reach block a move, so it also reports meetings that cannot block themselves
  (`ReportIsExactIff`).

## Reading the model

- Calls that may fail take their outcome as a parameter or as the label of a step: database writes, the
  push to the queue, the download, the mail. A ledger write that throws leaves the row as it was.
- The statements of a seed are numbered from 0, the start of its transaction, and the set of numbers that
  fail is an input; a list of such sets is the input of the runner.
- The log of the step system records what happened (sends, lost writes, late QUEUED). No step reads it.
- The failed-event handler decides by attemptsMade when the event is emitted; its writes come later, in
  any order with everything else. Of its two writes, and of the two in the producer's catch block, the
  second is not tried when the first fails.
- `Config.attempts` covers every integer and undefined; redeliveries after worker deaths are bounded by an
  arbitrary budget.
- Permission and role codes are unique, as the source's ON CONFLICT targets presuppose.
- Booking ids are integers that stand for the database's order on ids. Times are integers.

## Model

| member | source | states |
|---|---|---|
| `JobQueue.QueueService.AddJob` | `src/modules/queue/queue.service.ts:124-152` | an unknown queue is rejected without effect; otherwise exactly one job is appended to that queue, with the default attempts if the options have no such key, and with what the key holds, undefined included, if they have |
| `JobQueue.CallerDecidesAttempts` | `src/modules/queue/queue.service.ts:138-145` | which failure of an added job is its last: number n for the caller's limit n above 1, or else the default's, and number 1 otherwise; an undefined key erases the default, and then no failure is final for the worker |
| `JobQueue.FinalityAgreesWithQueue` | `src/modules/notifications/notification-worker.service.ts:168-169` | the handler's `attemptsMade >= (attempts \|\| 3)` and the queue's retry rule agree on every failure that can happen, if and only if `attempts` is neither 0 nor undefined |
| `JobQueue.LastAttempt` | `src/modules/queue/queue.service.ts:138-145` | the one failure after which the queue does not retry; no later failure can happen |
| `JobQueue.DefaultAttemptsAgree` | `src/modules/queue/queue.service.ts:138-140` | a job added without an attempts option is final for the worker exactly when it is for the queue, if and only if the configured default is not 0 |
| `DeliverySafety.StepKeepsInv` | `src/modules/notifications/notification-worker.service.ts:58-192` | every step of producer, worker, queue and handlers keeps the four-part invariant: rows and job exist when they should, attemptsMade, starts and events agree, FAILED belongs to the last failed event, SENT and FAILED rows are explained by what happened |
| `DeliverySafety.RunKeepsInv` | `src/modules/notifications/notification-worker.service.ts:58-192` | the invariant holds throughout every run, under every interleaving and every pattern of failures |
| `DeliveryOutcomes.RunKeepsExplained` | `src/modules/notifications/notification-worker.service.ts:58-192` | also kept by every run, worker deaths included: the notification row is what the log explains, the job row is what the last handler wrote, and every retry is counted, pending or lost |
| `DeliveryTheorems.SendsAreBounded` | `src/modules/notifications/notification-worker.service.ts:88-145` | at any point of any run, successful sends number at most 1 plus the lost SENT writes, plus 1 if QUEUED overwrote a terminal status; without worker deaths at most 1 plus the failed SENT writes; process starts at most once per granted attempt and per worker death |
| `DeliveryTheorems.GuardStopsSends` | `src/modules/notifications/notification-worker.service.ts:88-98` | once the row reads SENT, no later run of process sends again, however often the job is redelivered, unless QUEUED is written late |
| `DeliveryTheorems.StatusMovesForward` | `src/modules/notifications/notifications.service.ts:187-230` | between any two points of a run without a late QUEUED the status is unchanged or further along DRAFT, QUEUED, terminal; a terminal status stays if no worker died, FAILED stays in any case, and FAILED replaces SENT only after a death and with attempts neither 0 nor undefined |
| `DeliveryTheorems.FailedCallFailsAttempt` | `src/modules/notifications/notification-worker.service.ts:76-145` | whatever call inside process fails, the download included: the attempt sends nothing more, leaves both rows alone and ends in a failed event with its handler |
| `DeliveryTheorems.FailedEnqueueOutcome` | `src/modules/notifications/notifications.service.ts:202-213` | if the job never reaches the queue nothing is ever sent or run, and with no write lost both rows read FAILED |
| `DeliveryTheorems.LastFailureIsFinal` | `src/modules/notifications/notification-worker.service.ts:168-191` | the job always finishes; a failed job fails exactly at the last granted attempt, and exactly one failed event, that one, is final (none if attempts is 0 or undefined) |
| `DeliveryTheorems.NotificationOutcome` | `src/modules/notifications/notification-worker.service.ts:58-192` | the exact notification row of an enqueued mail at every point of every run, whatever failed or died: FAILED once the final handler wrote it, else SENT once the worker did, else what the producer left, and what a late QUEUED hides; SENT means that a send succeeded |
| `DeliveryTheorems.LosslessOutcome` | `src/modules/notifications/notification-worker.service.ts:58-192` | at rest with the job enqueued and no ledger write lost, worker deaths and any attempts included: the job row tells how the job ended (RETRYING after a failure with attempts 0 or undefined) unless a slow handler overwrote it with RETRYING, the retry count is exact, and without a late QUEUED and with attempts neither 0 nor undefined the notification reads SENT or FAILED as the job ended |
| `DeliveryTheorems.DeathFreeOutcome` | `src/modules/notifications/notification-worker.service.ts:58-192` | if moreover no worker died and attempts is neither 0 nor undefined: at most one mail, the job succeeds exactly if it went out, and both rows say so except for a late QUEUED and a late RETRYING |
| `DeliveryTheorems.QueuedAtRestIffLate` | `src/modules/notifications/notifications.service.ts:215-230` | at rest with no ledger write lost and attempts neither 0 nor undefined, the row reads QUEUED if and only if the producer's late QUEUED was the last write to it; without worker deaths, if and only if QUEUED was late |
| `DeliveryTheorems.StepSpendsWork` | `src/modules/notifications/notification-worker.service.ts:58-192` | every step of every party strictly spends the remaining work, of which attempts minus attemptsMade is the main part |
| `DeliveryTheorems.EveryRunComesToRest` | `src/modules/notifications/notification-worker.service.ts:58-192` | every run is finite, with an explicit bound on its length, and can stop only at rest |
| `DeliveryRaces.TerminalIsFinalIff` | `src/modules/notifications/notification-worker.service.ts:88-98` | in all runs without a late QUEUED the first terminal status is final, if and only if the queue never redelivers after a worker death or attempts is 0 or undefined |
| `DeliveryRaces.FailedOverSentHappens` | `src/modules/notifications/notification-worker.service.ts:171-179` | wherever that condition fails, a run with nothing lost in which the delivered mail is marked SENT and then reads FAILED for good, for every number of attempts |
| `DeliveryRaces.SentTellsIff` | `src/modules/notifications/notification-worker.service.ts:135-145` | at rest with no ledger write lost and no late QUEUED, SENT tells exactly whether a send succeeded, if and only if the queue never redelivers |
| `DeliveryRaces.UnmarkedSendHappens` | `src/modules/notifications/notification-worker.service.ts:127-145` | wherever it does, a run with nothing lost that delivers the mail and leaves the row FAILED, or QUEUED with attempts 0 or undefined |
| `DeliveryRaces.FailedHidesDeliveryIff` | `src/modules/notifications/notification-worker.service.ts:127-179` | a FAILED row can hide a delivered mail, with no ledger write lost and no late QUEUED, if and only if the queue redelivers and attempts is neither 0 nor undefined |
| `DeliveryRaces.StaleRetryIff` | `src/modules/notifications/notification-worker.service.ts:183-191` | RETRYING can overwrite a terminal job status if and only if attempts is above 1, or 0 or undefined with at least two redeliveries; without a worker death, if and only if it is above 1 |
| `DeliveryRaces.JobRowTellsIff` | `src/modules/notifications/notification-worker.service.ts:153-192` | at rest with no ledger write lost the job row tells in every run how the job ended, if and only if the job is given exactly one attempt (a negative number counts as one) |
| `DeliveryRaces.StaleRetryHappens` | `src/modules/notifications/notification-worker.service.ts:183-191` | for every attempts above 1 a run with nothing lost and no death in which a slow handler of the first failure overwrites COMPLETED by RETRYING for good |
| `DeliveryRaces.StaleAfterTwoDeaths` | `src/modules/notifications/notification-worker.service.ts:80-98` | with attempts 0 or undefined, two worker deaths lead there through the guard |
| `DeliveryRaces.ZeroAttemptsStrandsNotification` | `src/modules/notifications/notification-worker.service.ts:168-191` | with attempts 0 or undefined, a run with nothing lost that leaves a failed job RETRYING and its notification QUEUED for good |
| `DeliveryRaces.LateQueuedHappens` | `src/modules/notifications/notifications.service.ts:215-230` | for every configuration a run without any failure that leaves a delivered mail at QUEUED for good |
| `DeliveryRaces.LateQueuedCanDuplicate` | `src/modules/notifications/notifications.service.ts:215-230` | a run with one worker death and no lost write in which the mail goes out twice: the term for the late QUEUED in the bound is needed |
| `DeliverySystem.EventsKeepIndependent` | `src/modules/notifications/notifications.service.ts:163-224` | any number of notifications, interleaved in any order: each follows a run of its own, and the outbox holds one entry for each of its sends |
| `DeliverySystem.OutboxIsBounded` | `src/modules/notifications/notification-worker.service.ts:88-145` | the bounds on sends and starts for every notification in every history of the whole system; no mail goes out for an unknown notification |
| `DeliverySystem.SentMeansDelivered` | `src/modules/notifications/notification-worker.service.ts:127-145` | at every point of every history of the whole system, a row that reads SENT has its mail in the outbox, and the row of an enqueued mail is what its flow's log explains |
| `DeliverySystem.TableTellsWhoGotMail` | `src/modules/notifications/notification-worker.service.ts:127-145` | for a flow at rest with no ledger write lost, no worker death, no late QUEUED and attempts neither 0 nor undefined, the notification table alone tells who got the mail, and nobody got it twice |
| `DeliveryServices.NotificationTable.Update` | `src/modules/notifications/notification-worker.service.ts:139-145` | an update changes the status of that row only, and nothing if there is no such row |
| `DeliveryServices.BackgroundJobsService.UpdateStatus` | `src/modules/administration/services/background-jobs.service.ts:76-114` | the status of that row only |
| `DeliveryServices.BackgroundJobsService.IncrementRetryCount` | `src/modules/administration/services/background-jobs.service.ts:119-120` | the retry count of that row only |
| `DeliveryServices.WorkAloneIsRun` | `src/modules/notifications/notification-worker.service.ts:58-151` | a worker run with nothing in between is one of the protocol's runs, made of worker steps only |
| `DeliveryServices.ProduceAloneIsRun` | `src/modules/notifications/notifications.service.ts:163-224` | likewise for the producer |
| `DeliveryServices.NotificationWorkerService.Prepare` | `src/modules/notifications/notification-worker.service.ts:100-125` | goes on exactly if the RUNNING write of a first attempt and the download of an attachment succeed, and then has the attachment; the job row is RUNNING exactly after that write |
| `DeliveryServices.NotificationWorkerService.Deliver` | `src/modules/notifications/notification-worker.service.ts:127-150` | one mail exactly if the send succeeds, SENT and a resolved promise exactly if that write succeeds too |
| `DeliveryServices.NotificationWorkerService.SkipJob` | `src/modules/notifications/notification-worker.service.ts:80-98` | a missing or terminal row only completes the job row |
| `DeliveryServices.NotificationWorkerService.Attempt` | `src/modules/notifications/notification-worker.service.ts:100-150` | both of these in turn, on an open row |
| `DeliveryServices.NotificationWorkerService.Process` | `src/modules/notifications/notification-worker.service.ts:58-151` | from the job, the rows and the outcomes of the calls, both ways: which mails go out and with which attachment, both tables afterwards, and the result; and the same as the protocol's worker from the same state |
| `DeliveryServices.NotificationWorkerService.OnJobCompleted` | `src/modules/notifications/notification-worker.service.ts:153-159` | COMPLETED in the row of a send-email job, if the write succeeds, and no other change; the same as the protocol's completed handler |
| `DeliveryServices.NotificationWorkerService.OnJobFailed` | `src/modules/notifications/notification-worker.service.ts:161-192` | both tables from the job and the outcomes of the two writes: FAILED twice if attemptsMade has reached attempts (3 for 0 or undefined), otherwise one retry more and RETRYING; the second write is not tried when the first fails; the same as the protocol's failed handler |
| `DeliveryServices.NotificationsService.CreateRows` | `src/modules/notifications/notifications.service.ts:167-184` | the two rows, or the abort between them |
| `DeliveryServices.NotificationsService.RecordEnqueueFailure` | `src/modules/notifications/notifications.service.ts:202-213` | the two FAILED writes of the catch block; the second is not tried when the first fails |
| `DeliveryServices.NotificationsService.PushJob` | `src/modules/notifications/notifications.service.ts:186-215` | one job with the default attempts, then QUEUED; or the catch block and an unchanged queue |
| `DeliveryServices.NotificationsService.EnqueueEmailNotification` | `src/modules/notifications/notifications.service.ts:163-224` | from the outcomes of the calls: both rows, the queue with at most one send-email job more, and whether it returns with a job, without one, or throws; the same as the protocol's producer |
| `RbacTables.InsertPermission` | `src/database/migrations/20260720000005-BackfillRolePermissions.ts:821-826` | keeps ids unique and foreign keys valid; adds just this permission, by code and as a row with the given name, if it was missing |
| `RbacTables.InsertGrant` | `src/database/seeds/20260608025437-SeedMeetingRequestPermissions.ts:46-51` | by code adds just this grant |
| `RbacTables.GrantToRole` | `src/database/migrations/20260720000005-BackfillRolePermissions.ts:836-845` | by code grants the permission to the role if that is active |
| `RbacTables.GrantByCodes` | `src/database/migrations/20260802000001-GrantMissingRolePermissionsForDefense.ts:68-79` | by code grants the pair if the role is active and the permission exists |
| `RbacTables.DeleteGrants` | `src/database/migrations/20260802000001-GrantMissingRolePermissionsForDefense.ts:85-90` | by code revokes exactly the listed grants |
| `RbacTables.DeletePermissions` | `src/database/migrations/20260720000005-BackfillRolePermissions.ts:870-873` | by code drops the permissions and, by cascade, their grants; foreign keys stay valid |
| `RbacTables.UpdatePermissionCode` | `src/database/migrations/20260729000001-RenameAvatarPermissionsToBiometric.ts:54-59` | fails exactly on a unique-key clash; otherwise by code renames the permission in every grant |
| `RbacTables.InsertRole` | `src/database/migrations/20260720000002-SeedCoreRoles.ts:60-65` | by code adds the role, active, if it is missing |
| `RbacTables.DeleteRoles` | `src/database/migrations/20260720000002-SeedCoreRoles.ts:71-81` | by code drops the roles with their grants and memberships; foreign keys stay valid |
| `GrantMigrations.PairGrantMigration.Up` | `src/database/migrations/20260802000001-GrantMissingRolePermissionsForDefense.ts:66-81` | the loop grants every listed pair whose role is active and whose permission exists, and nothing else |
| `GrantMigrations.PairGrantMigration.Down` | `src/database/migrations/20260802000001-GrantMissingRolePermissionsForDefense.ts:83-92` | the loop revokes every listed pair and nothing else |
| `GrantMigrations.CrossGrantMigration.Up` | `src/database/migrations/20260731000002-GrantEmployeeBusinessAdminRecordingPermissions.ts:33-50` | the nested loops grant the cross product of roles and codes |
| `GrantMigrations.CrossGrantMigration.Down` | `src/database/migrations/20260731000002-GrantEmployeeBusinessAdminRecordingPermissions.ts:52-63` | the nested loops revoke the cross product |
| `GrantMigrations.HistoryIsUnion` | `src/database/migrations/20260802000001-GrantMissingRolePermissionsForDefense.ts:66-81` | any history of grant-only migrations amounts to one that lists the union of their pairs |
| `GrantMigrations.GrantHistoriesConverge` | `src/database/migrations/20260802000001-GrantMissingRolePermissionsForDefense.ts:66-81` | two such histories end in the same state if and only if they list the same grantable new pairs, so order and repetition never matter |
| `GrantMigrations.DownUndoesUpIff` | `src/database/migrations/20260731000001-FixRecordingConfigEmployeeHostAndBusinessAdminPermissions.ts:27-49` | a down undoes its up if and only if none of its pairs was granted before |
| `GrantMigrations.FixRecordingConfigIsCovered` | `src/database/migrations/20260731000001-FixRecordingConfigEmployeeHostAndBusinessAdminPermissions.ts:18-25` | every pair of 20260731000001 is one of 20260731000002 |
| `GrantMigrations.RecordingGrantsAbsorb` | `src/database/migrations/20260731000002-GrantEmployeeBusinessAdminRecordingPermissions.ts:22-63` | 20260731000002 absorbs 20260731000001 on either side, and its down reverts both |
| `HandoverMigrations.MoveMigration.Up` | `src/database/migrations/20260820000001-MoveAuditSystemReadPermissionToBusinessAdmin.ts:22-47` | one role loses the permission, the other gets it if active; a missing permission changes nothing |
| `HandoverMigrations.MoveMigration.Down` | `src/database/migrations/20260820000001-MoveAuditSystemReadPermissionToBusinessAdmin.ts:49-74` | the same with the roles exchanged, which is the later migration's up as a function of the tables |
| `HandoverMigrations.Move` | `src/database/migrations/20260821000001-MoveAuditSystemReadPermissionBackToSystemAdmin.ts:20-72` | the statements both migrations share |
| `HandoverMigrations.TransferMigration.Up` | `src/database/migrations/20260803000002-TransferBiometricReviewToBusinessAdmin.ts:11-30` | the same for a list of codes: a bulk revoke, then one insert per code |
| `HandoverMigrations.TransferMigration.Down` | `src/database/migrations/20260803000002-TransferBiometricReviewToBusinessAdmin.ts:32-51` | the same with the roles exchanged |
| `HandoverMigrations.HandingBackRestoresIff` | `src/database/migrations/20260821000001-MoveAuditSystemReadPermissionBackToSystemAdmin.ts:3-72` | moving there and back is the identity if and only if, for each existing listed permission, the first role held it exactly when it is active and the second did not hold it |
| `HandoverMigrations.HandingBackCanLose` | `src/database/migrations/20260821000001-MoveAuditSystemReadPermissionBackToSystemAdmin.ts:9-45` | a state with SYSTEM_ADMIN holding the permission that the round trip does not restore: BUSINESS_ADMIN held it too |
| `HandoverMigrations.LastMoveCounts` | `src/database/migrations/20260820000001-MoveAuditSystemReadPermissionToBusinessAdmin.ts:22-74` | after any nonempty sequence of moves at most the last target holds the permission, and every other grant is as it was; without the permission nothing changes |
| `BackfillMigrations.CoreRolesMigration.Up` | `src/database/migrations/20260720000002-SeedCoreRoles.ts:58-67` | missing listed roles are created active, existing rows are left as they are, by code and row by row |
| `BackfillMigrations.CoreRolesMigration.Down` | `src/database/migrations/20260720000002-SeedCoreRoles.ts:69-82` | the listed roles go with all their grants and memberships |
| `BackfillMigrations.RolesDownUndoesUpIff` | `src/database/migrations/20260720000002-SeedCoreRoles.ts:58-82` | the down undoes the up if and only if none of the listed roles existed |
| `BackfillMigrations.BackfillMigration.Up` | `src/database/migrations/20260720000005-BackfillRolePermissions.ts:818-848` | row by row: no permission row changes, every missing listed permission is there with the name of its first entry, a role holds a permission exactly if it did or is active and some entry lists it for it, and nothing else changes; the same by code as the closed form |
| `BackfillMigrations.BackfillMigration.Down` | `src/database/migrations/20260720000005-BackfillRolePermissions.ts:850-874` | every grant on a listed code goes, whoever made it, and then the permissions listed as new |
| `BackfillMigrations.BackfillIsIdempotent` | `src/database/migrations/20260720000005-BackfillRolePermissions.ts:818-848` | running the backfill twice equals running it once |
| `BackfillMigrations.BackfillDownUndoesUpIff` | `src/database/migrations/20260720000005-BackfillRolePermissions.ts:818-874` | the down undoes the up if and only if no listed code had a grant, none of the codes it deletes existed, and every other listed code did |
| `BackfillMigrations.BackfillDownCanLose` | `src/database/migrations/20260720000005-BackfillRolePermissions.ts:851-857` | a state to which the up adds nothing and from which the down takes a grant |
| `BackfillMigrations.FallbackMigration.Up` | `src/database/migrations/20260624000002-SeedProfileAvatarPermissions.ts:44-83` | row by row: inserted or looked up, every listed permission ends up granted to every listed active role, new ones under their names, and nothing else changes |
| `BackfillMigrations.FallbackMigration.Down` | `src/database/migrations/20260624000002-SeedProfileAvatarPermissions.ts:85-97` | the listed permissions go with all their grants |
| `BackfillMigrations.FallbackDownUndoesUpIff` | `src/database/migrations/20260624000002-SeedProfileAvatarPermissions.ts:44-97` | the down undoes the up if and only if none of the permissions existed |
| `BackfillMigrations.FallbackCatchesUp` | `src/database/migrations/20260624000002-SeedProfileAvatarPermissions.ts:59-81` | a re-run after missing roles have appeared leaves what one run with the roles in place would have |
| `RenameMigrations.RenameMigration.Up` | `src/database/migrations/20260729000001-RenameAvatarPermissionsToBiometric.ts:41-61` | the loop with its target-exists branch; for distinct codes, row by row, which rows are kept, renamed or gone and which role holds what afterwards |
| `RenameMigrations.RenameMigration.Down` | `src/database/migrations/20260729000001-RenameAvatarPermissionsToBiometric.ts:63-72` | moves the codes back and changes no id and no name, or fails on a clash and leaves the tables unchanged |
| `RenameMigrations.RenameAllIsSimultaneous` | `src/database/migrations/20260729000001-RenameAvatarPermissionsToBiometric.ts:41-61` | for distinct codes the loop is one simultaneous renaming; where a target existed, the old code's grants are lost |
| `RenameMigrations.RenameIsIdempotent` | `src/database/migrations/20260729000001-RenameAvatarPermissionsToBiometric.ts:41-61` | running the up twice equals running it once |
| `RenameMigrations.GrantsSurviveRenamingIff` | `src/database/migrations/20260729000001-RenameAvatarPermissionsToBiometric.ts:3-7` | every role keeps its grants up to renaming if and only if, wherever the target existed, the role held the target too |
| `RenameMigrations.RenameCanLoseGrants` | `src/database/migrations/20260729000001-RenameAvatarPermissionsToBiometric.ts:47-53` | a role that holds account.avatar.review and nothing after the rename, because the new code existed |
| `RenameMigrations.RevertIsRenameBack` | `src/database/migrations/20260729000001-RenameAvatarPermissionsToBiometric.ts:63-72` | where no old code is taken, the down is the renaming with the codes exchanged |
| `RenameMigrations.RenameDownUndoesUpIff` | `src/database/migrations/20260729000001-RenameAvatarPermissionsToBiometric.ts:41-72` | the down restores codes and grants if and only if no target existed |
| `RenameMigrations.BackfillThenRenameIsIdempotent` | `src/database/migrations/20260729000001-RenameAvatarPermissionsToBiometric.ts:43-53` | backfill and rename, run in this order again and again, settle after the first time |
| `RenameMigrations.RenamingKeepsIds` | `src/database/migrations/20260729000001-RenameAvatarPermissionsToBiometric.ts:3-7` | no row gets a new id, renamed rows only change code and name, and role_permissions is untouched when no target existed |
| `Seeds.GrantFoundRole` | `src/database/seeds/20260608025437-SeedMeetingRequestPermissions.ts:40-52` | role looked up, grant inserted if it is there and active; succeeds exactly if none of its one or two statements fails |
| `Seeds.SeedItem` | `src/database/seeds/20260704000002-SeedCameraDomainRbacPermissions.ts:268-343` | one permission by any of the three patterns; succeeds exactly if none of the statements it takes fails, and then does what the pattern says and names a new permission as listed |
| `SeedModel.MeetingRequestMeaning` | `src/database/seeds/20260608025437-SeedMeetingRequestPermissions.ts:28-54` | entry by entry: a permission that exists is left alone, one that does not is inserted and granted to the active roles of its first entry |
| `SeedModel.MeetingEndMeaning` | `src/database/seeds/20260617000002-SeedMeetingEndPermission.ts:18-89` | nothing happens if the first permission exists; otherwise both are there, the first granted to its active roles, the second to its own if it was missing too |
| `SeedModel.CameraDomainMeaning` | `src/database/seeds/20260704000002-SeedCameraDomainRbacPermissions.ts:267-343` | owned permissions are granted whether they existed or not; an external one is never created, and granted if it existed or is one of the owned |
| `Seeds.InTransaction` | `src/database/seeds/20260704000002-SeedCameraDomainRbacPermissions.ts:262-351` | commits all or rolls back all, and commits exactly if no statement from start to commit fails |
| `Seeds.SeedMeetingRequestPermissions` | `src/database/seeds/20260608025437-SeedMeetingRequestPermissions.ts:3-63` | the same on the tables, names included; all or nothing, and it succeeds exactly if none of the statements it takes fails |
| `Seeds.SeedMeetingEndPermission` | `src/database/seeds/20260617000002-SeedMeetingEndPermission.ts:3-98` | the same on the tables; if the first permission exists it takes three statements and changes nothing, whatever else is missing |
| `Seeds.SeedBoth` | `src/database/seeds/20260704000002-SeedCameraDomainRbacPermissions.ts:267-343` | owned permissions first, then the external ones; succeeds exactly if no statement of either loop fails |
| `Seeds.SeedCameraDomainRbacPermissions` | `src/database/seeds/20260704000002-SeedCameraDomainRbacPermissions.ts:259-352` | the same on the tables, all or nothing, and it succeeds exactly if none of the statements it takes fails |
| `Seeds.RunAllSeeds` | `scripts/run-seeds.ts:124-147` | each seed succeeds exactly if none of its own statements fails, whatever became of the seeds before it, so one without a fault always does; the tables end as the composition of exactly the seeds that succeeded, in order; the counters match and the exit code is 0 exactly if all did |
| `SeedModel.RunItemsClosed` | `src/database/seeds/20260704000002-SeedCameraDomainRbacPermissions.ts:267-343` | a run of any list of seed items in closed form: which permissions exist and which grants hold afterwards |
| `SeedRecovery.NoFallbackRerunIsNoOp` | `src/database/seeds/20260608025437-SeedMeetingRequestPermissions.ts:28-54` | once its permissions exist, a no-fallback seed changes nothing, whatever roles have appeared |
| `SeedRecovery.NoFallbackIsIdempotent` | `src/database/seeds/20260608025437-SeedMeetingRequestPermissions.ts:28-54` | running a no-fallback seed twice equals running it once |
| `SeedRecovery.FallbackIsBackfill` | `src/database/seeds/20260704000002-SeedCameraDomainRbacPermissions.ts:268-312` | a fallback seed does what a backfill with its entries does |
| `SeedRecovery.EarlyCommitMattersIff` | `src/database/seeds/20260617000002-SeedMeetingEndPermission.ts:26-31` | the early commit changes the outcome if and only if the first permission exists and another one of the seed is missing |
| `SeedRecovery.RecoveryIff` | `scripts/run-seeds.ts:132-142` | for every pattern of failed seeds a later clean run reaches what a never-failing run would have reached, if and only if each seed that can be first to insert a new code is replaceable: a condition on one seed at a time that decides all patterns |
| `SeedRecovery.OneSeedOrFallbackRecovers` | `src/database/seeds/20260704000002-SeedCameraDomainRbacPermissions.ts:266-351` | enough for that: each new code is inserted by one seed or only by fallback items, and external items come after an inserter of their code |
| `SeedRecovery.ExternalBeforeInserterIsNotRecovered` | `src/database/seeds/20260704000002-SeedCameraDomainRbacPermissions.ts:322-326` | without the clause on external items it fails: a grant skipped because its permission was not there yet is made by the second run only |
| `GuardedRecovery.SeedIsEffective` | `src/database/seeds/20260617000002-SeedMeetingEndPermission.ts:26-31` | between seeds, a seed with the early commit does what a plain one would do, or nothing if its first permission was there from the start |
| `GuardedRecovery.RunIsAttempted` | `src/database/seeds/20260617000002-SeedMeetingEndPermission.ts:18-31` | any seed list, early commits included, runs as the items it attempts, which depend on the permissions there are and not on roles or grants |
| `GuardedRecovery.SeedListRecoversIff` | `scripts/run-seeds.ts:132-142` | the same equivalence, one seed at a time, for seed lists that mix all three patterns, early commits included, if no other seed inserts a permission that an early commit tests |
| `GuardedRecovery.AnySeedListRecoversIff` | `scripts/run-seeds.ts:132-142` | for every seed list and every pattern of failed seeds: a clean run recovers if and only if the items attempted in both runs insert and grant what those of one clean run do, read off the seed list, the existing permissions and grants, and the active roles |
| `GuardedRecovery.OtherInserterBreaksRecovery` | `src/database/seeds/20260617000002-SeedMeetingEndPermission.ts:26-31` | if another seed inserts the tested permission, seeds that are replaceable one by one can leave a permission too many after a failure |
| `GuardedRecovery.SeedFunctionsGuardTheirOwn` | `src/database/seeds/20260617000002-SeedMeetingEndPermission.ts:18-31` | the seed functions meet its requirement once no other seed inserts the permission an early commit tests |
| `RepairHistory.SeedsWithoutRolesGrantNothing` | `src/database/migrations/20260720000005-BackfillRolePermissions.ts:7-12` | seeding while no role is active leaves every grant as it was |
| `RepairHistory.InAliasAll` | `src/database/migrations/20260720000005-BackfillRolePermissions.ts:17-23` | the aliasing renames ADMIN and INTERNAL_USER, drops ROOM_ADMIN and keeps every other role, whatever the list |
| `RepairHistory.RepairIff` | `src/database/migrations/20260720000005-BackfillRolePermissions.ts:14-23` | for any seed history, early commits included, and entries that list its aliased roles for each permission it mentions: seeds without roles, then the core roles, then the backfill give the same grants on those permissions as the aliased seeds run after the roles, if and only if no seed lists a core role in vain; on other permissions only the backfill grants, what its entries say |
| `RepairHistory.OrderlyHistoryIsRepaired` | `src/database/migrations/20260720000005-BackfillRolePermissions.ts:818-848` | the repair is exact for every history in which no early commit is taken, no no-fallback item comes after another inserter of its code, and each external item comes after one |
| `RepairHistory.RepairCanOvergrant` | `src/database/migrations/20260720000005-BackfillRolePermissions.ts:14-16` | two no-fallback seeds for one permission: the repair grants EMPLOYEE what the intended order would not have |
| `Inbox.PagesPartition` | `src/modules/notifications/notifications.service.ts:265-315` | pages 1 to totalPages of a fixed order make up the whole list; each before the last is full, the last is not empty, later ones are |
| `Inbox.InboxOfIff` | `src/modules/notifications/notifications.service.ts:270-276` | the inbox is exactly the notifications addressed to the user on a channel other than email and SMS |
| `Inbox.NewestFirst` | `src/modules/notifications/notifications.service.ts:277-280` | within a page and from page to page, nothing is newer than what comes before it |
| `Inbox.PageShowsInboxOnly` | `src/modules/notifications/notifications.service.ts:270-276` | a page shows in-app and websocket notifications addressed to the user and nothing else |
| `Inbox.PagingIsExactIff` | `src/modules/notifications/notifications.service.ts:270-280` | with one query per page, every notification of the user's inbox is shown exactly once whatever order the database picks among equal timestamps, if and only if no page boundary falls inside a group of equal timestamps |
| `Inbox.TieCanRepeat` | `src/modules/notifications/notifications.service.ts:277-280` | a tie across a boundary gives two admissible answers that repeat a notification |
| `Inbox.ListedStatus` | `src/modules/notifications/notifications.service.ts:284-308` | an entry of the listing carries a status exactly if its item is a no-show alert with a case id that is not empty and that the case table has, and then that case's |
| `Inbox.BatchIsLookup` | `src/modules/notifications/notifications.service.ts:328-357` | the batched lookup gives each item the status its own case has, and the others none |
| `Inbox.InboxReadsLikeOneList` | `src/modules/notifications/notifications.service.ts:265-315` | with one order and one set of cases for all pages, reading them page by page renders the whole inbox once, in order, with the right statuses |
| `Inbox.PagesReadTheirOwnQueries` | `src/modules/notifications/notifications.service.ts:265-315` | with an order and a set of cases of its own for each page, and no tie across a boundary: every notification is on exactly one page and carries the status its case had when that page was read |
| `BookingAudit.IsWithinReachIff` | `src/modules/meetings/services/meetings.service.ts:1594-1606` | a booking is within reach of some permitted window (in the future, 15 to 480 minutes long, widened by the buffer) exactly under an inequality on its times; a proper booking, exactly if it is not over |
| `BookingAudit.BlocksItselfIff` | `src/modules/meetings/services/meetings.service.ts:1594-1721` | moving a meeting can collide with its own booking, for some row found and some permitted window, if and only if it has several live rows and one of them is approved or active and within reach |
| `BookingAudit.DuplicatesExplainSelfConflicts` | `scripts/check-duplicate-room-bookings.ts:19-27` | the first query reports every such meeting; what it reports beyond them are exactly the meetings whose live rows are all pending or out of reach |
| `BookingAudit.ReportIsExactIff` | `scripts/check-duplicate-room-bookings.ts:19-27` | the report is exact if and only if no meeting has several live rows that are all pending or out of reach; an empty report always clears every meeting |
| `BookingAudit.PendingDuplicatesAreHarmless` | `scripts/check-duplicate-room-bookings.ts:19-27` | two pending rows of one meeting are reported although nothing can collide |
| `BookingAudit.CollisionsAreListedOnce` | `scripts/check-duplicate-room-bookings.ts:58-73` | two live bookings of different meetings are listed, in exactly one of the two orders, if and only if they share a room and an instant |
| `BookingAudit.NoDoubleBookingIff` | `scripts/check-duplicate-room-bookings.ts:58-73` | the list is empty if and only if no room is ever held by two meetings at once |
| `BookingAudit.EmptyIntervalIsListed` | `scripts/check-duplicate-room-bookings.ts:71-72` | a booking with an empty interval can be listed without sharing an instant |
| `RestrictedHours.WithinIsCyclic` | `src/common/utils/vn-restricted-hours.util.ts:35-46` | the two-branch test is cyclic distance: the current minute is no further ahead of the opening than the closing is |
| `RestrictedHours.MinuteOfInstant` | `src/common/utils/vn-restricted-hours.util.ts:13-22` | an instant at h:m UTC of any day is at minute (60h + m + 420) mod 1440 of the Vietnamese day |
| `RestrictedHours.OutsideAt` | `src/common/utils/vn-restricted-hours.util.ts:35-62` | the whole test for an instant at h:m UTC in numbers, both bounds included in the window |
| `RestrictedHours.WithinIsRotationInvariant` | `src/common/utils/vn-restricted-hours.util.ts:35-46` | the test does not change when all three minutes turn by the same amount |
| `RestrictedHours.MissingBoundIsAlwaysOutside` | `src/common/utils/vn-restricted-hours.util.ts:53-57` | without a window or with a missing bound every instant is outside |
| `RestrictedHours.OutsideOverWholeDays` | `src/common/utils/vn-restricted-hours.util.ts:13-62` | over any number of whole days, wherever they start, the minutes outside are exactly that number times 1440 minus the window |
| `Masking.IndexIsNotSensitive` | `src/common/utils/masking.util.ts:13-19` | no array element is masked for its index |
| `Masking.MaskedLooksAsExpected` | `src/common/utils/masking.util.ts:13-30` | along every path: the original if no key is sensitive, the mask at the outermost sensitive key, nothing below it |
| `Masking.MaskedIsTheExpectedTree` | `src/common/utils/masking.util.ts:13-30` | the masked document is the only one that shows this on every path |
| `Masking.MaskingHidesExactlyTheSecrets` | `src/common/utils/masking.util.ts:13-30` | two documents have the same masked form if and only if they agree on every path free of sensitive keys |
| `Masking.MaskingIsIdempotent` | `src/common/utils/masking.util.ts:1-33` | masking twice equals masking once |
| `Masking.MaskEntry` | `src/common/utils/masking.util.ts:13-30` | one turn of the loop overwrites just its entry of the copy |
| `Masking.MaskEntries` | `src/common/utils/masking.util.ts:13-30` | the loop masks every entry of the copy, in whatever order, and nothing else |
| `Masking.SecretsAreMasked` | `src/common/utils/masking.util.ts:11-28` | the entry under a name with "secret", "token" or "password" in it, in any case and anywhere, is '***'; under any other name, and in any array, it is what it was, masked inside |
| `Masking.SomeNames` | `src/common/utils/masking.util.ts:11-28` | apiToken and PASSWORD are masked, pass and an array element are not |
| `Masking.MaskSensitiveMetadata` | `src/common/utils/masking.util.ts:1-33` | on objects in memory: returns the masked document built from new objects only, each entry as just said, and changes no object of the input; a value that is no object is returned, or null if it is falsy |
| `Slug.SlugOfTitle` | `src/common/utils/filename.util.ts:7-18` | any words of plain letters and digits with any gaps before, between and after them give the words with single underscores between them, cut to the limit; without words it is bien_ban, cut likewise |
| `Slug.SlugOfTwoWords` | `src/common/utils/filename.util.ts:7-18` | two words: at most the first 80 characters of the two with one underscore between them |
| `Slug.AccentsNeverMatter` | `src/common/utils/filename.util.ts:8-13` | a combining mark anywhere never changes the slug, and U+0111 and U+0110 count as d and D |
| `Slug.CoreJoinsWords` | `src/common/utils/filename.util.ts:14-16` | before fallback and cut a slug is the words of the title joined by single underscores; two titles share it if and only if they have the same words |
| `Slug.SlugIsSafe` | `src/common/utils/filename.util.ts:7-18` | for every limit: letters, digits and single underscores, none at the start, exactly as long as the cut leaves, not empty for a limit of 1 or more; it ends in an underscore exactly when the cut falls right after one |
| `Slug.SlugSettles` | `src/common/utils/filename.util.ts:7-18` | with a limit of 0 or more, slugging a slug changes it if and only if it ends in an underscore, and only drops that, and the second result is final; with a negative limit it changes it unless nothing is left, of the fallback either |
| `Slug.SlugDependsOnWords` | `src/common/utils/filename.util.ts:14-17` | titles with the same words get the same file name, whatever separates them and wherever it is cut |

## Left out

- Workers that stall but live on beside their successor, and the queue's own limit on stalled jobs: only
  a death followed by redelivery is a step.
- A push to the queue that takes effect although `queue.add` rejects, and a ledger write that takes effect
  although its promise rejects.
- Timestamps, errorMessage, failureReason, deliveryResultJson, outputJson and backoff delays: no branch of
  the modelled code reads them.
- Cancelling or deleting a notification while its job is in flight; the guard's CANCELLED and missing-row
  branches are in the worker step, but no step of the protocol takes a row there.
- Recipients, attachments' bytes, HTML layout and the realtime push.
- Statements failing inside migrations: the migration runner's transaction rolls them back whole. Seeds
  and the rename's down do model failing statements. A failing rollback is not modelled.
- The literal entry lists of the migrations and seeds, except those of the two recording migrations:
  every theorem is for arbitrary lists.
- Descriptions, module and action codes of permissions: nothing reads them.
- GuardedRecovery.SeedListRecoversIff: checks one seed at a time, and not lists in which another seed
  inserts the permission that an early commit tests; `AnySeedListRecoversIff` covers those, one pattern of
  failures at a time, and `OtherInserterBreaksRecovery` shows why one seed at a time is not enough.
- RepairHistory.RepairIff: compares grants; permissions differ exactly by the entries' codes that the
  history does not insert.
- RenameMigrations.RenameAllIsSimultaneous: rename lists in which no code occurs twice, as in the source.
- Unicode decomposition: the slug's input is taken after `normalize('NFD')`.
- Parsing of "HH:MM" and the time zone table: windows are given in minutes of the day, Vietnam is UTC+7.
- The order in which `for ... in` visits keys, cyclic input to masking, and values other than JSON's.
- The other checks of a move (who may move it, its status, the new room's state and capacity): they only
  narrow which moves are tried.
- Inbox: rows inserted or deleted between two page queries, and the read state of a user.
- Query 1's ORDER BY and the printed tables of the audit script.
- The other seeds and migrations that repeat a modelled pattern, and those of tables that grants do not
  touch.
- Scheduling, no-show, gate, presence and transcription services.
