# A verified model of kube-stager's reconcilers

kube-stager is a Kubernetes operator that runs staging sites. Its logic is a set of reconcilers over a
shared object store: each pass reads some objects, decides, and writes some objects, and any call may
fail. This project models those passes in Dafny and proves what they keep over whole runs.

How the model is set up:

- The store is a set of maps from names to records. A pass is a method of a class whose fields are the
  part of the store the pass reads and writes. Each such method is proved equal to a specification
  function of the old state, and the properties are lemmas about those functions and about runs of them.
- A writing call ends `Ok`, `Rejected` (no effect) or `TimedOut` (effect, but reported as a failure).
  A reading call succeeds or fails. How the calls of a pass end is an argument of the pass.
- A walk over a Go map is the sequence of its keys in an arbitrary order (`Iteration`).
- Between passes the environment may finish, fail, expire or add batch jobs, edit specs, delete objects.
- Time is an integer number of seconds in UTC. `Md5Base36` and the FNV hash are parameters; of the
  first only its length and alphabet are used, of the second nothing.

| file | what it models |
|---|---|
| `Names.dfy`, `NameOutcomes.dfy` | generated names, slice helpers |
| `Jobs.dfy` | batch jobs, API calls, the pass over a running job that two controllers share |
| `MigrationJob.dfy`, `InitJob.dfy` | the migration and init job controllers |
| `JobOutcomes.dfy` | which answer both controllers give, by the conditions of the batch job |
| `MigrationSettles.dfy` | how long a migration job can stay Running |
| `Backup.dfy`, `FinalBackup.dfy` | the backup controller; the release of a deleted site by two controllers |
| `BackupProgress.dfy` | the batch jobs and services after a pass; a Backup from its creation to its end |
| `ReleaseProgress.dfy` | a deleted site from its first pass to its release |
| `BackupFinality.dfy` | the state and the start of a Backup after a pass, and when the order of the walk matters |
| `BackupSchedule.dfy`, `SiteStatus.dfy` | the daily backup window; the status pass of a site |
| `StatusMeaning.dfy` | the status after a pass, field by field |
| `SiteGating.dfy` | the pass over a site: deletion in time, the stages, the gate before workloads, the scheduled backup, saving |
| `GateRecords.dfy` | the gate in the fields of the spec and the records of the store |
| `MigrationGate.dfy` | the gate next to the runs of the migration jobs |
| `TaskDiff.dfy`, `TaskConvergence.dfy` | the handlers that diff tasks and jobs against the site spec |
| `TaskOutcomes.dfy` | what a pass of these handlers does to every record |
| `TaskRuns.dfy` | runs of these handlers in which passes may fail, and when all of them converge |
| `Redis.dfy`, `RedisOutcomes.dfy` | the Redis handler and its allocator; that it does what the other handlers do |
| `MysqlServer.dfy`, `MysqlTask.dfy` | a database task on its server; its finalizer |
| `Template.dfy`, `TemplateValues.dfy`, `TemplateAdmission.dfy` | template engine, its values, its admission check |
| `TemplateMeaning.dfy` | what a template reads under each key |
| `Webhooks.dfy` | the admission webhooks as a protocol |
| `ConfigAdmission.dfy` | the admission of a service config: references and templates together |
| `Apis.dfy`, `Iteration.dfy` | shared types |

Where the code does not do what one would expect, the code is kept and the exact condition is proved:

- A retag does not reset the counter of missed batch jobs (`MigrationJob.RetagKeepsMissCount`); every
  number of misses up to the limit occurs in a run (`MigrationSettles.MissesAreReachable`).
- A Backup in a final state is logged as skipped but processed all the same. It stays Complete iff no
  covered service has failed or lacks its batch job (`BackupFinality.CompleteStaysExactly`); a site with
  nothing to back up completes even a Failed Backup (`BackupFinality.StateAfter`).
- The state of a Backup after a pass depends on map order, except iff there is not both a failed service
  and a missing batch job (`BackupFinality.StateIsOrderFreeExactly`). The recorded start does too, except
  iff a covered service is new or all services that give the pass something to save lead to the same
  start (`BackupFinality.StartIsOrderFreeExactly`).
- A slot of the daily backup can be backed up more than once. A due backup stays due iff its creation is
  not reported as done or the status is not saved afterwards (`BackupSchedule.DueStaysExactly`), and no
  slot of a run is backed up twice iff neither happens to a creation that another one follows
  (`BackupSchedule.OncePerSlotExactly`).
- A negative backup hour makes every status pass report a change (`SiteStatus.Fixpoint`); hours past 23
  fail every pass (`SiteStatus.FailsExactly`).
- Some changes of the status are not reported and so not saved: exactly corrected user and database
  names, a first workload health and a first state, on a site that is up to date otherwise
  (`SiteStatus.UnreportedExactly`).
- The diff handlers do not converge from every store. Without a failing call they always do iff every
  database task of a wanted service has the wanted name and no missing record's name is held by a record
  of another site or of a wanted service (`TaskRuns.ConvergesExactly`). A changed short name breaks the
  first: the task under the old name is never renamed (`TaskConvergence.RenameIsNeverFollowed`).
- A Redis task that is updated is saved with number 0. One update keeps the numbers distinct iff no other
  task of the environment holds 0 (`Redis.UpdateKeepsDistinctExactly`), and over any run 0 is the only
  number that can be shared (`Redis.OnlyZeroIsShared`).
- The gate before the workloads does not look at the tags of migration jobs (`SiteGating.GateIgnoresTags`).
  When it is open, all databases are migrated to the wanted tags iff each job records the wanted tag as
  its last one (`MigrationGate.OpenGateIsMigratedExactly`); that its spec has the tag is not enough
  (`MigrationGate.RetaggedLooksComplete`).
- The order of two template replacements matters on some well-formed text iff the value of one name
  contains the token of the other, or ends with a part of it, and that other name's value is not its own
  token (`Template.OrderMattersExactly`).
- A final Backup that an earlier site of the same name has left counts as the final Backup of the new one
  (`FinalBackup.ReleaseIsSafe`, where batch jobs may have succeeded before the run).
- The loop over the grant rows does not notice that rows are missing (`MysqlServer.GrantsAreExactExactly`).
- `MakeObjectName` does not check its suffixes (`Names.ObjectNameFits`).

## Model

| member | source | states |
|---|---|---|
| MigrationJob.RunIsSafe | controllers/job/dbmigrationjob_controller.go:74-221 | In every run, with a failure at any call and any tag edits: a job recorded Complete with a tag has had a batch job, created while that was its tag, succeed since the tag was last recorded; its live batch jobs were all created for the recorded tag; there is at most one |
| MigrationJob.DbMigrationJobReconciler.DoReconcile | controllers/job/dbmigrationjob_controller.go:74-118 | The pass computes the specified store and outcome: retag, pending, running and final branches with every early return |
| MigrationJob.DbMigrationJobReconciler.CreateJobIfNeeded | controllers/job/dbmigrationjob_controller.go:188-221 | Adopts an existing owned batch job or creates one for the recorded tag, and saves Running only after that |
| MigrationJob.RetagStartsOver | controllers/job/dbmigrationjob_controller.go:87-99 | An error-free retag pass removes exactly the batch jobs of the old tag, records the new one with a new deadline and asks for another pass |
| MigrationJob.RetagKeepsMissCount | controllers/job/dbmigrationjob_controller.go:87-99 | After a retag and a new batch job, losing that batch job once fails the job exactly when five or more misses were already counted for the old tag (short of the 32-bit wrap) |
| MigrationSettles.RunningJobSettles | controllers/job/dbmigrationjob_controller.go:74-176 | From every reachable state, past the deadline and with the tag left alone: a running job is settled after as many error-free passes as its rank, whatever batch jobs, failures, other jobs and deletions of batch jobs come in between |
| MigrationSettles.RankIs | controllers/job/dbmigrationjob_controller.go:120-143 | That rank is at most six, one when more misses than the limit were carried over from an earlier tag, and seven exactly at the wrap of the 32-bit counter |
| MigrationSettles.SettledStays | controllers/job/dbmigrationjob_controller.go:74-118 | A settled migration job keeps its status until it is deleted or gets another tag |
| MigrationSettles.MissesAreReachable | controllers/job/dbmigrationjob_controller.go:120-143 | For every number of misses up to the limit there is a run that ends with a Running job that has counted them |
| MigrationJob.OwnedAtMostOne | controllers/job/dbmigrationjob_controller.go:236-312 | The batch jobs owned by a job are at most the one with its generated name |
| Jobs.ProcessRunningJob | controllers/job/dbinitjob_controller.go:130-186 | One pass over a running job: miss counter, first true condition, deadline, and when a change is reported |
| Jobs.ScanConditions | controllers/job/dbmigrationjob_controller.go:147-166 | The loop over the conditions finds the first true Complete or Failed one |
| Jobs.FirstVerdictIsFirst | controllers/job/dbmigrationjob_controller.go:147-166 | The verdict is that of the first condition that is true and of one of the two types |
| JobOutcomes.MigrationFollows | controllers/job/dbmigrationjob_controller.go:120-176 | The answer of an error-free pass over a running migration job with one batch job: Complete iff the first decisive condition is a JobComplete; Failed iff it is a JobFailed, or there is none and the deadline is over; otherwise Running; the misses are forgotten and nothing else changes |
| JobOutcomes.InitFollows | controllers/job/dbinitjob_controller.go:130-186 | The same for a running init job |
| JobOutcomes.MigrationCounts | controllers/job/dbmigrationjob_controller.go:128-138 | Without a batch job the pass counts one more miss, with the 32-bit wrap, and fails the job iff there are more than five |
| JobOutcomes.MigrationStarts | controllers/job/dbmigrationjob_controller.go:188-221 | An error-free pass over a pending migration job without a batch job creates exactly one, for the tag, owned by the job and without conditions, and records Running |
| JobOutcomes.InitStarts | controllers/job/dbinitjob_controller.go:188-242 | The same for an init job; it is Failed instead iff it has no database or its service no pod spec |
| JobOutcomes.SuccessCompletes | controllers/job/dbmigrationjob_controller.go:74-176 | In every run: when the batch job of a running migration job reports success, the next error-free pass completes the job |
| JobOutcomes.NewMigrationCompletes | controllers/job/dbmigrationjob_controller.go:74-221 | From any store in which its names are free, a new migration job is Complete for its tag after three error-free passes and a success of the batch job that the second one creates |
| JobOutcomes.NewInitJobCompletes | controllers/job/dbinitjob_controller.go:78-242 | The same for a new init job with a database and a pod spec |
| InitJob.FinalIsAbsorbing | controllers/job/dbinitjob_controller.go:91-128 | From a reachable state, no later event short of deleting the object changes the status of a Complete or Failed job |
| InitJob.ReachableStatus | controllers/job/dbinitjob_controller.go:91-186 | In every reachable state a job past its first pass has a deadline and an unsettled one has counted at most five misses |
| InitJob.RunningJobSettles | controllers/job/dbinitjob_controller.go:130-186 | Past the deadline at most six error-free passes occur before a running job is settled, whatever batch jobs and failures come in between |
| InitJob.DbInitJobReconciler.DoReconcile | controllers/job/dbinitjob_controller.go:78-128 | The pass computes the specified store and outcome |
| InitJob.DbInitJobReconciler.CreateJobIfNeeded | controllers/job/dbinitjob_controller.go:188-242 | Adoption, the failing cases without environment or pod spec, creation, and what is saved in each |
| BackupJob.PassOutcome | controllers/job/backup_controller.go:129-189 | For every map order and every state before: an unfailed pass over nothing to back up completes the Backup; otherwise one that was not Complete becomes so iff it was not Failed and every covered service ends Complete, and is then finished when the last service is; settled services stay; the start only moves earlier |
| BackupJob.ProcessServiceInJob | controllers/job/backup_controller.go:191-286 | The loop over the services computes the specified status, batch jobs, flags and latest finish, stopping at the first failing call |
| BackupJob.BackupReconciler.LoadServicesForSite | controllers/job/backup_controller.go:288-315 | Marks new services Pending up to the first failing config read and returns exactly the services with a backup pod spec |
| BackupJob.BackupReconciler.EnsureJobsAreUpToDate | controllers/job/backup_controller.go:129-189 | The whole pass over one Backup, with every early return |
| BackupJob.BackupReconciler.DoReconcile | controllers/job/backup_controller.go:84-127 | Initialises a new Backup, otherwise runs the pass, final state or not, and saves what changed |
| BackupJob.EnsureJobsIsSafe | controllers/job/backup_controller.go:129-315 | Failures included: a service is newly Complete only if its batch job had succeeded, settled services stay, batch jobs are only added and without a verdict |
| BackupJob.PassCompletesAll | controllers/job/backup_controller.go:160-189 | That a Backup is Complete only if all its covered services are is kept by every pass over a fixed set of services, failures included; when Complete itself is kept is `BackupFinality.CompleteStaysExactly` |
| BackupProgress.PassFollows | controllers/job/backup_controller.go:129-286 | An error-free pass adds exactly one batch job for every covered unsettled service that has none, of kind Backup, owned by the Backup, created now and without conditions, and keeps all others; such a service is Running since now; a settled one stays; any other follows the first decisive condition of its batch job, with the start and finish of that |
| BackupProgress.SucceededCompletes | controllers/job/backup_controller.go:160-189 | Once the batch jobs of all covered services that are not Complete have succeeded, the next error-free pass completes a Backup that was not Failed |
| BackupProgress.NewBackupCompletes | controllers/job/backup_controller.go:84-286 | A new Backup is Pending after one error-free pass, Running with all its batch jobs after the second, and Complete after the third if these have succeeded, from any store without batch jobs of those names |
| BackupFinality.StateAfter | controllers/job/backup_controller.go:129-286 | The state after an error-free pass for every state before and every order, from what is found at the start: nothing to back up gives Complete, even from Failed; Failed iff a failed service comes after all those without a batch job, or none lacks one and a service or the Backup had failed; otherwise Running if one lacks a batch job, Complete if all are done, else unchanged |
| BackupFinality.CompleteStaysExactly | controllers/job/backup_controller.go:105-189 | An error-free pass keeps a Complete Backup Complete iff no covered service has failed or lacks its batch job |
| BackupFinality.StateIsOrderFreeExactly | controllers/job/backup_controller.go:191-286 | All orders of the walk leave the same state iff there is not both a covered service without a batch job and a failed one |
| BackupFinality.StartAfter | controllers/job/backup_controller.go:191-286 | The recorded start after an error-free pass: batch jobs move it only until the first service in the order that gives the pass something to save |
| BackupFinality.StartIsOrderFreeExactly | controllers/job/backup_controller.go:245-247 | All orders of the walk leave the same start iff a covered service is new to the Backup or all services that give the pass something to save lead to the same start |
| FinalBackup.ReleaseIsSafe | controllers/site/stagingsite_controller.go:262-295 | In every run of the site and backup controllers with failures at any call, a site that asks for a backup is released only when its final Backup is Failed or every covered service's batch job had succeeded by then, in the run or, for a final Backup that was there before, earlier |
| FinalBackup.ReleaseExactly | controllers/site/stagingsite_controller.go:262-295 | Exactly when a pass removes the finalizer, and that the other finalizers keep their order |
| FinalBackup.SettledIsReleased | controllers/site/stagingsite_controller.go:262-295 | From every state, as long as the site asks for no backup or its final Backup is Complete or Failed: it is released after two error-free passes, one if it is Pending, whatever happens in between |
| FinalBackup.BackedUpIsReleased | controllers/site/stagingsite_controller.go:262-295 | A site whose final Backup is Complete is released after two error-free passes, with failing passes, edits, batch jobs and passes over Backups in between, unless that Backup is deleted |
| FinalBackup.StagingSiteReconciler.HandleDelete | controllers/site/stagingsite_controller.go:262-295 | The deletion pass computes the specified site, Backups and outcome |
| FinalBackup.HistoryIsReal | controllers/job/backup_controller.go:129-189 | Every success that a run has recorded is a batch job that has succeeded at some moment of the run |
| ReleaseProgress.DeletePassMeans | controllers/site/stagingsite_controller.go:262-295 | Exactly what an error-free pass over a deleted site does: sets the state first, then creates the missing final Backup, waits for one that has not ended, or takes off the finalizer and nothing else |
| ReleaseProgress.DeletedSiteIsReleased | handlers/job/backup_handler.go:48-85 | From a pending deleted site without a final Backup: the Backup is created, completes in three error-free passes with its batch jobs succeeding, and the next error-free pass releases the site |
| BackupSchedule.GetNextBackupTimeForSite | controllers/site/stagingsite_controller.go:552-589 | For hours 0 to 23 the result lies in [now, now + 24h) and at the slot's second of the day; the loop ends; negative hours give none, later ones fail |
| BackupSchedule.NextSlotIsTheOne | controllers/site/stagingsite_controller.go:567-588 | That moment is the only one, and its hour is the requested one |
| BackupSchedule.DueStaysExactly | controllers/site/stagingsite_controller.go:211-252 | After any run with fixed hour and name, failures included, a pass that attempts a due backup leaves it due for every later pass iff the creation is not reported as done or the status save is rejected; otherwise the stored time moves forward by a positive whole number of days and none is due again before the clock has passed it |
| BackupSchedule.OncePerSlotExactly | controllers/site/stagingsite_controller.go:211-252 | In every run, whatever the clock does: no slot is backed up twice iff every creation that another one follows was reported as done and its new time saved |
| BackupSchedule.SameSlotExactly | controllers/site/stagingsite_controller.go:211-252 | Two Backups of a run are for the same slot iff no creation from the first up to the second is both reported as done and saved |
| SiteStatus.Fixpoint | controllers/site/stagingsite_controller.go:340-541 | Run on its saved result with a fixed clock, the status pass reports a change iff the backup hour is negative, for all listing and sorting orders; the saved status meets its defining formulas |
| SiteStatus.QuietExactly | controllers/site/stagingsite_controller.go:340-541 | A pass over an up-to-date site reports a change exactly when the hour of the next backup is wrong |
| SiteStatus.PassEstablishes | controllers/site/stagingsite_controller.go:381-515 | A pass that does not fail leaves services with exactly the spec's keys, both deadlines, Enabled and the last backup at their formulas, and all Backups adopted |
| SiteStatus.FailsExactly | controllers/site/stagingsite_controller.go:340-541 | Without a failing call a pass fails iff a service has no config or the hour does not parse |
| SiteStatus.AnnotationFirst | controllers/site/stagingsite_controller.go:354-379 | A missing or garbled annotation is written first, and that pass reports a change unless the write fails |
| SiteStatus.LastBackupNeverDecreases | controllers/site/stagingsite_controller.go:485-512 | The recorded last backup never goes back, and after a pass is at least every completed Backup's finish |
| SiteStatus.Retention | controllers/site/stagingsite_controller.go:488-538 | For every sorted order: only finished Backups are deleted, none that started later than a kept one, failures included; without a failure exactly min(n, 3) finished ones remain |
| SiteStatus.UnreportedExactly | controllers/site/stagingsite_controller.go:340-515 | A pass that does not fail computes a new status without reporting a change iff the site is up to date, its Backups adopted and the hour right, and its service entries differ from those of the spec, its health is missing or it has no state yet |
| SiteStatus.ChangedExactly | controllers/site/stagingsite_controller.go:340-541 | A pass that does not fail reports a change iff the status does not meet its formulas, a Backup is not adopted, or the hour of the next backup is wrong |
| StatusMeaning.DeadlineFields | controllers/site/stagingsite_controller.go:381-415 | After an unfailed pass: both deadlines are the last change plus days, hours and minutes, or none; enabled iff the spec says so and the deadline is not over; the last applied configuration is the later of the two times; a change of enabled makes the site pending |
| StatusMeaning.ServiceFields | controllers/site/stagingsite_controller.go:417-455 | After an unfailed pass the entries are those of the spec, with the generated user and database names and the Redis number they had, or 0 |
| StatusMeaning.NextFields | controllers/site/stagingsite_controller.go:461-472 | The time of the next backup: none without an hour or with a negative one; kept in the right hour; otherwise within a day from now at the second that the hour and the hash of the name give |
| StatusMeaning.LastIsAFinish | controllers/site/stagingsite_controller.go:485-512 | The recorded last backup is the finish of a completed Backup of the site or was recorded before, failures included |
| StatusMeaning.OldestGo | controllers/site/stagingsite_controller.go:513-538 | A Backup that a pass deletes had ended, and started no later than any ended one that stays |
| SiteStatus.StagingSite.EnsureStatusIsUpToDate | controllers/site/stagingsite_controller.go:340-541 | The status pass computes the specified site, change flag and failure, with every early return |
| SiteStatus.StagingSite.UpdateDeadlines | controllers/site/stagingsite_controller.go:381-415 | Disable and delete times, Enabled and the last applied configuration, and whether any of them changed |
| SiteStatus.StagingSite.UpdateServices | controllers/site/stagingsite_controller.go:427-455 | One entry per service of the spec; an entry that was there keeps its Redis number |
| SiteStatus.StagingSite.UpdateNext | controllers/site/stagingsite_controller.go:461-472 | Reschedules exactly when the hour is wrong or no longer wanted |
| SiteStatus.StagingSite.ScanAll | controllers/site/stagingsite_controller.go:485-507 | The loop over the Backups: last finish, finished ones, adoption, stopping at the first failing update |
| SiteStatus.StagingSite.CleanUp | controllers/site/stagingsite_controller.go:518-538 | Deletes the first of the sorted Backups, all but three, up to the first failing call |
| SiteGating.StagingSiteReconciler.DoReconcile | controllers/site/stagingsite_controller.go:141-232 | A site past its delete time is deleted and nothing else happens. Otherwise workloads are reached only if in that pass the MySQL, Mongo, Redis, init and migration lists corresponded one to one to the wanted services with every state Complete and the configs ensured; without a failing call exactly then; networking only after workloads. A backup is made only when due and after networking, and the stored time is then the one `BackupSchedule` speaks of, in every other pass the old one. What else is saved: Complete only after networking; Failed on a final error; nothing when the update is rejected |
| SiteGating.StagingSiteReconciler.EnsureDatabasesAreCreated | controllers/site/stagingsite_controller.go:591-620 | The flag is set only if all three lists correspond and are Complete, and then nothing has been written |
| SiteGating.StagingSiteReconciler.EnsureDatabasesAreInitialised | controllers/site/stagingsite_controller.go:622-644 | The flag is set only if the init jobs correspond and are Complete; a change is reported exactly while they are not |
| SiteGating.StagingSiteReconciler.EnsureDatabaseMigrationJobsAreCreated | controllers/site/stagingsite_controller.go:646-668 | The flag is set only if the migration jobs cover the wanted services and are Complete; the pass only retags |
| GateRecords.GateByRecords | controllers/site/stagingsite_controller.go:591-668 | The gate is open iff, for every service and engine with an environment, there is exactly one task of the site, under the generated name, with that environment, the generated names and the password, and Complete; exactly one Complete init job for every service with a MySQL or Mongo environment and an init pod spec; the same for migration jobs while the site is enabled; and no record of the site for anything else |
| GateRecords.ThroughTheGate | controllers/site/stagingsite_controller.go:141-209 | A pass that reaches the workloads leaves all that as it was, and every migration job with the image tag of the spec |
| GateRecords.MissingDatabaseIsMade | handlers/task/mysql_handler.go:22-93 | A missing database task is made with the environment, names and password of the spec by any pass that does not fail |
| GateRecords.MissingInitJobIsMade | handlers/job/db_init_job_handler.go:22-94 | A missing init job is made with the environments and the init source of the spec |
| GateRecords.MissingMigrationIsMade | handlers/job/db_migration_job_handler.go:22-111 | A missing migration job is made with the image tag of the spec |
| SiteGating.GateIgnoresTags | handlers/job/db_migration_job_handler.go:73-111 | The gate does not depend on the tags of the migration jobs; what it then says about them is `MigrationGate.OpenGateIsMigratedExactly` |
| MigrationGate.OpenGateIsMigratedExactly | handlers/job/db_migration_job_handler.go:73-111 | With the migration list done, in every run of the migration controller: every job has migrated to the wanted tag iff every job records the wanted tag as its last one |
| MigrationGate.MigratedExactly | controllers/job/dbmigrationjob_controller.go:74-118 | In every run, a Complete job has been migrated to a tag, by a batch job that succeeded since that tag was recorded, iff the tag is the recorded one |
| MigrationGate.RetaggedLooksComplete | controllers/job/dbmigrationjob_controller.go:87-99 | After any edit of the tag of a Complete job and before its next pass, the spec matches and the state is Complete, but nothing has been migrated to the new tag |
| SiteGating.RunHandler | handlers/job/db_init_job_handler.go:22-94 | Around one handler: complete exactly when records and wanted services correspond, and what it then leaves |
| TaskConvergence.CompleteExactly | handlers/task/mysql_handler.go:55-69 | isComplete iff existing records and wanted services correspond one to one and, for database tasks, match, for every listing order |
| TaskConvergence.PassDecreases | handlers/task/mysql_handler.go:55-93 | A pass without failure that is not complete strictly decreases (surplus records, unmatched services); a complete site stays complete |
| TaskConvergence.Converges | handlers/task/mysql_handler.go:22-93 | In runs in which no pass fails: after more passes than there are surplus records the site is complete, with duplicates deleted one per service and pass; runs with failing passes are `TaskRuns.ConvergesExactly` |
| TaskRuns.ConvergesExactly | handlers/task/mysql_handler.go:22-93 | Over all listing and map orders, without a failing call but with passes that fail: every run longer than the surplus ends with the wanted records iff, in the store it starts from, every database task of a wanted service has the wanted name, and no missing wanted name is held by a record of another site or of a wanted service |
| TaskRuns.OtherwiseNever | handlers/task/mysql_handler.go:55-88 | When that condition does not hold, for every number of passes there are orders for which the site is still not complete |
| TaskRuns.StepApproaches | handlers/task/mysql_handler.go:55-93 | Under that condition a single pass, failed or not, keeps it and gets nearer: fewer surplus records, or the wanted records |
| TaskConvergence.FailsExactly | handlers/task/mysql_handler.go:71-88 | Without a failing call a pass fails iff a missing object's name is taken by one it does not delete, or a kept database task has another name |
| TaskConvergence.DiffIsMeant | handlers/task/mysql_handler.go:55-67 | The three maps without their loop: the first record of a wanted service is kept, updated if it does not match; every other service record is up for deletion |
| TaskOutcomes.PassLeavesRecords | handlers/task/mysql_handler.go:55-93 | What an unfailed pass does to every record: a missing one is made under the wanted name with the wanted content; the only one of a wanted service stays, with the wanted content unless it is an init job; the only one of another service goes; those of other sites stay |
| TaskConvergence.OthersAreUntouched | handlers/task/mysql_handler.go:71-88 | No pass touches records of other sites, whatever fails |
| TaskConvergence.RenameIsNeverFollowed | apis/task/v1/mysqldatabase_helpers.go:46-58 | The only task of a service, under an outdated name, is never updated, deleted or replaced, and no pass calls the site complete, whatever names the other services want; the general condition is `TaskRuns.ConvergesExactly` |
| TaskDiff.TaskHandler.EnsureDatabasesAreCreated | handlers/task/mysql_handler.go:22-93 | The handler computes the specified store, completeness and failure |
| TaskDiff.TaskHandler.Compare | handlers/task/mysql_handler.go:55-67 | The loop over the listed records computes the three maps |
| TaskDiff.TaskHandler.EnsureDatabasesAreReady | handlers/task/mysql_handler.go:95-126 | Failed iff some record is Failed, ready iff all are Complete |
| TaskDiff.NamesAreDistinct | apis/task/v1/mysqldatabase_helpers.go:23-32 | Expected names are distinct iff the short names are |
| Redis.NumbersAreDistinct | handlers/task/redis_handler.go:78-101 | In every run of passes that update nothing, over any number of sites, with failures, removals and growing counts, the reservations of an environment hold distinct numbers below its count |
| Redis.OnlyZeroIsShared | handlers/task/redis_handler.go:60-111 | In every run, updates included, two reservations of one environment with the same number both hold 0, and every number is below the count |
| Redis.GetFirstFreeDatabaseInEnvironment | handlers/task/redis_handler.go:207-226 | Returns the least free number, or none exactly when all are taken |
| Redis.AllocationSucceeds | handlers/task/redis_handler.go:207-226 | With fewer reservations than databases allocation succeeds |
| Redis.UpdateKeepsDistinctExactly | handlers/task/redis_handler.go:60-71 | An update saves number 0, and the numbers stay distinct iff no other task of the new environment holds 0 |
| Redis.StatusHasTheNumbers | handlers/task/redis_handler.go:86-101 | A creation loop that is not cut short leaves in the site status the numbers it has reserved, others untouched |
| RedisOutcomes.RefinesGeneric | handlers/task/redis_handler.go:23-116 | Where the Redis handler does not fail, its tasks are afterwards, numbers aside, exactly what the handlers of the other engines would make of them |
| RedisOutcomes.PassLeavesTasks | handlers/task/redis_handler.go:55-111 | A missing Redis task is made in the wanted environment; the only one of a wanted service is in the wanted environment afterwards; the only one of another service is gone |
| Redis.RedisTaskHandler.EnsureDatabasesAreCreated | handlers/task/redis_handler.go:23-116 | From the listed records and the wanted services the handler computes the specified reservations, status numbers, completeness and failure |
| MysqlServer.ReconcileConverges | handlers/database/mysql_handler.go:125-143 | From any server state a successful run leaves the user with the password, the database, and as the user's grants the database plus exactly what was not seen or has an empty name; all else is unchanged |
| MysqlServer.GrantsAreExactExactly | handlers/database/mysql_handler.go:250-311 | The grants end up exactly as requested iff every row that was not read is the requested one and none has an empty name |
| MysqlServer.SecondRunChangesNothing | handlers/database/mysql_handler.go:125-143 | A second successful run changes nothing |
| MysqlServer.DeleteRemoves | handlers/database/mysql_handler.go:145-163 | A successful deletion removes the user, its grants and the database, and nothing else |
| MysqlServer.UsernamesAreNotEmpty | apis/helpers.go:26-28 | User names are never empty |
| MysqlServer.MysqlReconcileTask.RevokeNotRequestedPermissions | handlers/database/mysql_handler.go:292-311 | Revokes all rows but the requested one and tells whether it was there |
| MysqlTask.NoOrphans | controllers/task/mysqldatabase_controller.go:62-116 | In every run, with a failure at any call or statement: whenever the user or the database of the task may exist, the task object exists and carries the finalizer |
| MysqlTask.ReleaseExactly | controllers/task/mysqldatabase_controller.go:86-101 | The finalizer goes exactly in a pass that has removed everything and whose update goes through; other finalizers keep their order |
| MysqlTask.CompletingServes | controllers/task/mysqldatabase_controller.go:103-116 | A pass that turns the task complete leaves the user with the password, the database and the grant on the server, and everything of others as it was |
| MysqlTask.CompleteWasServed | controllers/task/mysqldatabase_controller.go:62-116 | In every run: a task that says it is complete has had all that on the server after some event |
| MysqlTask.PassCompletes | controllers/task/mysqldatabase_controller.go:103-116 | From every state of the server, an error-free pass over a live object with the finalizer ends complete with all that there |
| MysqlTask.NewTaskCompletes | controllers/task/mysqldatabase_controller.go:62-116 | A new task is complete after two error-free passes, the first of which adds the finalizer and leaves the server alone |
| MysqlTask.DeletedIsRemoved | controllers/task/mysqldatabase_controller.go:86-101 | An error-free pass over a deleted object leaves neither user nor database and takes off the finalizer; the object goes iff it had no other |
| MysqlTask.MysqlDatabaseReconciler.DoReconcile | controllers/task/mysqldatabase_controller.go:62-116 | The pass computes the specified object, server and outcome |
| Template.ReplaceTemplateVariablesInString | helpers/template.go:25-33 | On well-formed text with `$`-free values the nested replacement loops equal one simultaneous substitution, whatever the map order; for a repeated name the first getter wins |
| Template.ReplaceAllIsSubst | helpers/template.go:25-33 | One ReplaceAll of a token is a substitution of that name |
| Template.BindIsFirst | helpers/template.go:25-33 | The first getter that has a name gives its value |
| Template.OrderMattersExactly | helpers/template.go:25-33 | For all names and values: the two orders of replacing two names agree on every well-formed text iff neither value contains the token of the other name or ends with a nonempty part of it, unless that name stands for its own token |
| Template.HarmlessIsAtOnce | helpers/template.go:25-33 | When that holds of every two names of a map, all orders of its names replace all of them at once on every well-formed text, values with `$` included |
| Template.ReplaceAllChangesExactly | helpers/template.go:25-33 | ReplaceAll changes a text iff the pattern occurs in it and the replacement is not the pattern |
| Template.GetUnresolvedTemplatesFromString | helpers/template.go:69-82 | The distinct leftovers of the text in order of appearance |
| Template.FindAllIsTokens | helpers/template.go:69-82 | On well-formed text the matches are exactly its tokens with a matchable name |
| Template.WantedIsResolved | helpers/template.go:69-109 | Nothing is left after substitution iff every wanted name has a value |
| Template.ReplaceTemplateVariablesInSpec | helpers/template.go:84-169 | A spec is accepted iff every name it asks for is provided, and then is the substituted text |
| Template.ReplaceTemplateVariablesInStringMap | helpers/template.go:46-67 | The same for every entry of a map, stopping at the first leftover |
| TemplateValues.GetTemplateValues | handlers/template/site.go:167-221 | The keys are exactly those of the site and its services, and each value is the one its builder gives |
| TemplateValues.ValuesAreFunctional | handlers/template/site.go:167-304 | No two builders give one key two values |
| TemplateValues.ServiceKeysAreInjective | handlers/template/site.go:202-218 | A service key determines its service and its part |
| TemplateMeaning.SiteReads | handlers/template/site.go:167-190 | What is read under each key of the site: its name, prefix and image tag, the user, database and password, and host, port and the rest of the environment that is named, or else the default |
| TemplateMeaning.ServiceReads | handlers/template/site.go:202-221 | The same for every service of the namespace under its prefix, and its cluster URL |
| TemplateMeaning.CustomReads | handlers/template/site.go:190-201 | Config map names, and custom values, where those of the site come before those of the config |
| TemplateAdmission.AcceptedConfigResolves | handlers/webhook/serviceconfig_create_or_update.go:105-154 | What admission accepted against the dummy site resolves for every site of the config, provided known services and default environments are kept |
| TemplateAdmission.DummyKeysContained | apis/site/v1/stagingsite_helpers.go:46-72 | The dummy site's keys are all there for a site iff every known service is kept with its default environments |
| TemplateAdmission.ValidateTemplates | handlers/webhook/serviceconfig_create_or_update.go:105-154 | The chain of checks accepts iff every text asks only for provided names |
| TemplateAdmission.CheckTemplates | handlers/webhook/serviceconfig_create_or_update.go:32-44 | The same with the values of the dummy site |
| Webhooks.ReferencesStayIntact | handlers/webhook/stagingsite.go:54-187 | In every run of admitted creations, updates and deletions: sites refer to existing configs and environments, the webhook's labels are exactly those for what the site uses, default environments exist, short names are unique |
| Webhooks.GuardsAreExact | handlers/webhook/mysqlconfig_delete.go:25-77 | On an intact namespace the label queries allow a deletion iff nothing uses the environment or the config |
| Webhooks.LabelsAreExact | handlers/webhook/stagingsite.go:145-187 | After the four updates the prefixed labels are exactly the used names and every other label is untouched |
| Webhooks.AdmittedSiteIsIntact | handlers/webhook/stagingsite.go:54-160 | An admitted site is intact, has a service, includes all configs if asked to, and keeps every environment that was named |
| Webhooks.AdmittedFields | handlers/webhook/stagingsite.go:54-100 | Every field of every service of an admitted site: the submitted value if there was one, else the default of the field or of the config; custom values as submitted; a service that was added has nothing but defaults |
| Webhooks.AdmittedExactly | handlers/webhook/stagingsite.go:54-140 | A site is admitted iff it has a service, every service has a config, and every environment that is named or defaulted to exists |
| Webhooks.AdmissionIsIdempotent | handlers/webhook/stagingsite.go:24-168 | Admitting a stored site again changes nothing |
| Webhooks.StagingsiteHandler.Handle | handlers/webhook/stagingsite.go:24-168 | The handler admits or denies as specified, and fills in defaults and labels |
| Webhooks.UpdatePrefixedLabels | handlers/webhook/stagingsite.go:170-187 | Removes the keys with the prefix and adds those for the values |
| Webhooks.HandleEnvironmentDelete | handlers/webhook/mysqlconfig_delete.go:21-78 | Allowed iff both queries work and find nothing |
| Webhooks.HandleConfigDelete | handlers/webhook/serviceconfig_delete.go:19-45 | Allowed iff the query works and finds nothing |
| Webhooks.HandleReferences | handlers/webhook/serviceconfig_create_or_update.go:46-91 | Passes iff the short name is nobody else's and the default environments exist |
| ConfigAdmission.HandleConfig | handlers/webhook/serviceconfig_create_or_update.go:23-103 | Allowed iff the list is read, the references are right and the template check accepts; on checkable texts that check accepts iff every text resolves on the dummy site |
| ConfigAdmission.StoredConfigResolves | handlers/webhook/serviceconfig_create_or_update.go:23-154 | In every run of admitted requests, a stored config was admitted by some event, and its texts resolve for every site of the config that keeps the services known then |
| Names.ObjectNameFits | helpers/string_helper.go:43-59 | A generated object name fits 63 characters iff the joined suffix has at most 53 or nothing needs shortening |
| Names.DatabaseNamesFit | apis/helpers.go:11-28 | For all inputs database names have at most 63 and user names at most 16 characters, all in [A-Za-z0-9_] |
| Names.ShortenHumanReadableValue | helpers/string_helper.go:43-51 | Values within the limit are unchanged; the result is within the limit iff the value was or the limit is at least 10 |
| NameOutcomes.ShortenedDiffer | helpers/string_helper.go:43-51 | Long values whose digests differ stay different when shortened, and keep their beginnings |
| Names.SanitiseAndShortenDbValue | helpers/string_helper.go:35-41 | Only database characters, within any limit of at least 10 |
| Names.RemoveStringFromSlice | helpers/string_helper.go:21-29 | Removes every occurrence |
| Names.WithoutKeepsOrder | helpers/string_helper.go:21-29 | Removal distributes over concatenation, so the rest keeps its order |

## Left out

- Manager wiring, flags, config loading, field indexers, deepcopy code, metrics, Sentry and logging: no state of interest.
- Real MySQL, Mongo and Redis servers: MySQL is its users, whole-database grants and databases; the Mongo task controller is a twin of the MySQL one and is not repeated.
- Wildcard characters in the database names of GRANT statements, and the privileges of the login that the password check uses: a login either gets through with the right password or does not.
- Marshalling of pod, service and ingress specs: a spec is its marshalled text.
- Contents of config maps, deployments, services and ingresses: their handlers are single calls in `SiteGating`.
- The recheck interval of a site (`controllers/site/stagingsite_controller.go:297-338`): a minimum of times.
- Digest collisions: object names that are equal after shortening. A Backup finds its batch jobs by name only, so its properties speak of the batch job of that name, and `BackupFinality` is about services whose batch jobs have distinct names.
- The pod of a migration batch job is rendered from the site, whose tag may already be newer than the job's: the model records the job's tag.
- Informer staleness and optimistic locking: a read is atomic, a conflict is a failed call. A webhook's check and the write it admits are one step.
- Deletion of objects with finalizers in `TaskDiff`: a deleted record is gone with the call; in the cluster it may linger for some passes.
- Fractions of a second: API times are whole seconds.
- Site names with characters outside ASCII: lengths are in bytes.
- FinalBackup.ReleaseIsSafe: the services in the site status and the backup pod specs are fixed once deletion has started; nothing but these controllers creates the final Backup.
- MysqlTask.NoOrphans: one task at a time; two tasks that share a user or a database are not modelled.
- Redis.NumbersAreDistinct: covers passes without updates and counts that do not shrink; with updates the code gives less, which `Redis.UpdateKeepsDistinctExactly` and `Redis.OnlyZeroIsShared` state.
- TemplateAdmission.AcceptedConfigResolves: is about names without `$` or `}` and texts in which every `${` starts a token.
- The backup webhook (`handlers/webhook/backup_create_or_update.go`): a single existence check.
