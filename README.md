# MikroTik backup engine, modelled in Dafny

This project models the backup engine of a MikroTik backup tool. The engine:

- opens RouterOS API sessions to a router;
- has the router save a binary backup or export its configuration;
- copies the resulting file over SFTP into a local backup directory;
- records the outcome in the database;
- prunes old files from that directory;
- registers recurring backup jobs from a two-field `minute hour` expression.

The model follows the Python code of `backend/utils/mikrotik.py`, `backend/utils/scheduler.py` and `backend/models.py`. Modules:

- `Text`: the Python string primitives the engine depends on: `str.split()`, `int()`, `str()`, `str.replace`, `str.lower`, `str.endswith`.
- `Clock`: naive `datetime` values:
  - calendar validity;
  - ordering;
  - `+ timedelta(days=1)`, including the `OverflowError` past year 9999;
  - the `%Y%m%d_%H%M%S` stamp.
- `Recurrence`: how `schedule_recurring_backup` reads an expression, and the next-run estimate of `_estimate_next_run`.
- `Models`: the tables as sequences of rows. It covers the typed settings store (`get_setting`, `set_setting`), the seeding of defaults in `init_database` and the dashboard counts of `get_backup_stats`.
- `MikroTik`: `MikroTikConnection`, run against a device stub. The stub has fixed answers and records every call made on it. Each operation states its result and the exact sequence of calls it makes.
- `Backups`: `BackupManager` (one backup attempt, and the retention sweep) and `check_router_status`.
- `Scheduling`: `BackupScheduler` and the module-level helpers of the scheduler.

The model follows what the code does, including where its own comments and docstrings say something else:

- **Minute `*` with a fixed hour.** `"* 3"` takes the branch commented "Every hour at specific minute" (scheduler.py:84-86), and that branch passes `":*"` to the library.
- **Hour `*` with a fixed minute.** `"15 *"` takes the branch commented "Every day at specific hour and minute" (scheduler.py:87-89). It passes `"*:15"`.
- **Both fields fixed.** The comment at scheduler.py:72 reads `"0 2 * * *"` as "daily at 2:00 AM", but the code passes `"2:0"`, not `"02:00"`. Whether the schedule library accepts such arguments is outside the code, so it is a parameter (`accepts`).
- **Too few fields.** An expression with fewer than two fields makes `schedule_recurring_backup` return `None`, not `False`.
- **Retention sweep.** A single `try` encloses the whole loop (mikrotik.py:380-393). The first file whose time cannot be read, or whose removal fails, therefore ends the sweep.
- **Disconnects.** `create_router_backup` disconnects once more in its `finally`, after each session has already closed itself. `self.api` is never reset, so that final close is sent a second time.
- **One-time backups.** `schedule_backup` has the docstring "Schedule a one-time backup" (scheduler.py:58), but it registers a daily job.
- **Repeated starts.** `start_scheduler` loads the stored schedules on every call, so a second call registers every job again.
- **Clock readings.** `get_next_runs` reads the clock anew for every schedule (scheduler.py:234). The model therefore takes one reading per schedule row.

**Config export and removal.** `create_config_backup` and `delete_config_backup` never read the reply of the command they issue. The RouterOS client is taken to send a command only when its reply is read. That library is not part of this model (see "## Findings"). The model therefore takes a `ReplyHandling` value:

- `Unread` is the code as written. Nothing is sent, and success is reported after any login.
- `Read` is the corrected code.

Every member of the backup attempt, down to `ExecuteBackup`, takes this value. Its lemmas hold for both, and with `Unread` they describe the code as written.

## Model

| member | source | states |
|---|---|---|
| Text.Split | backend/utils/scheduler.py:79 | `str.split()` yields non-empty words free of Python whitespace |
| Text.SplitAppend | backend/utils/scheduler.py:79-82 | splitting text joined by one whitespace character splits each side separately |
| Text.ReplaceSpaces | backend/utils/mikrotik.py:325 | `replace(' ', '_')` keeps the length and changes exactly the U+0020 characters |
| Text.Lower | backend/models.py:152 | `lower()` maps each ASCII capital to its small letter and keeps everything else |
| Text.ParseIntOfIntToString | backend/models.py:150 | `int(str(n)) == n` for every integer, so an int setting written by `set_setting` reads back |
| Clock.AddOneDay | backend/utils/scheduler.py:242-243 | `+ timedelta(days=1)` is valid, later, on another date and at the same time of day; it raises only on 9999-12-31 |
| Clock.AddOneDayKeepsOrder | backend/utils/scheduler.py:242-243 | two times on one date keep their order after both move a day |
| Clock.StampLayout | backend/utils/mikrotik.py:324 | the stamp is `YYYYMMDD_HHMMSS`: 15 characters, `_` at index 8, digits elsewhere |
| Clock.StampInjective | backend/utils/mikrotik.py:324 | equal stamps mean the same date, hour, minute and second |
| Recurrence.PlanFor | backend/utils/scheduler.py:79-95 | fewer than two fields is its own outcome; `* *` alone is refused; the hourly branch is taken iff the minute is `*` |
| Recurrence.PlanArguments | backend/utils/scheduler.py:84-92 | the argument of each branch: `":*"` for an hourly job, `hour + ":" + minute` for a daily one |
| Recurrence.ExtraFieldsIgnored | backend/utils/scheduler.py:79-83 | fields after the second change neither the registration nor the estimate |
| Recurrence.EstimateNextRun | backend/utils/scheduler.py:229-250 | an estimate is a valid time strictly after now, with zero seconds and microseconds |
| Recurrence.EstimateWithinOneDay | backend/utils/scheduler.py:237-245 | the estimate carries the parsed hour and minute (`*` minute as 0). It is on today's date iff that time is still ahead, and never later than now plus one day |
| Recurrence.EstimateDefinedIff | backend/utils/scheduler.py:231-250 | an estimate exists iff: there are two fields; the hour is not `*`; both fields parse; hour < 24 and minute < 60; and the day can be advanced if needed |
| Recurrence.ExampleBothFixed | backend/utils/scheduler.py:90-92 | `"0 2"` registers a daily job at `"2:0"` |
| Recurrence.ExampleMinuteWildcard | backend/utils/scheduler.py:84-86 | `"* 3"` takes the hourly branch with `":*"` |
| Recurrence.ExampleHourWildcard | backend/utils/scheduler.py:87-89 | `"15 *"` takes the daily branch with `"*:15"` |
| Recurrence.ExampleBothWildcards | backend/utils/scheduler.py:93-95 | `"* *"` is refused |
| Recurrence.ExampleEstimateSameDay | backend/utils/scheduler.py:237-245 | `"30 4"` at 04:00 estimates 04:30 the same day |
| Recurrence.ExampleEstimateNextDay | backend/utils/scheduler.py:242-243 | `"30 4"` at 04:31 estimates 04:30 the next day |
| Models.FindSetting | backend/models.py:145 | the index found holds the key and no earlier row does; none means no row does |
| Models.FindSettingIsFirst | backend/models.py:145 | a row holding the key with no earlier one is the row found |
| Models.GetSetting | backend/models.py:143-156 | a missing key yields the default; only an `int` row can raise |
| Models.DecodeByType | backend/models.py:149-156 | `bool` rows are true iff their lower-cased text is `true`, `1`, `yes` or `on`; `int` rows raise iff `int()` does; other non-`json` rows return their text |
| Models.UpsertSpec | backend/models.py:158-171 | after `set_setting` the key holds the new value and type and other keys read as before. The table grows only for a new key, and keys stay unique |
| Models.SetThenGetInt | backend/models.py:149-166 | storing an int as `int` and reading it back gives the same int |
| Models.SetThenGetBool | backend/models.py:151-166 | storing a bool as `bool` and reading it back gives the same truth value |
| Models.SeedKeepsExisting | backend/models.py:192-194 | seeding never changes a key already stored, and every default key ends up present |
| Models.SeedLeavesAbsent | backend/models.py:192-194 | seeding adds no key the defaults do not name |
| Models.SeedStoresDefault | backend/models.py:179-194 | a default whose key was absent is stored with its value and type |
| Models.SeedKeepsKeysUnique | backend/models.py:192-194 | seeding keeps keys unique |
| Models.SeedAllPresent | backend/models.py:192-194 | seeding a table that holds every default key changes nothing |
| Models.SeedIdempotent | backend/models.py:173-194 | running `init_database` twice equals running it once |
| Models.StatusPartition | backend/models.py:199-205 | every router is online, unknown, or counted as offline, exactly once |
| Models.SuccessBytes | backend/models.py:209-211 | the stored total counts only successful records with a positive size, and is never negative |
| Models.SuccessBytesAppend | backend/models.py:209-211 | a new record adds its size exactly when it is successful with a positive size |
| Models.BackupStats | backend/models.py:196-230 | on a database error all numbers are zero. Otherwise: the totals are the number of routers and records; the online count counts `online` routers; offline = total − online − unknown, counting the other statuses and never negative; the size is the successful bytes |
| Models.FindRouter | backend/utils/scheduler.py:108 | the row found has the id; none means no row has it |
| Models.Database.SetSetting | backend/models.py:158-171 | the settings table becomes the upsert of `str(value)` with the given type |
| Models.Database.InitDatabase | backend/models.py:173-194 | the settings table becomes the in-order seeding of the ten defaults |
| MikroTik.Session | backend/utils/mikrotik.py:56-74 | a failed login sends nothing more; otherwise the commands go between the login and one final close |
| MikroTik.InfoDefaultsToUnknown | backend/utils/mikrotik.py:97-106 | for any reply rows, each of the seven fields is the row's value when its key is present and `Unknown` when absent |
| MikroTik.FilterBackupsInOrder | backend/utils/mikrotik.py:237-250 | the listing exists iff no row raises, and then equals the front-to-back filter `KeptEntries`: each kept row once, in reply order |
| MikroTik.FilterBackupsSpec | backend/utils/mikrotik.py:237-246 | the listing keeps exactly the `file` rows whose name ends in `.backup`, in order, with size defaulting to 0 |
| MikroTik.KeptEntriesAppend | backend/utils/mikrotik.py:237-246 | reading one more row appends that row's entry, if any, at the end |
| MikroTik.DeviceFilesWithoutCreates | backend/utils/mikrotik.py:128-154 | calls without a save (line 128) or an export (line 154) add no file to the device; this supports the two Findings rows |
| MikroTik.FilterBackupsFailsOnBadRow | backend/utils/mikrotik.py:239-250 | a `file` row without a text name anywhere in the reply empties the whole listing |
| MikroTik.UnreadRemovalKeepsFile | backend/utils/mikrotik.py:275-294 | as written, the `.rsc` file is still on the device after a reported deletion; with the reply read, it is gone unless the device refuses |
| MikroTik.Connection.Connect | backend/utils/mikrotik.py:26-44 | the result is whether the router is reachable; the session is kept only on success |
| MikroTik.Connection.Disconnect | backend/utils/mikrotik.py:46-54 | a close is sent iff a session was ever opened |
| MikroTik.Connection.TestConnection | backend/utils/mikrotik.py:56-74 | true iff reachable and the identity reply has a row; a failed login issues no query and no close |
| MikroTik.Connection.GetSystemInfo | backend/utils/mikrotik.py:76-111 | the info exists iff all three replies have a row, built from their first rows; later queries stop at the first empty reply |
| MikroTik.Connection.CreateBackup | backend/utils/mikrotik.py:113-137 | the name used (the given one, or `auto_backup_` plus the stamp) is returned iff reachable and the save succeeds |
| MikroTik.Connection.CreateConfigBackup | backend/utils/mikrotik.py:139-163 | corrected: same for the export with `auto_config_`; the export is sent on the session |
| MikroTik.Connection.CreateConfigBackupAsWritten | backend/utils/mikrotik.py:139-163 | as written: whenever reachable the name is returned and no command is sent |
| MikroTik.Connection.DownloadBackup | backend/utils/mikrotik.py:165-193 | copies `/<name>.backup`; the size reported, or 0 when the copy raises |
| MikroTik.Connection.DownloadConfigBackup | backend/utils/mikrotik.py:195-223 | the same for `/<name>.rsc` |
| MikroTik.Connection.ListBackups | backend/utils/mikrotik.py:225-252 | the filtered listing, or `[]` when the login, the query or the loop fails |
| MikroTik.Connection.DeleteBackup | backend/utils/mikrotik.py:254-273 | `<name>.backup` removal is sent; true iff reachable and the removal succeeds |
| MikroTik.Connection.DeleteConfigBackup | backend/utils/mikrotik.py:275-294 | corrected: the same for `<name>.rsc` |
| MikroTik.Connection.DeleteConfigBackupAsWritten | backend/utils/mikrotik.py:275-294 | as written: true whenever reachable, and no removal is sent |
| Backups.Extension | backend/utils/mikrotik.py:327-332 | `.rsc` iff the kind is `config`, `.backup` otherwise |
| Backups.JoinPath | backend/utils/mikrotik.py:341-342 | the joined path ends in the file name |
| Backups.ConnectivityFirst | backend/utils/mikrotik.py:315-320 | for either handling, a failed test reports `Cannot connect to router` with no create and no copy |
| Backups.NoCopyWithoutArtifact | backend/utils/mikrotik.py:334-338 | a create that reports no name yields `Failed to create <kind> backup on router`, copies nothing and still ends with a close. In the model, where every login of one attempt has the same outcome, an as-written config export never takes this path |
| Backups.SuccessIff | backend/utils/mikrotik.py:315-367 | success iff the test passes, the create reports a name and the copy size is non-zero. In the model, where every login of one attempt has the same outcome, an as-written config backup succeeds iff the test passes and the copy size is non-zero |
| Backups.SuccessNaming | backend/utils/mikrotik.py:323-367 | success names the file after the router (spaces as `_`), the stamp and the extension. The remote artifact is that name minus the extension; the path is the join, and exactly that file was copied there |
| Backups.ClosedAfterTest | backend/utils/mikrotik.py:375-376 | once the test has passed, the last call of the attempt is a close |
| Backups.OrphanedArtifact | backend/utils/mikrotik.py:349-359 | an artifact reported created but not copied fails the attempt, and no removal is ever sent. The create command is in the trace unless it is an unread config export |
| Backups.HandlingOnlyMattersForConfig | backend/utils/mikrotik.py:327-332 | for every kind other than `config`, the outcome and the calls do not depend on the reply handling |
| Backups.UnreadExportNeverSent | backend/utils/mikrotik.py:327-345 | as written, a config backup sends no save or export, so the `.rsc` it copies was never created by this attempt |
| Backups.UnreadExportMasksFailure | backend/utils/mikrotik.py:334-353 | when the device refuses the export, the corrected code reports the create failure. As written, the attempt succeeds iff a file of that name is already there, and the two outcomes always differ |
| Backups.FilenamesDifferBySecond | backend/utils/mikrotik.py:324-325 | two backups of one router and kind share a file name only when stamped in the same second |
| Backups.ExampleCoreRouter | backend/utils/mikrotik.py:324-340 | router `Core Router` at 2024-03-01 04:30:00 gives `Core_Router_20240301_043000.backup` |
| Backups.SweepOnlyRemovesStale | backend/utils/mikrotik.py:383-390 | whatever fails, the sweep removes only listed `.backup`/`.rsc` files older than the cutoff and keeps the others' times |
| Backups.SweepStopsAtFault | backend/utils/mikrotik.py:380-393 | a file that cannot be read, or a stale one that cannot be removed, ends the sweep; nothing listed after it is touched |
| Backups.SweepListed | backend/utils/mikrotik.py:383-390 | a fault-free sweep over distinct listed entries removes exactly the stale recognized ones |
| Backups.SweepExact | backend/utils/mikrotik.py:378-390 | a fault-free sweep of the whole directory leaves exactly the unrecognized and the recent files |
| Backups.SweepTwiceIsOnce | backend/utils/mikrotik.py:378-390 | a second fault-free sweep with the same cutoff removes nothing |
| Backups.BackupManager.CreateRouterBackup | backend/utils/mikrotik.py:304-376 | the result and the device's call log are those of the attempt's specification, for the given reply handling |
| Backups.BackupManager.CreateAndCopy | backend/utils/mikrotik.py:322-367 | after a passed test: the create session (with no command for an unread export), then the copy when a name came back, with the matching result |
| Backups.BackupManager.CleanupOldBackups | backend/utils/mikrotik.py:378-393 | the directory becomes the sweep with cutoff now − days × 86400 |
| Backups.CheckRouterStatus | backend/utils/mikrotik.py:405-427 | status becomes `online` iff the test passes, `offline` otherwise |
| Scheduling.Activation | backend/utils/scheduler.py:77-102 | `None` iff fewer than two fields; `True` iff a branch is taken and the library accepts its argument |
| Scheduling.DoubleWildcardNeverActivates | backend/utils/scheduler.py:93-95 | `* *` is refused whatever the library would accept |
| Scheduling.RecordOf | backend/utils/scheduler.py:122-152 | the record is `success` iff the attempt succeeded. A success stores the result's file name, path and size with no error; a failure stores an empty name and path, size 0 and the error |
| Scheduling.Credited | backend/utils/scheduler.py:133-135 | only the attempted router changes, and its identity and status stay. On success `backup_count` grows by one and `last_backup` becomes the UTC time; on failure both stay |
| Scheduling.SuccessCountAppend | backend/utils/scheduler.py:137 | a new record adds one to its router's success count iff it is successful |
| Scheduling.RecordingKeepsCounts | backend/utils/scheduler.py:122-155 | each router's `backup_count` keeps equalling its number of successful records |
| Scheduling.RecordingAddsSize | backend/utils/scheduler.py:124-138 | the stored total grows by the copied size exactly on success |
| Scheduling.MissingSettingsSweepThirtyDays | backend/utils/scheduler.py:189-197 | with neither setting stored, the sweep runs with 30 days |
| Scheduling.SeededDefaultsSweepThirtyDays | backend/utils/scheduler.py:189-197 | after seeding the defaults, the sweep runs with 30 days |
| Scheduling.SeededPlan | backend/models.py:180-183 | seeding retention `30` (int) and auto-delete `true` (bool) makes the sweep run with 30 days |
| Scheduling.StoredRetentionIsUsed | backend/utils/scheduler.py:189-197 | a stored int retention is used while auto-delete reads true |
| Scheduling.DisabledAutoDeleteSkipsSweep | backend/utils/scheduler.py:190-197 | storing `False` for auto-delete turns the sweep off |
| Scheduling.UntypedRetentionIsThirty | backend/utils/scheduler.py:192-194 | a retention stored as text falls back to 30 days |
| Scheduling.NextRunsSound | backend/utils/scheduler.py:203-227 | each listed run belongs to an enabled schedule and carries its estimate at that schedule's own clock reading, which it lies after |
| Scheduling.NextRunsComplete | backend/utils/scheduler.py:210-222 | when all routers exist, every enabled schedule with an estimate at its reading is listed |
| Scheduling.EstimateDefinedAnyTime | backend/utils/scheduler.py:242-243 | away from 9999-12-31, whether an estimate exists does not depend on the clock |
| Scheduling.ActiveCountMatches | backend/utils/scheduler.py:299-305 | two calls of `get_next_runs`, each with its own per-schedule readings, list equally many runs when no reading is on 9999-12-31 |
| Scheduling.LoadedSpec | backend/utils/scheduler.py:164-182 | each loaded job comes from an enabled schedule registering that trigger; with all routers present, each such schedule yields its job |
| Scheduling.NewScheduleId | backend/utils/scheduler.py:272-281 | the new primary key exceeds every existing one |
| Scheduling.BackupScheduler.constructor | backend/utils/scheduler.py:17-20 | a new scheduler is stopped, threadless and has no jobs |
| Scheduling.BackupScheduler.Start | backend/utils/scheduler.py:22-31 | running afterwards; a thread is created only when it was not running |
| Scheduling.BackupScheduler.Stop | backend/utils/scheduler.py:33-42 | not running afterwards |
| Scheduling.BackupScheduler.ScheduleRecurringBackup | backend/utils/scheduler.py:68-102 | returns the activation result and registers one job exactly when it is `True` |
| Scheduling.BackupScheduler.ScheduleBackup | backend/utils/scheduler.py:57-66 | registers a daily job at `HH:MM`, or raises when the library refuses it |
| Scheduling.BackupScheduler.ExecuteBackup | backend/utils/scheduler.py:104-162 | a missing or disabled router changes nothing. Otherwise one record is added, the router is credited on success, and the result is the attempt's success, for the given reply handling |
| Scheduling.BackupScheduler.LoadSchedulesFromDb | backend/utils/scheduler.py:164-182 | the registry grows by the loaded jobs of the table |
| Scheduling.BackupScheduler.CleanupOldBackups | backend/utils/scheduler.py:184-201 | the sweep runs with the configured retention iff the settings allow it |
| Scheduling.BackupScheduler.GetNextRuns | backend/utils/scheduler.py:203-227 | the list of upcoming runs of the table, each schedule estimated at its own clock reading |
| Scheduling.GetSchedulerStatus | backend/utils/scheduler.py:299-305 | reports the flag and the runs of the first call. The active count is the second call's, and equals their number when no reading is on 9999-12-31 |
| Scheduling.StartScheduler | backend/utils/scheduler.py:255-258 | running, with a thread created only when it was not running, and the stored schedules' jobs are added on every call |
| Scheduling.StopScheduler | backend/utils/scheduler.py:260-262 | not running; jobs stay registered |
| Scheduling.ScheduleRouterBackup | backend/utils/scheduler.py:264-297 | true iff the router exists and activation returns `True`; the new row is kept only then, and the table is unchanged on every failure |

## Left out

- The scheduler thread and its loop (`_run_scheduler`, the one-minute sleep, `schedule.run_pending`): threads and time are not modelled. A registered job is a `Job` value, and running it is `ExecuteBackup`.
- The schedule library's check of an `at` argument is not modelled. It is a parameter (`accepts`); a refused argument raises, which the code turns into `False`.
- The RouterOS API and SSH/SFTP libraries are replaced by the device stub.
- MikroTik.Behaviour: every login in one backup attempt has the same outcome. `create_backup` and `create_config_backup` log in again (mikrotik.py:115-116, 141-142), so in the source that second login can fail after the test passed. That path is lost: `Failed to create <kind> backup on router` after a passed test, with the `finally` closing the test's session once more.
- MikroTik.Connection.GetSystemInfo: the `if identity_path else 'Unknown'` and `else {}` fallbacks (mikrotik.py:87, 91, 95) are not modelled. The object `self.api.path(...)` returns is taken to be always truthy, so they never fire; an empty reply then raises `IndexError` in `tuple(...)[0]`, and the result is `None`.
- The `if not self.api` guards after `connect()` are not modelled. A successful `connect()` has just assigned `self.api` a connection object, so they can never fire.
- Logging and the `created` field of `list_backups` (the time of the query) are left out.
- The ISO text of `next_run`, the MB rounding of `total_size_mb`, and the `created_at`/`updated_at` columns are left out.
- `json.loads` is not modelled: a `json` setting keeps its text.
- Database failures are not modelled, except the all-zero result of `get_backup_stats`. Schedule ids are taken to be the largest id plus one.
- Unicode case mapping and non-ASCII digits in `str.lower` and `int()` are not modelled; only ASCII is handled.
- `os.makedirs` in `BackupManager.__init__` is not modelled.
- `test_router_connection` and `get_router_system_info` (mikrotik.py:395-403) are not modelled separately: they are a fresh connection followed by `TestConnection` or `GetSystemInfo`.
- Scheduling.Truthy: a `json` value counts as false only for the literals `false`, `null`, `0`, `""`, `[]` and `{}`, because the decoded JSON value is not modelled.
- MikroTik.Connection.DownloadBackup: the SSH and SFTP sessions are one `Transfer` call, and an existing remote file of size 0 is not told apart from a failed copy.
- Backups.BackupManager.CreateRouterBackup: the copied file is not added to `files`, because the local file system is only modelled for the retention sweep. The generic `except` branch has no cause left in the model.
- Backups.CheckRouterStatus: the `except` branch has no cause left in the model, since the connection's methods trap every fault.
- Scheduling.BackupScheduler.ExecuteBackup: the outer `except` (a database or commit error) is not modelled.

## Findings

| source | as written | input that shows it | evidently intended | confidence | as-written member | corrected member |
|---|---|---|---|---|---|---|
| backend/utils/mikrotik.py:154 | `self.api('export', file=...)` is called and its reply never read, yet the name is returned | any reachable router with backup type `config`: no export reaches the device, so the copy of `/<name>.rsc` finds nothing, or a stale file, and a refused export goes unnoticed | read the reply, as line 128 does for `system/backup/save`, so that the export is sent | medium, not executed; it depends on the RouterOS client library sending a command only when its reply is read, and that library is not part of this model | MikroTik.Connection.CreateConfigBackupAsWritten, Backups.UnreadExportNeverSent, Backups.UnreadExportMasksFailure | MikroTik.Connection.CreateConfigBackup |
| backend/utils/mikrotik.py:285 | `self.api('file/remove', numbers=...)` is called and its reply never read, yet `True` is returned | any reachable router: `delete_config_backup('x')` returns `True` and `x.rsc` stays | read the reply, as line 264 does for `.backup` files | medium, not executed; it depends on the same library behaviour | MikroTik.Connection.DeleteConfigBackupAsWritten, MikroTik.UnreadRemovalKeepsFile | MikroTik.Connection.DeleteConfigBackup |
