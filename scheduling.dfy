/** `backend/utils/scheduler.py`: the `BackupScheduler` that registers
    backup jobs with the schedule library, runs one backup for a router and
    records its outcome, loads the stored schedules, applies the retention
    settings and lists upcoming runs; plus the module-level helpers that
    drive the global scheduler. */
module Scheduling {
  import opened Text
  import opened Clock
  import opened Recurrence
  import opened Models
  import opened MikroTik
  import opened Backups

  /** A job registered with the schedule library: it runs `_execute_backup`
      for `routerId` with backup type `kind` at the times `trigger` names. */
  datatype Job = Job(routerId: int, kind: string, trigger: Trigger)

  /** What `schedule_recurring_backup` returns, where `accepts` is the
      library's check of the `at` argument (a refused one raises, and the
      method returns `False`): `None` for fewer than two fields, `False` for a
      double wildcard or a refused argument, `True` once the job is registered. */
  function Activation(cron: string, accepts: Trigger -> bool): (r: Option<bool>)
    ensures r.None? <==> |Split(cron)| < 2
    ensures r == Some(true) <==> PlanFor(cron).Register? && accepts(PlanFor(cron).trigger)
  {
    match PlanFor(cron)
    case TooFewFields => None
    case Unsupported => Some(false)
    case Register(t) => Some(accepts(t))
  }

  /** A double wildcard is refused whatever the library would accept. */
  lemma DoubleWildcardNeverActivates(cron: string, accepts: Trigger -> bool)
    requires |Split(cron)| >= 2 && Split(cron)[0] == Wildcard && Split(cron)[1] == Wildcard
    ensures Activation(cron, accepts) == Some(false)
  {
  }

  // ---------------------------------------------------------------- recording

  /** The `backups` row `_execute_backup` adds for an attempt's outcome. */
  function RecordOf(routerId: int, kind: string, result: BackupResult): (b: BackupRecord)
    ensures b.routerId == routerId && b.backupType == kind
    ensures b.status == "success" <==> result.Success?
    ensures result.Success? ==> b.filename == result.filename && b.filePath == result.filePath
                                && b.fileSize == Some(result.fileSize) && b.errorMessage == None
    ensures result.Failure? ==> b.status == "failed" && b.errorMessage == Some(result.error)
                                && b.filename == "" && b.filePath == "" && b.fileSize == Some(0)
  {
    match result
    case Success(filename, filePath, size, _) => BackupRecord(routerId, filename, filePath, Some(size), kind, "success", None)
    case Failure(error) => BackupRecord(routerId, "", "", Some(0), kind, "failed", Some(error))
  }

  /** The routers after the attempt on `routers[i]`: a success stamps
      `last_backup` with the UTC time and counts one more backup. */
  function Credited(routers: seq<Router>, i: nat, result: BackupResult, nowUtc: DateTime): (r: seq<Router>)
    requires i < |routers|
    ensures |r| == |routers| && forall j :: 0 <= j < |r| && j != i ==> r[j] == routers[j]
    ensures r[i].id == routers[i].id && r[i].name == routers[i].name && r[i].enabled == routers[i].enabled
    ensures r[i].status == routers[i].status
    ensures r[i].backupCount == routers[i].backupCount + (if result.Success? then 1 else 0)
    ensures r[i].lastBackup == (if result.Success? then Some(nowUtc) else routers[i].lastBackup)
  {
    if result.Success? then routers[i := routers[i].(lastBackup := Some(nowUtc), backupCount := routers[i].backupCount + 1)]
    else routers
  }

  /** Successful records of one router. */
  function SuccessCount(backups: seq<BackupRecord>, routerId: int): nat {
    if backups == [] then 0
    else (if backups[0].routerId == routerId && backups[0].status == "success" then 1 else 0)
         + SuccessCount(backups[1..], routerId)
  }

  lemma {:induction false} SuccessCountAppend(backups: seq<BackupRecord>, b: BackupRecord, routerId: int)
    ensures SuccessCount(backups + [b], routerId)
            == SuccessCount(backups, routerId) + (if b.routerId == routerId && b.status == "success" then 1 else 0)
  {
    if backups != [] {
      assert (backups + [b])[1..] == backups[1..] + [b];
      SuccessCountAppend(backups[1..], b, routerId);
    }
  }

  predicate UniqueIds(routers: seq<Router>) {
    forall i, j :: 0 <= i < j < |routers| ==> routers[i].id != routers[j].id
  }

  /** Every router's `backup_count` is the number of its successful records. */
  predicate CountsAgree(routers: seq<Router>, backups: seq<BackupRecord>) {
    forall i :: 0 <= i < |routers| ==> routers[i].backupCount == SuccessCount(backups, routers[i].id)
  }

  /** Recording an attempt keeps every router's `backup_count` equal to the
      number of its successful records. */
  lemma {:induction false} RecordingKeepsCounts(routers: seq<Router>, backups: seq<BackupRecord>, i: nat,
                                                kind: string, result: BackupResult, nowUtc: DateTime)
    requires i < |routers| && UniqueIds(routers) && CountsAgree(routers, backups)
    ensures CountsAgree(Credited(routers, i, result, nowUtc), backups + [RecordOf(routers[i].id, kind, result)])
  {
    var b := RecordOf(routers[i].id, kind, result);
    var r := Credited(routers, i, result, nowUtc);
    forall j | 0 <= j < |r|
      ensures r[j].backupCount == SuccessCount(backups + [b], r[j].id)
    {
      SuccessCountAppend(backups, b, routers[j].id);
    }
  }

  /** Recording an attempt adds the copied size to the stored total exactly
      when it succeeded. */
  lemma {:induction false} RecordingAddsSize(backups: seq<BackupRecord>, routerId: int, kind: string, result: BackupResult)
    ensures SuccessBytes(backups + [RecordOf(routerId, kind, result)])
            == SuccessBytes(backups) + (if result.Success? then result.fileSize else 0)
  {
    SuccessBytesAppend(backups, RecordOf(routerId, kind, result));
  }

  // ---------------------------------------------------------------- retention settings

  const RetentionKey := "backup_retention_days"
  const AutoDeleteKey := "auto_delete_old_backups"

  /** `retention_days` after the `isinstance(..., int)` check: a bool passes
      the check and counts as 1 or 0, anything else becomes 30. */
  function RetentionDays(v: PyValue): int {
    match v
    case PInt(n) => n
    case PBool(b) => if b then 1 else 0
    case _ => 30
  }

  /** Python truth value; a `json` value is kept as its text and counts as
      false only for the literals `false`, `null`, `0`, `""`, `[]` and `{}`. */
  predicate Truthy(v: PyValue) {
    match v
    case PInt(n) => n != 0
    case PBool(b) => b
    case PStr(s) => s != ""
    case PJson(text) => Strip(text) !in ["false", "null", "0", "\"\"", "[]", "{}"]
  }

  /** The retention in days the sweep runs with, or `None` when the settings
      skip it: either read raising, or a false `auto_delete_old_backups`. */
  function SweepPlan(settings: seq<SettingRow>): Option<int> {
    match GetSetting(settings, RetentionKey, PInt(30))
    case Raises => None
    case Got(days) =>
      match GetSetting(settings, AutoDeleteKey, PBool(true))
      case Raises => None
      case Got(auto) => if Truthy(auto) then Some(RetentionDays(days)) else None
  }

  /** With neither key stored, the sweep runs with 30 days. */
  lemma MissingSettingsSweepThirtyDays(settings: seq<SettingRow>)
    requires Lookup(settings, RetentionKey).None? && Lookup(settings, AutoDeleteKey).None?
    ensures SweepPlan(settings) == Some(30)
  {
  }

  /** After `init_database` seeds a table holding neither key, the sweep
      runs with the default 30 days. */
  lemma {:induction false} SeededDefaultsSweepThirtyDays(rows: seq<SettingRow>)
    requires Lookup(rows, RetentionKey).None? && Lookup(rows, AutoDeleteKey).None?
    ensures SweepPlan(SeedAll(rows, Defaults)) == Some(30)
  {
    SeededPlan(rows, Defaults);
  }

  lemma {:induction false} SeededPlan(rows: seq<SettingRow>, ds: seq<DefaultSetting>)
    requires Lookup(rows, RetentionKey).None? && Lookup(rows, AutoDeleteKey).None?
    requires |ds| > 3
    requires ds[0].key == RetentionKey && ds[0].value == "30" && ds[0].kind == "int"
    requires ds[3].key == AutoDeleteKey && ds[3].value == "true" && ds[3].kind == "bool"
    requires ds[1].key != AutoDeleteKey && ds[2].key != AutoDeleteKey
    ensures SweepPlan(SeedAll(rows, ds)) == Some(30)
  {
    var seeded := SeedAll(rows, ds);
    SeedStoresDefault(rows, ds, 0);
    SeedStoresDefault(rows, ds, 3);
    DecodeThirty(Lookup(seeded, RetentionKey).value);
    DecodeTrue(Lookup(seeded, AutoDeleteKey).value);
  }

  lemma DecodeThirty(row: SettingRow)
    requires row.value == "30" && row.kind == "int"
    ensures Decode(row) == Got(PInt(30))
  {
    ParseHourAndMinute();
  }

  lemma DecodeTrue(row: SettingRow)
    requires row.value == "true" && row.kind == "bool"
    ensures Decode(row) == Got(PBool(true))
  {
    assert Lower(row.value) == "true";
  }

  /** Storing an int retention makes the sweep use it, as long as automatic
      deletion reads as true. */
  lemma {:induction false} StoredRetentionIsUsed(rows: seq<SettingRow>, n: int, description: Option<string>)
    requires GetSetting(rows, AutoDeleteKey, PBool(true)) == Got(PBool(true))
    ensures SweepPlan(Upsert(rows, RetentionKey, Str(PInt(n)), "int", description)) == Some(n)
  {
    var r := Upsert(rows, RetentionKey, Str(PInt(n)), "int", description);
    SetThenGetInt(rows, RetentionKey, n, description, PInt(30));
    UpsertSpec(rows, RetentionKey, Str(PInt(n)), "int", description, AutoDeleteKey);
    assert GetSetting(r, AutoDeleteKey, PBool(true)) == GetSetting(rows, AutoDeleteKey, PBool(true));
  }

  /** Storing `False` for automatic deletion turns the sweep off. */
  lemma {:induction false} DisabledAutoDeleteSkipsSweep(rows: seq<SettingRow>, description: Option<string>)
    ensures SweepPlan(Upsert(rows, AutoDeleteKey, Str(PBool(false)), "bool", description)) == None
  {
    SetThenGetBool(rows, AutoDeleteKey, false, description, PBool(true));
  }

  /** A retention stored with a type other than `int` or `bool` falls back to 30 days. */
  lemma {:induction false} UntypedRetentionIsThirty(rows: seq<SettingRow>, text: string, description: Option<string>)
    requires GetSetting(rows, AutoDeleteKey, PBool(true)) == Got(PBool(true))
    ensures SweepPlan(Upsert(rows, RetentionKey, text, "string", description)) == Some(30)
  {
    var r := Upsert(rows, RetentionKey, text, "string", description);
    UpsertSpec(rows, RetentionKey, text, "string", description, AutoDeleteKey);
    assert GetSetting(r, RetentionKey, PInt(30)) == Got(PStr(text));
  }

  // ---------------------------------------------------------------- upcoming runs

  /** One entry of `get_next_runs()`; `next_run` is kept as a datetime
      rather than its ISO text. */
  datatype NextRun = NextRun(scheduleId: int, scheduleName: string, routerName: string,
                             nextRun: DateTime, cronExpression: string)

  /** One clock reading per schedule row: `_estimate_next_run` reads
      `datetime.now()` afresh for every schedule it estimates. */
  predicate Readings(clock: seq<DateTime>, n: nat) {
    |clock| == n && forall k :: 0 <= k < n ==> Valid(clock[k])
  }

  lemma ReadingsTail(clock: seq<DateTime>, n: nat)
    requires n > 0 && Readings(clock, n)
    ensures Readings(clock[1..], n - 1)
  {
    forall k | 0 <= k < n - 1
      ensures Valid(clock[1..][k])
    {
      assert clock[1..][k] == clock[k + 1];
    }
  }

  /** The list `get_next_runs` returns, schedule `k` being estimated at
      `clock[k]`: enabled schedules with an estimate, in table order. A
      schedule whose router is gone raises while its entry is built, and the
      entries gathered so far are returned. */
  function NextRuns(schedules: seq<ScheduleRow>, routers: seq<Router>, clock: seq<DateTime>): seq<NextRun>
    requires Readings(clock, |schedules|)
    decreases |schedules|
  {
    if schedules == [] then []
    else
      var s, rest := schedules[0], schedules[1..];
      ReadingsTail(clock, |schedules|);
      if !s.enabled then NextRuns(rest, routers, clock[1..])
      else match EstimateNextRun(s.cronExpression, clock[0])
        case None => NextRuns(rest, routers, clock[1..])
        case Some(t) =>
          match FindRouter(routers, s.routerId)
          case None => []
          case Some(i) => [NextRun(s.id, s.name, routers[i].name, t, s.cronExpression)] + NextRuns(rest, routers, clock[1..])
  }

  /** Every listed run belongs to an enabled schedule of the table, carries
      that schedule's estimate and lies after the reading it was taken at. */
  lemma {:induction false} NextRunsSound(schedules: seq<ScheduleRow>, routers: seq<Router>, clock: seq<DateTime>)
    requires Readings(clock, |schedules|)
    ensures |NextRuns(schedules, routers, clock)| <= |schedules|
    ensures forall r :: r in NextRuns(schedules, routers, clock) ==>
      exists k :: 0 <= k < |schedules| && schedules[k].enabled
                  && schedules[k].id == r.scheduleId && schedules[k].name == r.scheduleName
                  && EstimateNextRun(schedules[k].cronExpression, clock[k]) == Some(r.nextRun)
                  && Before(clock[k], r.nextRun)
    decreases |schedules|
  {
    if schedules != [] {
      var rest := schedules[1..];
      ReadingsTail(clock, |schedules|);
      NextRunsSound(rest, routers, clock[1..]);
      forall r | r in NextRuns(schedules, routers, clock)
        ensures exists k :: 0 <= k < |schedules| && schedules[k].enabled
                  && schedules[k].id == r.scheduleId && schedules[k].name == r.scheduleName
                  && EstimateNextRun(schedules[k].cronExpression, clock[k]) == Some(r.nextRun)
                  && Before(clock[k], r.nextRun)
      {
        if r in NextRuns(rest, routers, clock[1..]) {
          var k :| 0 <= k < |rest| && rest[k].enabled
                   && rest[k].id == r.scheduleId && rest[k].name == r.scheduleName
                   && EstimateNextRun(rest[k].cronExpression, clock[1..][k]) == Some(r.nextRun)
                   && Before(clock[1..][k], r.nextRun);
          assert rest[k] == schedules[k + 1] && clock[1..][k] == clock[k + 1];
        } else {
          assert EstimateNextRun(schedules[0].cronExpression, clock[0]) == Some(r.nextRun);
        }
      }
    }
  }

  /** When every enabled schedule's router exists, every enabled schedule
      with an estimate at its reading is listed with it. */
  lemma {:induction false} NextRunsComplete(schedules: seq<ScheduleRow>, routers: seq<Router>, clock: seq<DateTime>)
    requires Readings(clock, |schedules|)
    requires forall s :: s in schedules && s.enabled ==> FindRouter(routers, s.routerId).Some?
    ensures forall k :: 0 <= k < |schedules| && schedules[k].enabled
                        && EstimateNextRun(schedules[k].cronExpression, clock[k]).Some? ==>
      exists r :: r in NextRuns(schedules, routers, clock)
                  && r.scheduleId == schedules[k].id
                  && r.nextRun == EstimateNextRun(schedules[k].cronExpression, clock[k]).value
    decreases |schedules|
  {
    if schedules != [] {
      var rest := schedules[1..];
      ReadingsTail(clock, |schedules|);
      assert forall s :: s in rest ==> s in schedules;
      NextRunsComplete(rest, routers, clock[1..]);
      assert schedules[0] in schedules;
      forall k | 0 <= k < |schedules| && schedules[k].enabled
                 && EstimateNextRun(schedules[k].cronExpression, clock[k]).Some?
        ensures exists r :: r in NextRuns(schedules, routers, clock)
                  && r.scheduleId == schedules[k].id
                  && r.nextRun == EstimateNextRun(schedules[k].cronExpression, clock[k]).value
      {
        var s := schedules[k];
        var i := FindRouter(routers, schedules[0].routerId);
        if k > 0 {
          assert rest[k - 1] == s && clock[1..][k - 1] == clock[k];
          var r :| r in NextRuns(rest, routers, clock[1..])
                   && r.scheduleId == s.id && r.nextRun == EstimateNextRun(s.cronExpression, clock[k]).value;
          assert r in NextRuns(schedules, routers, clock);
        } else {
          var r := NextRun(s.id, s.name, routers[i.value].name, EstimateNextRun(s.cronExpression, clock[0]).value, s.cronExpression);
          assert NextRuns(schedules, routers, clock) == [r] + NextRuns(rest, routers, clock[1..]);
        }
      }
    }
  }

  /** Away from the last representable day, whether an estimate exists does
      not depend on the time it is taken. */
  lemma {:induction false} EstimateDefinedAnyTime(cron: string, a: DateTime, b: DateTime)
    requires Valid(a) && Valid(b) && AddOneDay(a).Some? && AddOneDay(b).Some?
    ensures EstimateNextRun(cron, a).Some? == EstimateNextRun(cron, b).Some?
  {
    EstimateDefinedIff(cron, a);
    EstimateDefinedIff(cron, b);
  }

  /** `get_scheduler_status` calls `get_next_runs` twice, each reading the
      clock once per schedule; when no reading falls on the last
      representable day both calls list as many runs, so `active_schedules`
      is the length of `next_runs`. */
  lemma {:induction false} ActiveCountMatches(schedules: seq<ScheduleRow>, routers: seq<Router>,
                                              first: seq<DateTime>, second: seq<DateTime>)
    requires Readings(first, |schedules|) && Readings(second, |schedules|)
    requires forall k :: 0 <= k < |schedules| ==> AddOneDay(first[k]).Some? && AddOneDay(second[k]).Some?
    ensures |NextRuns(schedules, routers, first)| == |NextRuns(schedules, routers, second)|
    decreases |schedules|
  {
    if schedules != [] {
      ReadingsTail(first, |schedules|);
      ReadingsTail(second, |schedules|);
      EstimateDefinedAnyTime(schedules[0].cronExpression, first[0], second[0]);
      forall k | 0 <= k < |schedules| - 1
        ensures AddOneDay(first[1..][k]).Some? && AddOneDay(second[1..][k]).Some?
      {
        assert first[1..][k] == first[k + 1] && second[1..][k] == second[k + 1];
      }
      ActiveCountMatches(schedules[1..], routers, first[1..], second[1..]);
    }
  }

  // ---------------------------------------------------------------- loading

  /** The jobs `load_schedules_from_db` registers: one per enabled schedule
      whose activation returns `True`, in table order. A registered schedule
      whose router is gone raises while it is logged, ending the load. */
  function Loaded(schedules: seq<ScheduleRow>, routers: seq<Router>, accepts: Trigger -> bool): seq<Job>
    decreases |schedules|
  {
    if schedules == [] then []
    else
      var s, rest := schedules[0], schedules[1..];
      if s.enabled && Activation(s.cronExpression, accepts) == Some(true) then
        [Job(s.routerId, s.backupType, PlanFor(s.cronExpression).trigger)]
          + (if FindRouter(routers, s.routerId).Some? then Loaded(rest, routers, accepts) else [])
      else Loaded(rest, routers, accepts)
  }

  /** Every loaded job comes from an enabled schedule whose expression
      registers that trigger; when all routers exist, every such schedule
      yields its job. */
  lemma {:induction false} LoadedSpec(schedules: seq<ScheduleRow>, routers: seq<Router>, accepts: Trigger -> bool)
    ensures |Loaded(schedules, routers, accepts)| <= |schedules|
    ensures forall j :: j in Loaded(schedules, routers, accepts) ==>
      exists s :: s in schedules && s.enabled && s.routerId == j.routerId && s.backupType == j.kind
                  && PlanFor(s.cronExpression) == Register(j.trigger) && accepts(j.trigger)
    ensures (forall s :: s in schedules && s.enabled ==> FindRouter(routers, s.routerId).Some?) ==>
      forall s :: s in schedules && s.enabled && Activation(s.cronExpression, accepts) == Some(true) ==>
        Job(s.routerId, s.backupType, PlanFor(s.cronExpression).trigger) in Loaded(schedules, routers, accepts)
    decreases |schedules|
  {
    if schedules != [] {
      var rest := schedules[1..];
      LoadedSpec(rest, routers, accepts);
      forall j | j in Loaded(rest, routers, accepts)
        ensures exists s :: s in schedules && s.enabled && s.routerId == j.routerId && s.backupType == j.kind
                            && PlanFor(s.cronExpression) == Register(j.trigger) && accepts(j.trigger)
      {
        var s :| s in rest && s.enabled && s.routerId == j.routerId && s.backupType == j.kind
                 && PlanFor(s.cronExpression) == Register(j.trigger) && accepts(j.trigger);
        assert s in schedules;
      }
      if forall s :: s in schedules && s.enabled ==> FindRouter(routers, s.routerId).Some? {
        forall s | s in schedules && s.enabled && Activation(s.cronExpression, accepts) == Some(true)
          ensures Job(s.routerId, s.backupType, PlanFor(s.cronExpression).trigger) in Loaded(schedules, routers, accepts)
        {
          if s != schedules[0] {
            assert s in rest;
          }
        }
      }
    }
  }

  // ---------------------------------------------------------------- the scheduler

  datatype SchedulerStatus = SchedulerStatus(running: bool, nextRuns: seq<NextRun>, activeSchedules: nat)

  /** `BackupScheduler`. `jobs` is the schedule library's registry, which
      this scheduler is the only one to fill; `hasThread` tells whether
      `scheduler_thread` has been set. */
  class BackupScheduler {
    var running: bool
    var hasThread: bool
    var jobs: seq<Job>
    const manager: BackupManager
    /** The schedule library's check of an `at` argument. */
    const accepts: Trigger -> bool

    constructor (manager: BackupManager, accepts: Trigger -> bool)
      ensures !running && !hasThread && jobs == []
      ensures this.manager == manager && this.accepts == accepts
    {
      running := false;
      hasThread := false;
      jobs := [];
      this.manager := manager;
      this.accepts := accepts;
    }

    /** `start()`: a second start changes nothing. */
    method Start()
      modifies this`running, this`hasThread
      ensures running
      ensures hasThread == (old(hasThread) || !old(running))
    {
      if running {
        return;
      }
      running := true;
      hasThread := true;
    }

    /** `stop()`: clears the flag; the thread reference is kept. */
    method Stop()
      modifies this`running
      ensures !running
    {
      if !running {
        return;
      }
      running := false;
    }

    /** `schedule_recurring_backup(router_id, cron_expression, backup_type)` */
    method ScheduleRecurringBackup(routerId: int, cron: string, kind: string) returns (r: Option<bool>)
      modifies this`jobs
      ensures r == Activation(cron, accepts)
      ensures jobs == old(jobs) + (if r == Some(true) then [Job(routerId, kind, PlanFor(cron).trigger)] else [])
    {
      match PlanFor(cron)
      case TooFewFields =>
        r := None;
      case Unsupported =>
        r := Some(false);
      case Register(t) =>
        if accepts(t) {
          jobs := jobs + [Job(routerId, kind, t)];
          r := Some(true);
        } else {
          r := Some(false);
        }
    }

    /** `schedule_backup(router_id, schedule_time, backup_type)`: despite its
        name it registers a daily job at the `%H:%M` of `at`; a refused
        argument raises to the caller, reported as `raised`. */
    method ScheduleBackup(routerId: int, at: DateTime, kind: string) returns (raised: bool)
      requires ValidTime(at)
      modifies this`jobs
      ensures var t := DailyAt(Pad2(at.hour) + ":" + Pad2(at.minute));
        && raised == !accepts(t)
        && jobs == old(jobs) + (if raised then [] else [Job(routerId, kind, t)])
    {
      var t := DailyAt(Pad2(at.hour) + ":" + Pad2(at.minute));
      raised := !accepts(t);
      if !raised {
        jobs := jobs + [Job(routerId, kind, t)];
      }
    }

    /** `_execute_backup(router_id, backup_type)`: `device` is the router's
        device, `nowLocal` the clock the file name is stamped with, `nowUtc`
        the one stored as `last_backup`, and `h` how the config export is
        handled (`Unread` as written). */
    method ExecuteBackup(db: Database, routerId: int, kind: string, device: Device,
                         nowUtc: DateTime, nowLocal: DateTime, h: ReplyHandling) returns (ok: bool)
      requires Valid(nowLocal)
      modifies db`routers, db`backups, device
      ensures var found := FindRouter(old(db.routers), routerId);
        (found.None? || !old(db.routers)[found.value].enabled) ==>
          && !ok && db.routers == old(db.routers) && db.backups == old(db.backups)
          && device.calls == old(device.calls)
      ensures var found := FindRouter(old(db.routers), routerId);
        found.Some? && old(db.routers)[found.value].enabled ==>
          var result := BackupOutcome(device.behaviour, manager.backupDir, old(db.routers)[found.value].name, kind, nowLocal, h);
          && ok == result.Success?
          && db.backups == old(db.backups) + [RecordOf(routerId, kind, result)]
          && db.routers == Credited(old(db.routers), found.value, result, nowUtc)
          && device.calls == old(device.calls) + BackupTrace(device.behaviour, manager.backupDir,
                                                             old(db.routers)[found.value].name, kind, nowLocal, h)
    {
      var found := FindRouter(db.routers, routerId);
      if found.None? {
        return false;
      }
      var i := found.value;
      var router := db.routers[i];
      if !router.enabled {
        return false;
      }
      var result := manager.CreateRouterBackup(router, kind, device, nowLocal, h);
      db.backups := db.backups + [RecordOf(router.id, kind, result)];
      db.routers := Credited(db.routers, i, result, nowUtc);
      ok := result.Success?;
    }

    /** `load_schedules_from_db()` */
    method LoadSchedulesFromDb(db: Database)
      modifies this`jobs
      ensures jobs == old(jobs) + Loaded(db.schedules, db.routers, accepts)
    {
      var schedules := db.schedules;
      var i := 0;
      while i < |schedules|
        invariant 0 <= i <= |schedules|
        invariant jobs + Loaded(schedules[i..], db.routers, accepts) == old(jobs) + Loaded(schedules, db.routers, accepts)
      {
        var s := schedules[i];
        assert schedules[i..][0] == s && schedules[i..][1..] == schedules[i + 1..];
        if s.enabled {
          ghost var before := jobs;
          var success := ScheduleRecurringBackup(s.routerId, s.cronExpression, s.backupType);
          if success == Some(true) {
            assert jobs + Loaded(schedules[i + 1..], db.routers, accepts) ==
                   before + ([Job(s.routerId, s.backupType, PlanFor(s.cronExpression).trigger)]
                             + Loaded(schedules[i + 1..], db.routers, accepts));
            if FindRouter(db.routers, s.routerId).None? {
              assert jobs == before + Loaded(schedules[i..], db.routers, accepts);
              return;
            }
          }
        }
        i := i + 1;
      }
      assert schedules[i..] == [];
    }

    /** `cleanup_old_backups()` at epoch time `now`, with the directory
        walked in the order `listing` gives. */
    method CleanupOldBackups(db: Database, now: real, listing: seq<string>, faults: Faults)
      modifies manager`files
      ensures manager.files == match SweepPlan(db.settings)
        case None => old(manager.files)
        case Some(days) => Sweep(old(manager.files), listing, Cutoff(now, days), faults)
    {
      var plan := SweepPlan(db.settings);
      if plan.Some? {
        manager.CleanupOldBackups(plan.value, now, listing, faults);
      }
    }

    /** `get_next_runs()`, schedule `k` being estimated at `clock[k]`. */
    method GetNextRuns(db: Database, clock: seq<DateTime>) returns (runs: seq<NextRun>)
      requires Readings(clock, |db.schedules|)
      ensures runs == NextRuns(db.schedules, db.routers, clock)
    {
      var schedules := db.schedules;
      runs := [];
      var i := 0;
      while i < |schedules|
        invariant 0 <= i <= |schedules|
        invariant Readings(clock[i..], |schedules[i..]|)
        invariant runs + NextRuns(schedules[i..], db.routers, clock[i..]) == NextRuns(schedules, db.routers, clock)
      {
        var s := schedules[i];
        assert schedules[i..][0] == s && schedules[i..][1..] == schedules[i + 1..];
        assert clock[i..][0] == clock[i] && clock[i..][1..] == clock[i + 1..];
        ReadingsTail(clock[i..], |schedules[i..]|);
        if s.enabled {
          var next := EstimateNextRun(s.cronExpression, clock[i]);
          if next.Some? {
            var found := FindRouter(db.routers, s.routerId);
            if found.None? {
              assert runs + [] == runs;
              return;
            }
            var entry := NextRun(s.id, s.name, db.routers[found.value].name, next.value, s.cronExpression);
            assert runs + ([entry] + NextRuns(schedules[i + 1..], db.routers, clock[i + 1..]))
                   == (runs + [entry]) + NextRuns(schedules[i + 1..], db.routers, clock[i + 1..]);
            runs := runs + [entry];
          }
        }
        i := i + 1;
      }
      assert schedules[i..] == [];
      assert runs + [] == runs;
    }
  }

  /** `get_scheduler_status()`: `get_next_runs` is called twice, the first
      call reading the clock as `first` gives and the second as `second`. */
  method GetSchedulerStatus(s: BackupScheduler, db: Database, first: seq<DateTime>, second: seq<DateTime>)
    returns (status: SchedulerStatus)
    requires Readings(first, |db.schedules|) && Readings(second, |db.schedules|)
    ensures status.running == s.running
    ensures status.nextRuns == NextRuns(db.schedules, db.routers, first)
    ensures status.activeSchedules == |NextRuns(db.schedules, db.routers, second)|
    ensures (forall k :: 0 <= k < |db.schedules| ==> AddOneDay(first[k]).Some? && AddOneDay(second[k]).Some?)
            ==> status.activeSchedules == |status.nextRuns|
  {
    var runs := s.GetNextRuns(db, first);
    var again := s.GetNextRuns(db, second);
    if forall k :: 0 <= k < |db.schedules| ==> AddOneDay(first[k]).Some? && AddOneDay(second[k]).Some? {
      ActiveCountMatches(db.schedules, db.routers, first, second);
    }
    status := SchedulerStatus(s.running, runs, |again|);
  }

  /** `start_scheduler()`: the stored schedules are loaded on every call,
      even when the scheduler was already running. */
  method StartScheduler(s: BackupScheduler, db: Database)
    modifies s`running, s`hasThread, s`jobs
    ensures s.running
    ensures s.hasThread == (old(s.hasThread) || !old(s.running))
    ensures s.jobs == old(s.jobs) + Loaded(db.schedules, db.routers, s.accepts)
  {
    s.Start();
    s.LoadSchedulesFromDb(db);
  }

  /** `stop_scheduler()`: registered jobs stay registered. */
  method StopScheduler(s: BackupScheduler)
    modifies s`running
    ensures !s.running
  {
    s.Stop();
  }

  /** `schedule_name or f"Auto-backup {router.name}"` */
  function ScheduleName(name: Option<string>, routerName: string): string {
    if name.Some? && name.value != "" then name.value else "Auto-backup " + routerName
  }

  /** The primary key the next inserted schedule gets: one more than the largest. */
  function NewScheduleId(rows: seq<ScheduleRow>): (id: int)
    ensures forall i :: 0 <= i < |rows| ==> rows[i].id < id
  {
    if rows == [] then 1
    else var rest := NewScheduleId(rows[1..]);
      if rows[0].id + 1 > rest then rows[0].id + 1 else rest
  }

  /** `schedule_router_backup(router_id, cron_expression, backup_type,
      schedule_name)`: the schedule row is committed first and deleted again
      when the activation does not return `True`, so the table is left as it
      was on every failure. */
  method ScheduleRouterBackup(s: BackupScheduler, db: Database, routerId: int, cron: string,
                              kind: string, name: Option<string>) returns (ok: bool)
    modifies db`schedules, s`jobs
    ensures var found := FindRouter(db.routers, routerId);
      && (ok <==> found.Some? && Activation(cron, s.accepts) == Some(true))
      && (ok ==> (db.schedules == old(db.schedules) +
                    [ScheduleRow(NewScheduleId(old(db.schedules)), routerId,
                                 ScheduleName(name, db.routers[found.value].name), cron, kind, true)]))
      && (!ok ==> db.schedules == old(db.schedules))
      && s.jobs == old(s.jobs) + (if ok then [Job(routerId, kind, PlanFor(cron).trigger)] else [])
  {
    var found := FindRouter(db.routers, routerId);
    if found.None? {
      return false;
    }
    var router := db.routers[found.value];
    var stored := db.schedules;
    var row := ScheduleRow(NewScheduleId(stored), routerId, ScheduleName(name, router.name), cron, kind, true);
    db.schedules := stored + [row];
    var success := s.ScheduleRecurringBackup(routerId, cron, kind);
    if success == Some(true) {
      return true;
    }
    db.schedules := db.schedules[..|stored|];
    assert db.schedules == stored;
    ok := false;
  }
}
