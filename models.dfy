/** The tables of `backend/models.py` that the engine reads and writes, the
    typed settings store (`get_setting`, `set_setting`), the seeding of
    default settings in `init_database` and the dashboard counts of
    `get_backup_stats`. A table is a sequence of rows in storage order. */
module Models {
  import opened Text
  import opened Clock

  /** A `routers` row; connection fields (host, credentials, port, TLS flag)
      stand behind the device stub of module MikroTik. */
  datatype Router = Router(id: int, name: string, enabled: bool, status: string,
                           lastBackup: Option<DateTime>, backupCount: int)

  /** A `backups` row; `fileSize` is a nullable column. */
  datatype BackupRecord = BackupRecord(routerId: int, filename: string, filePath: string,
                                       fileSize: Option<int>, backupType: string,
                                       status: string, errorMessage: Option<string>)

  /** A `schedules` row. */
  datatype ScheduleRow = ScheduleRow(id: int, routerId: int, name: string,
                                     cronExpression: string, backupType: string, enabled: bool)

  /** A `system_settings` row: value text plus a type tag (`string`, `int`, `bool`, `json`). */
  datatype SettingRow = SettingRow(key: string, value: string, kind: string, description: Option<string>)

  /** The Python values a setting is written from and decoded to. A `json`
      setting is kept as its text: `json.loads` is not modelled. */
  datatype PyValue = PInt(i: int) | PBool(b: bool) | PStr(s: string) | PJson(text: string)

  /** A decoded setting, or the `ValueError` of `int()` on a malformed `int` setting. */
  datatype Fetch = Got(value: PyValue) | Raises

  // ---------------------------------------------------------------- lookups

  /** Index of the first row with `key` (what `filter_by(...).first()` returns). */
  function FindSetting(rows: seq<SettingRow>, key: string): (r: Option<nat>)
    ensures r.Some? ==> r.value < |rows| && rows[r.value].key == key
    ensures r.Some? ==> forall j :: 0 <= j < r.value ==> rows[j].key != key
    ensures r.None? ==> forall j :: 0 <= j < |rows| ==> rows[j].key != key
  {
    if rows == [] then None
    else if rows[0].key == key then Some(0)
    else match FindSetting(rows[1..], key)
      case None => None
      case Some(i) => Some(i + 1)
  }

  /** The first-match index is the only index satisfying FindSetting's contract. */
  lemma FindSettingIsFirst(rows: seq<SettingRow>, key: string, i: nat)
    requires i < |rows| && rows[i].key == key
    requires forall j :: 0 <= j < i ==> rows[j].key != key
    ensures FindSetting(rows, key) == Some(i)
  {
  }

  function Lookup(rows: seq<SettingRow>, key: string): Option<SettingRow> {
    match FindSetting(rows, key)
    case None => None
    case Some(i) => Some(rows[i])
  }

  /** `setting_key` is a unique column. */
  predicate UniqueKeys(rows: seq<SettingRow>) {
    forall i, j :: 0 <= i < j < |rows| ==> rows[i].key != rows[j].key
  }

  // ---------------------------------------------------------------- get_setting

  /** The lower-cased words a `bool` setting reads as true. */
  const TrueWords: seq<string> := ["true", "1", "yes", "on"]

  /** The typed value of a stored row. */
  function Decode(row: SettingRow): Fetch {
    if row.kind == "int" then
      match ParseInt(row.value)
      case None => Raises
      case Some(n) => Got(PInt(n))
    else if row.kind == "bool" then Got(PBool(Lower(row.value) in TrueWords))
    else if row.kind == "json" then Got(PJson(row.value))
    else Got(PStr(row.value))
  }

  /** `SystemSettings.get_setting(key, default)` */
  function GetSetting(rows: seq<SettingRow>, key: string, default: PyValue): (r: Fetch)
    ensures Lookup(rows, key).None? ==> r == Got(default)
    ensures r == Raises ==> Lookup(rows, key).Some? && Lookup(rows, key).value.kind == "int"
  {
    match Lookup(rows, key)
    case None => Got(default)
    case Some(row) => Decode(row)
  }

  /** A `bool` setting is true exactly when its lower-cased text is one of
      `true`, `1`, `yes`, `on`; an `int` setting is `int()` of its text and
      raises where that does; any other non-`json` type returns the text. */
  lemma DecodeByType(row: SettingRow)
    ensures row.kind == "bool" ==> (Decode(row) == Got(PBool(true)) <==> Lower(row.value) in TrueWords)
    ensures row.kind == "bool" ==> Decode(row).Got? && Decode(row).value.PBool?
    ensures row.kind == "int" ==> (Decode(row) == Raises <==> ParseInt(row.value).None?)
    ensures row.kind == "int" && ParseInt(row.value).Some? ==> Decode(row) == Got(PInt(ParseInt(row.value).value))
    ensures row.kind !in {"int", "bool", "json"} ==> Decode(row) == Got(PStr(row.value))
  {
  }

  /** `str(value)` */
  function Str(v: PyValue): string {
    match v
    case PInt(n) => IntToString(n)
    case PBool(b) => if b then "True" else "False"
    case PStr(s) => s
    case PJson(text) => text
  }

  // ---------------------------------------------------------------- set_setting

  /** The table after `set_setting(key, value, kind, description)` has stored
      `value` (already `str`-ed): a new row when `key` is absent, otherwise the
      existing row with its value and type replaced and its description kept. */
  function Upsert(rows: seq<SettingRow>, key: string, value: string, kind: string,
                  description: Option<string>): seq<SettingRow>
  {
    match FindSetting(rows, key)
    case Some(i) => rows[i := rows[i].(value := value, kind := kind)]
    case None => rows + [SettingRow(key, value, kind, description)]
  }

  /** After an upsert the key holds the new value and type, every other key
      reads as before, the table grows only when the key was absent, and
      keys stay unique. */
  lemma {:induction false} UpsertSpec(rows: seq<SettingRow>, key: string, value: string, kind: string,
                                      description: Option<string>, other: string)
    requires other != key
    ensures var r := Upsert(rows, key, value, kind, description);
      && Lookup(r, key).Some?
      && Lookup(r, key).value.value == value && Lookup(r, key).value.kind == kind
      && Lookup(r, other) == Lookup(rows, other)
      && |r| == (if Lookup(rows, key).Some? then |rows| else |rows| + 1)
      && (UniqueKeys(rows) ==> UniqueKeys(r))
  {
    var r := Upsert(rows, key, value, kind, description);
    var found := FindSetting(rows, key);
    if found.Some? {
      FindSettingIsFirst(r, key, found.value);
    } else {
      FindSettingIsFirst(r, key, |rows|);
    }
    var seen := FindSetting(rows, other);
    if seen.Some? {
      FindSettingIsFirst(r, other, seen.value);
    }
  }

  /** Writing an int and reading it back as `int` gives the same number. */
  lemma {:induction false} SetThenGetInt(rows: seq<SettingRow>, key: string, n: int,
                                         description: Option<string>, default: PyValue)
    ensures GetSetting(Upsert(rows, key, Str(PInt(n)), "int", description), key, default) == Got(PInt(n))
  {
    UpsertSpec(rows, key, Str(PInt(n)), "int", description, key + "'");
    ParseIntOfIntToString(n);
  }

  /** Writing a bool and reading it back as `bool` gives the same truth value. */
  lemma {:induction false} SetThenGetBool(rows: seq<SettingRow>, key: string, b: bool,
                                          description: Option<string>, default: PyValue)
    ensures GetSetting(Upsert(rows, key, Str(PBool(b)), "bool", description), key, default) == Got(PBool(b))
  {
    UpsertSpec(rows, key, Str(PBool(b)), "bool", description, key + "'");
    if b {
      assert Lower("True") == "true";
    } else {
      assert Lower("False") == "false";
      assert Lower("False") != "true";
    }
  }

  // ---------------------------------------------------------------- init_database

  datatype DefaultSetting = DefaultSetting(key: string, value: string, kind: string, description: string)

  /** The ten default settings `init_database` seeds, in order. */
  const Defaults: seq<DefaultSetting> := [
    DefaultSetting("backup_retention_days", "30", "int", "Number of days to keep backup files"),
    DefaultSetting("max_concurrent_backups", "3", "int", "Maximum number of concurrent backup operations"),
    DefaultSetting("backup_directory", "backups/", "string", "Directory to store backup files"),
    DefaultSetting("auto_delete_old_backups", "true", "bool", "Automatically delete old backups"),
    DefaultSetting("notification_email", "", "string", "Email address for backup notifications"),
    DefaultSetting("smtp_server", "", "string", "SMTP server for email notifications"),
    DefaultSetting("smtp_port", "587", "int", "SMTP server port"),
    DefaultSetting("smtp_username", "", "string", "SMTP authentication username"),
    DefaultSetting("smtp_password", "", "string", "SMTP authentication password"),
    DefaultSetting("smtp_use_tls", "true", "bool", "Use TLS for SMTP connections")
  ]

  /** One seeding step: insert the default only when its key is absent. */
  function SeedOne(rows: seq<SettingRow>, d: DefaultSetting): seq<SettingRow> {
    if Lookup(rows, d.key).Some? then rows
    else Upsert(rows, d.key, d.value, d.kind, Some(d.description))
  }

  /** Seeding `ds` in order. */
  function SeedAll(rows: seq<SettingRow>, ds: seq<DefaultSetting>): seq<SettingRow>
    decreases |ds|
  {
    if ds == [] then rows else SeedOne(SeedAll(rows, ds[..|ds| - 1]), ds[|ds| - 1])
  }

  /** Seeding never changes a key that was already stored, and leaves every
      seeded key present. */
  lemma {:induction false} SeedKeepsExisting(rows: seq<SettingRow>, ds: seq<DefaultSetting>, key: string)
    ensures Lookup(rows, key).Some? ==> Lookup(SeedAll(rows, ds), key) == Lookup(rows, key)
    ensures (exists d :: d in ds && d.key == key) ==> Lookup(SeedAll(rows, ds), key).Some?
    decreases |ds|
  {
    if ds != [] {
      var prefix := ds[..|ds| - 1];
      var d := ds[|ds| - 1];
      var mid := SeedAll(rows, prefix);
      SeedKeepsExisting(rows, prefix, key);
      if Lookup(mid, d.key).None? {
        if key == d.key {
          UpsertSpec(mid, d.key, d.value, d.kind, Some(d.description), d.key + "'");
        } else {
          UpsertSpec(mid, d.key, d.value, d.kind, Some(d.description), key);
        }
      }
      if exists e :: e in ds && e.key == key {
        var e :| e in ds && e.key == key;
        if e != d {
          assert e in prefix;
        }
      }
    }
  }

  /** Seeding leaves a key absent when neither the table nor the defaults hold it. */
  lemma {:induction false} SeedLeavesAbsent(rows: seq<SettingRow>, ds: seq<DefaultSetting>, key: string)
    requires Lookup(rows, key).None?
    requires forall j :: 0 <= j < |ds| ==> ds[j].key != key
    ensures Lookup(SeedAll(rows, ds), key).None?
    decreases |ds|
  {
    if ds != [] {
      var d := ds[|ds| - 1];
      var mid := SeedAll(rows, ds[..|ds| - 1]);
      SeedLeavesAbsent(rows, ds[..|ds| - 1], key);
      UpsertSpec(mid, d.key, d.value, d.kind, Some(d.description), key);
    }
  }

  /** A default whose key is absent from the table and from the defaults
      before it is stored with its value and type. */
  lemma {:induction false} SeedStoresDefault(rows: seq<SettingRow>, ds: seq<DefaultSetting>, k: nat)
    requires k < |ds| && Lookup(rows, ds[k].key).None?
    requires forall j :: 0 <= j < k ==> ds[j].key != ds[k].key
    ensures var r := Lookup(SeedAll(rows, ds), ds[k].key);
      r.Some? && r.value.value == ds[k].value && r.value.kind == ds[k].kind
    decreases |ds|
  {
    var prefix, d := ds[..|ds| - 1], ds[|ds| - 1];
    var mid := SeedAll(rows, prefix);
    var key := ds[k].key;
    if k == |ds| - 1 {
      SeedLeavesAbsent(rows, prefix, key);
      UpsertSpec(mid, d.key, d.value, d.kind, Some(d.description), key + "'");
    } else {
      SeedStoresDefault(rows, prefix, k);
      if d.key != key && Lookup(mid, d.key).None? {
        UpsertSpec(mid, d.key, d.value, d.kind, Some(d.description), key);
      }
    }
  }

  /** Seeding keeps keys unique. */
  lemma {:induction false} SeedKeepsKeysUnique(rows: seq<SettingRow>, ds: seq<DefaultSetting>)
    requires UniqueKeys(rows)
    ensures UniqueKeys(SeedAll(rows, ds))
    decreases |ds|
  {
    if ds != [] {
      var d := ds[|ds| - 1];
      var mid := SeedAll(rows, ds[..|ds| - 1]);
      SeedKeepsKeysUnique(rows, ds[..|ds| - 1]);
      UpsertSpec(mid, d.key, d.value, d.kind, Some(d.description), d.key + "'");
    }
  }

  /** Seeding a table that already holds every key changes nothing. */
  lemma {:induction false} SeedAllPresent(rows: seq<SettingRow>, ds: seq<DefaultSetting>)
    requires forall d :: d in ds ==> Lookup(rows, d.key).Some?
    ensures SeedAll(rows, ds) == rows
    decreases |ds|
  {
    if ds != [] {
      SeedAllPresent(rows, ds[..|ds| - 1]);
      assert ds[|ds| - 1] in ds;
    }
  }

  /** Running the seeding twice equals running it once. */
  lemma {:induction false} SeedIdempotent(rows: seq<SettingRow>, ds: seq<DefaultSetting>)
    ensures SeedAll(SeedAll(rows, ds), ds) == SeedAll(rows, ds)
  {
    forall d | d in ds ensures Lookup(SeedAll(rows, ds), d.key).Some? {
      SeedKeepsExisting(rows, ds, d.key);
    }
    SeedAllPresent(SeedAll(rows, ds), ds);
  }

  // ---------------------------------------------------------------- get_backup_stats

  /** The dashboard numbers; `totalSize` is in bytes (the MB rounding is not modelled). */
  datatype Stats = Stats(totalRouters: int, onlineRouters: int, offlineRouters: int,
                         totalBackups: int, totalSize: int)

  function CountStatus(routers: seq<Router>, status: string): (n: nat)
    ensures n <= |routers|
  {
    if routers == [] then 0
    else (if routers[0].status == status then 1 else 0) + CountStatus(routers[1..], status)
  }

  /** Routers whose status is neither `online` nor `unknown`. */
  function CountOther(routers: seq<Router>): nat {
    if routers == [] then 0
    else (if routers[0].status !in {"online", "unknown"} then 1 else 0) + CountOther(routers[1..])
  }

  lemma {:induction false} StatusPartition(routers: seq<Router>)
    ensures |routers| == CountStatus(routers, "online") + CountStatus(routers, "unknown") + CountOther(routers)
  {
    if routers != [] {
      StatusPartition(routers[1..]);
    }
  }

  /** Bytes of the successful records whose size is set and positive. */
  function SuccessBytes(backups: seq<BackupRecord>): (n: int)
    ensures n >= 0
  {
    if backups == [] then 0
    else
      var b := backups[0];
      (if b.status == "success" && b.fileSize.Some? && b.fileSize.value > 0 then b.fileSize.value else 0)
        + SuccessBytes(backups[1..])
  }

  /** Appending a record adds its size when it is a successful one with a
      positive size, and nothing otherwise. */
  lemma {:induction false} SuccessBytesAppend(backups: seq<BackupRecord>, b: BackupRecord)
    ensures SuccessBytes(backups + [b]) ==
      SuccessBytes(backups) + (if b.status == "success" && b.fileSize.Some? && b.fileSize.value > 0 then b.fileSize.value else 0)
  {
    if backups != [] {
      assert (backups + [b])[1..] == backups[1..] + [b];
      SuccessBytesAppend(backups[1..], b);
    }
  }

  /** `get_backup_stats()`; `queryFails` stands for a database error, which
      yields all-zero numbers. */
  function BackupStats(routers: seq<Router>, backups: seq<BackupRecord>, queryFails: bool): (s: Stats)
    ensures queryFails ==> s == Stats(0, 0, 0, 0, 0)
    ensures !queryFails ==> s.totalRouters == |routers| && s.onlineRouters == CountStatus(routers, "online")
    ensures !queryFails ==> s.totalBackups == |backups| && s.totalSize == SuccessBytes(backups)
    ensures !queryFails ==> s.offlineRouters == CountOther(routers)
    ensures !queryFails ==> s.totalRouters == s.onlineRouters + CountStatus(routers, "unknown") + s.offlineRouters
    ensures s.totalSize >= 0
  {
    if queryFails then Stats(0, 0, 0, 0, 0)
    else
      var total := |routers|;
      var online := CountStatus(routers, "online");
      var unknown := CountStatus(routers, "unknown");
      StatusPartition(routers);
      var offline := total - online - unknown;
      Stats(total, online, if offline > 0 then offline else 0, |backups|, SuccessBytes(backups))
  }

  // ---------------------------------------------------------------- router lookup

  /** `Router.query.get(id)`: the row with that primary key. */
  function FindRouter(routers: seq<Router>, id: int): (r: Option<nat>)
    ensures r.Some? ==> r.value < |routers| && routers[r.value].id == id
    ensures r.None? ==> forall j :: 0 <= j < |routers| ==> routers[j].id != id
  {
    if routers == [] then None
    else if routers[0].id == id then Some(0)
    else match FindRouter(routers[1..], id)
      case None => None
      case Some(i) => Some(i + 1)
  }

  /** The database session: the four tables the engine touches. */
  class Database {
    var routers: seq<Router>
    var backups: seq<BackupRecord>
    var schedules: seq<ScheduleRow>
    var settings: seq<SettingRow>

    constructor (routers: seq<Router>, backups: seq<BackupRecord>,
                 schedules: seq<ScheduleRow>, settings: seq<SettingRow>)
      ensures this.routers == routers && this.backups == backups
      ensures this.schedules == schedules && this.settings == settings
    {
      this.routers := routers;
      this.backups := backups;
      this.schedules := schedules;
      this.settings := settings;
    }

    /** `SystemSettings.set_setting(key, value, setting_type, description)` */
    method SetSetting(key: string, value: PyValue, kind: string, description: Option<string>)
      modifies this`settings
      ensures settings == Upsert(old(settings), key, Str(value), kind, description)
    {
      var found := FindSetting(settings, key);
      var i: nat;
      if found.None? {
        settings := settings + [SettingRow(key, "", "string", description)];
        i := |settings| - 1;
      } else {
        i := found.value;
      }
      settings := settings[i := settings[i].(value := Str(value), kind := kind)];
    }

    /** The default-seeding loop of `init_database` (table creation is not modelled). */
    method InitDatabase()
      modifies this`settings
      ensures settings == SeedAll(old(settings), Defaults)
    {
      for k := 0 to |Defaults|
        invariant settings == SeedAll(old(settings), Defaults[..k])
      {
        var d := Defaults[k];
        assert Defaults[..k + 1][..k] == Defaults[..k];
        if FindSetting(settings, d.key).None? {
          SetSetting(d.key, PStr(d.value), d.kind, Some(d.description));
        }
      }
      assert Defaults[..|Defaults|] == Defaults;
    }
  }
}
