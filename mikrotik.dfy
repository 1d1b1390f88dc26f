/** The device sessions of `backend/utils/mikrotik.py` (`MikroTikConnection`).
    The RouterOS API and SFTP libraries are replaced by a device stub whose
    answers are fixed up front and which records every call made on it, so
    each operation's contract can say which calls it makes in which order. */
module MikroTik {
  import opened Text
  import opened Clock

  /** A value in a RouterOS API reply row. */
  datatype Field = TextField(s: string) | NumField(n: int)

  /** One reply row of the RouterOS API. */
  type Record = map<string, Field>

  const Unknown := TextField("Unknown")

  /** The commands a session sends on the control channel. */
  datatype Command =
    | Query(path: string)          // iterating api.path('system', ...)
    | SaveBackup(name: string)     // 'system/backup/save' with name=...
    | ExportConfig(file: string)   // 'export' with file=...
    | ListFiles                    // 'file/print'
    | RemoveFile(numbers: string)  // 'file/remove' with numbers=...

  /** What the device sees: control-channel logins and logouts, commands, and
      file copies over the transfer channel. */
  datatype Call = ApiConnect | ApiClose | Run(cmd: Command) | Transfer(remotePath: string, localPath: string)

  /** How the stubbed device answers. An empty reply to a `system` query makes
      `tuple(...)[0]` raise; `files == None` makes `file/print` raise; a remote
      path missing from `transfers` makes the SFTP copy raise. */
  datatype Behaviour = Behaviour(
    reachable: bool,
    identity: seq<Record>,
    resource: seq<Record>,
    routerboard: seq<Record>,
    saveFails: bool,
    exportFails: bool,
    files: Option<seq<Record>>,
    removeFails: bool,
    transfers: map<string, nat>)

  /** The device a router's host resolves to, with the log of calls made on it. */
  class Device {
    const behaviour: Behaviour
    var calls: seq<Call>

    constructor (behaviour: Behaviour)
      ensures this.behaviour == behaviour && calls == []
    {
      this.behaviour := behaviour;
      calls := [];
    }
  }

  const IdentityPath := "system/identity"
  const ResourcePath := "system/resource"
  const RouterboardPath := "system/routerboard"

  /** The calls of one control-channel operation: a login, then (only when
      it succeeded) the commands issued and a logout from `finally`. */
  function Session(b: Behaviour, cmds: seq<Command>): (r: seq<Call>)
    ensures !b.reachable ==> r == [ApiConnect]
    ensures b.reachable ==> |r| == |cmds| + 2 && r[0] == ApiConnect && r[|r| - 1] == ApiClose
    ensures forall i :: 1 <= i < |r| - 1 ==> r[i] == Run(cmds[i - 1])
  {
    if b.reachable then [ApiConnect] + Runs(cmds) + [ApiClose] else [ApiConnect]
  }

  function Runs(cmds: seq<Command>): (r: seq<Call>)
    ensures |r| == |cmds| && forall i :: 0 <= i < |r| ==> r[i] == Run(cmds[i])
  {
    if cmds == [] then [] else [Run(cmds[0])] + Runs(cmds[1..])
  }

  /** `test_connection()` succeeds. */
  predicate TestPasses(b: Behaviour) {
    b.reachable && |b.identity| > 0
  }

  /** The queries `get_system_info` issues: each further one only when the previous reply was not empty. */
  function InfoQueries(b: Behaviour): seq<Command> {
    [Query(IdentityPath)]
      + (if |b.identity| == 0 then []
         else [Query(ResourcePath)] + (if |b.resource| == 0 then [] else [Query(RouterboardPath)]))
  }

  datatype SystemInfo = SystemInfo(identity: Record, version: Field, uptime: Field, cpuLoad: Field,
                                   freeMemory: Field, totalMemory: Field, model: Field, serialNumber: Field)

  /** `record.get(key, 'Unknown')` */
  function FieldOr(r: Record, key: string): Field {
    if key in r then r[key] else Unknown
  }

  /** The dictionary `get_system_info` builds from the first row of each reply. */
  function InfoFrom(identity: Record, resource: Record, routerboard: Record): SystemInfo {
    SystemInfo(identity,
               FieldOr(resource, "version"), FieldOr(resource, "uptime"), FieldOr(resource, "cpu-load"),
               FieldOr(resource, "free-memory"), FieldOr(resource, "total-memory"),
               FieldOr(routerboard, "model"), FieldOr(routerboard, "serial-number"))
  }

  /** Missing keys never make `get_system_info` fail: for any reply rows,
      each of the seven fields is the row's value for its key when the key
      is present and `Unknown` when it is absent. */
  lemma InfoDefaultsToUnknown(identity: Record, resource: Record, routerboard: Record)
    ensures var i := InfoFrom(identity, resource, routerboard);
      && i.identity == identity
      && ("version" in resource ==> i.version == resource["version"])
      && ("version" !in resource ==> i.version == Unknown)
      && ("uptime" in resource ==> i.uptime == resource["uptime"])
      && ("uptime" !in resource ==> i.uptime == Unknown)
      && ("cpu-load" in resource ==> i.cpuLoad == resource["cpu-load"])
      && ("cpu-load" !in resource ==> i.cpuLoad == Unknown)
      && ("free-memory" in resource ==> i.freeMemory == resource["free-memory"])
      && ("free-memory" !in resource ==> i.freeMemory == Unknown)
      && ("total-memory" in resource ==> i.totalMemory == resource["total-memory"])
      && ("total-memory" !in resource ==> i.totalMemory == Unknown)
      && ("model" in routerboard ==> i.model == routerboard["model"])
      && ("model" !in routerboard ==> i.model == Unknown)
      && ("serial-number" in routerboard ==> i.serialNumber == routerboard["serial-number"])
      && ("serial-number" !in routerboard ==> i.serialNumber == Unknown)
  {
  }

  /** One entry of `list_backups()`; the `created` field (the time of the
      query, not of the file) is not modelled. */
  datatype BackupEntry = BackupEntry(name: string, size: Field)

  /** What the loop of `list_backups` does with one reply row. */
  datatype RowOutcome = Skip | Keep(entry: BackupEntry) | Fail

  function ClassifyRow(r: Record): RowOutcome {
    if !("type" in r && r["type"] == TextField("file")) then Skip
    else if "name" !in r || !r["name"].TextField? then Fail    // KeyError / AttributeError
    else if !EndsWith(r["name"].s, ".backup") then Skip
    else Keep(BackupEntry(r["name"].s, if "size" in r then r["size"] else NumField(0)))
  }

  /** The list `list_backups` returns from the `file/print` rows, or `None`
      when the loop raises (and `[]` is returned instead). */
  function FilterBackups(rows: seq<Record>): Option<seq<BackupEntry>>
    decreases |rows|
  {
    if rows == [] then Some([])
    else match FilterBackups(rows[..|rows| - 1])
      case None => None
      case Some(acc) =>
        match ClassifyRow(rows[|rows| - 1])
        case Skip => Some(acc)
        case Fail => None
        case Keep(e) => Some(acc + [e])
  }

  /** The entry a row contributes to the listing, if any. */
  function Kept(r: Record): seq<BackupEntry> {
    if ClassifyRow(r).Keep? then [ClassifyRow(r).entry] else []
  }

  /** The kept entries read front to back, ignoring failures: each `file`
      row whose name ends in `.backup`, once, in reply order. */
  function KeptEntries(rows: seq<Record>): seq<BackupEntry> {
    if rows == [] then [] else Kept(rows[0]) + KeptEntries(rows[1..])
  }

  lemma {:induction false} KeptEntriesAppend(rows: seq<Record>, r: Record)
    ensures KeptEntries(rows + [r]) == KeptEntries(rows) + Kept(r)
  {
    if rows != [] {
      assert (rows + [r])[1..] == rows[1..] + [r];
      KeptEntriesAppend(rows[1..], r);
    }
  }

  /** The listing exists iff no row raises, and is then the kept entries in
      reply order, each `file` row whose name ends in `.backup` once. */
  lemma {:induction false} FilterBackupsInOrder(rows: seq<Record>)
    ensures FilterBackups(rows).Some? <==> forall k :: 0 <= k < |rows| ==> ClassifyRow(rows[k]) != Fail
    ensures FilterBackups(rows).Some? ==> FilterBackups(rows).value == KeptEntries(rows)
    decreases |rows|
  {
    if rows != [] {
      var prefix, last := rows[..|rows| - 1], rows[|rows| - 1];
      FilterBackupsInOrder(prefix);
      assert rows == prefix + [last];
      KeptEntriesAppend(prefix, last);
      assert forall k :: 0 <= k < |prefix| ==> prefix[k] == rows[k];
    }
  }

  /** The kept entries are exactly the rows of type `file` whose name ends in
      `.backup`, in reply order, each with its size or 0. */
  lemma {:induction false} FilterBackupsSpec(rows: seq<Record>)
    requires FilterBackups(rows).Some?
    ensures FilterBackups(rows).value == KeptEntries(rows)
    ensures var out := FilterBackups(rows).value;
      && |out| <= |rows|
      && (forall e :: e in out ==> EndsWith(e.name, ".backup"))
      && (forall e :: e in out ==> exists r :: r in rows && ClassifyRow(r) == Keep(e))
      && (forall r :: r in rows && ClassifyRow(r).Keep? ==> ClassifyRow(r).entry in out)
      && (forall r :: r in rows && ClassifyRow(r).Keep? && "size" !in r ==> ClassifyRow(r).entry.size == NumField(0))
    decreases |rows|
  {
    FilterBackupsInOrder(rows);
    if rows != [] {
      var prefix, last := rows[..|rows| - 1], rows[|rows| - 1];
      FilterBackupsSpec(prefix);
      assert rows == prefix + [last];
    }
  }

  /** A row that raises anywhere in the reply empties the whole listing. */
  lemma {:induction false} FilterBackupsFailsOnBadRow(rows: seq<Record>, k: nat)
    requires k < |rows| && ClassifyRow(rows[k]) == Fail
    ensures FilterBackups(rows) == None
    decreases |rows|
  {
    if k < |rows| - 1 {
      FilterBackupsFailsOnBadRow(rows[..|rows| - 1], k);
    }
  }

  /** Whether `create_config_backup` and `delete_config_backup` read the
      reply of the command they issue. The code as written does not
      (`Unread`), and the client library sends a command only once its reply
      is read, so such a command never reaches the device; `Read` is the
      corrected code, which reads the reply as the other operations do. */
  datatype ReplyHandling = Unread | Read

  /** The commands actually sent when `cmd` is issued with handling `h`. */
  function Sent(h: ReplyHandling, cmd: Command): seq<Command> {
    if h.Read? then [cmd] else []
  }

  /** The files on the device after `calls`, starting from `before`: a save
      or export the device does not refuse adds its file, and a removal it
      does not refuse deletes the named file. */
  function DeviceFiles(b: Behaviour, before: set<string>, calls: seq<Call>): set<string>
    decreases |calls|
  {
    if calls == [] then before
    else
      var files := DeviceFiles(b, before, calls[..|calls| - 1]);
      match calls[|calls| - 1]
      case Run(SaveBackup(name)) => if b.saveFails then files else files + {name + ".backup"}
      case Run(ExportConfig(name)) => if b.exportFails then files else files + {name + ".rsc"}
      case Run(RemoveFile(name)) => if b.removeFails then files else files - {name}
      case _ => files
  }

  /** A call that may put a file on the device. */
  predicate Creates(c: Call) {
    c.Run? && (c.cmd.SaveBackup? || c.cmd.ExportConfig?)
  }

  /** A session runs only the commands it was given, and every one of them. */
  lemma SessionRuns(b: Behaviour, cmds: seq<Command>)
    ensures forall c :: c in Session(b, cmds) && c.Run? ==> c.cmd in cmds
    ensures b.reachable ==> forall cmd :: cmd in cmds ==> Run(cmd) in Session(b, cmds)
  {
    var r := Session(b, cmds);
    forall c | c in r && c.Run?
      ensures c.cmd in cmds
    {
      var i :| 0 <= i < |r| && r[i] == c;
      assert cmds[i - 1] == c.cmd;
    }
    if b.reachable {
      forall cmd | cmd in cmds
        ensures Run(cmd) in r
      {
        var j :| 0 <= j < |cmds| && cmds[j] == cmd;
        assert r[j + 1] == Run(cmd);
      }
    }
  }

  /** Calls that create nothing add no file to the device. */
  lemma {:induction false} DeviceFilesWithoutCreates(b: Behaviour, before: set<string>, calls: seq<Call>)
    requires forall c :: c in calls ==> !Creates(c)
    ensures DeviceFiles(b, before, calls) <= before
    decreases |calls|
  {
    if calls != [] {
      var prefix := calls[..|calls| - 1];
      assert forall c :: c in prefix ==> c in calls;
      assert calls[|calls| - 1] in calls;
      DeviceFilesWithoutCreates(b, before, prefix);
    }
  }

  /** `delete_config_backup` as written reports `True` after a login, yet the
      file stays on the device; the corrected code removes it unless the
      device refuses. */
  lemma {:induction false} UnreadRemovalKeepsFile(b: Behaviour, before: set<string>, name: string)
    requires b.reachable && name + ".rsc" in before
    ensures name + ".rsc" in DeviceFiles(b, before, Session(b, Sent(Unread, RemoveFile(name + ".rsc"))))
    ensures !b.removeFails ==>
      name + ".rsc" !in DeviceFiles(b, before, Session(b, Sent(Read, RemoveFile(name + ".rsc"))))
  {
    var unread := Session(b, Sent(Unread, RemoveFile(name + ".rsc")));
    assert unread == [ApiConnect, ApiClose];
    assert [ApiConnect][..0] == [];
    assert DeviceFiles(b, before, [ApiConnect]) == before;
    assert unread[..1] == [ApiConnect];
    var read := Session(b, Sent(Read, RemoveFile(name + ".rsc")));
    assert read == [ApiConnect, Run(RemoveFile(name + ".rsc")), ApiClose];
    assert read[..2] == [ApiConnect, Run(RemoveFile(name + ".rsc"))];
    assert read[..2][..1] == [ApiConnect] && read[..2][..1][..0] == [];
  }

  /** `MikroTikConnection`: `api` tells whether `self.api` holds a session. */
  class Connection {
    const device: Device
    var api: bool

    constructor (device: Device)
      ensures this.device == device && !api
    {
      this.device := device;
      api := false;
    }

    /** `connect()`: `self.api` is only assigned when the login succeeds. */
    method Connect() returns (ok: bool)
      modifies this, device
      ensures ok == device.behaviour.reachable
      ensures api == (old(api) || ok)
      ensures device.calls == old(device.calls) + [ApiConnect]
    {
      device.calls := device.calls + [ApiConnect];
      ok := device.behaviour.reachable;
      if ok {
        api := true;
      }
    }

    /** `disconnect()`: closes the session when `self.api` is set; a failing
        close is swallowed. `self.api` is never reset, so a later call closes again. */
    method Disconnect()
      modifies device
      ensures device.calls == old(device.calls) + (if api then [ApiClose] else [])
    {
      if api {
        device.calls := device.calls + [ApiClose];
      }
    }

    method Issue(cmd: Command)
      modifies device
      ensures device.calls == old(device.calls) + [Run(cmd)]
    {
      device.calls := device.calls + [Run(cmd)];
    }

    /** `test_connection()` */
    method TestConnection() returns (ok: bool)
      modifies this, device
      ensures ok == TestPasses(device.behaviour)
      ensures api == (old(api) || device.behaviour.reachable)
      ensures device.calls == old(device.calls) + Session(device.behaviour, [Query(IdentityPath)])
    {
      ok := Connect();
      if !ok {
        return;
      }
      Issue(Query(IdentityPath));
      ok := |device.behaviour.identity| > 0;
      Disconnect();
    }

    /** `get_system_info()` */
    method GetSystemInfo() returns (info: Option<SystemInfo>)
      modifies this, device
      ensures api == (old(api) || device.behaviour.reachable)
      ensures var b := device.behaviour;
        info.Some? <==> b.reachable && |b.identity| > 0 && |b.resource| > 0 && |b.routerboard| > 0
      ensures var b := device.behaviour;
        info.Some? ==> info.value == InfoFrom(b.identity[0], b.resource[0], b.routerboard[0])
      ensures device.calls == old(device.calls) + Session(device.behaviour, InfoQueries(device.behaviour))
    {
      var b := device.behaviour;
      var ok := Connect();
      if !ok {
        return None;
      }
      info := None;
      Issue(Query(IdentityPath));
      if |b.identity| > 0 {
        Issue(Query(ResourcePath));
        if |b.resource| > 0 {
          Issue(Query(RouterboardPath));
          if |b.routerboard| > 0 {
            info := Some(InfoFrom(b.identity[0], b.resource[0], b.routerboard[0]));
          }
        }
      }
      Disconnect();
    }

    /** `create_backup(name)`: an absent or empty name becomes
        `'auto_backup_' + timestamp`; returns the name used, or `None`. */
    method CreateBackup(name: Option<string>, now: DateTime) returns (r: Option<string>)
      requires Valid(now)
      modifies this, device
      ensures api == (old(api) || device.behaviour.reachable)
      ensures var used := NameOr(name, "auto_backup_", now);
        && (r.Some? <==> device.behaviour.reachable && !device.behaviour.saveFails)
        && (r.Some? ==> r.value == used)
        && device.calls == old(device.calls) + Session(device.behaviour, [SaveBackup(used)])
    {
      var ok := Connect();
      if !ok {
        return None;
      }
      var used := NameOr(name, "auto_backup_", now);
      Issue(SaveBackup(used));
      r := if device.behaviour.saveFails then None else Some(used);
      Disconnect();
    }

    /** `create_config_backup(name)`: as `create_backup`, with an `export` and
        the default prefix `'auto_config_'`. */
    method CreateConfigBackup(name: Option<string>, now: DateTime) returns (r: Option<string>)
      requires Valid(now)
      modifies this, device
      ensures api == (old(api) || device.behaviour.reachable)
      ensures var used := NameOr(name, "auto_config_", now);
        && (r.Some? <==> device.behaviour.reachable && !device.behaviour.exportFails)
        && (r.Some? ==> r.value == used)
        && device.calls == old(device.calls) + Session(device.behaviour, Sent(Read, ExportConfig(used)))
    {
      var ok := Connect();
      if !ok {
        return None;
      }
      var used := NameOr(name, "auto_config_", now);
      Issue(ExportConfig(used));
      r := if device.behaviour.exportFails then None else Some(used);
      Disconnect();
    }

    /** `create_config_backup(name)` as written: the reply of the `export`
        call is never read, and the client library only sends a command
        once its reply is read, so nothing reaches the device while the name
        is still reported. */
    method CreateConfigBackupAsWritten(name: Option<string>, now: DateTime) returns (r: Option<string>)
      requires Valid(now)
      modifies this, device
      ensures api == (old(api) || device.behaviour.reachable)
      ensures r == (if device.behaviour.reachable then Some(NameOr(name, "auto_config_", now)) else None)
      ensures device.calls == old(device.calls) + Session(device.behaviour, Sent(Unread, ExportConfig(NameOr(name, "auto_config_", now))))
    {
      var ok := Connect();
      if !ok {
        return None;
      }
      r := Some(NameOr(name, "auto_config_", now));
      Disconnect();
    }

    /** `download_backup(name, local_path)`: copies `/<name>.backup` over the
        transfer channel; returns its size, or 0 when the copy raises. */
    method DownloadBackup(name: string, localPath: string) returns (size: nat)
      modifies device
      ensures size == TransferSize(device.behaviour, "/" + name + ".backup")
      ensures device.calls == old(device.calls) + [Transfer("/" + name + ".backup", localPath)]
    {
      var remote := "/" + name + ".backup";
      device.calls := device.calls + [Transfer(remote, localPath)];
      size := TransferSize(device.behaviour, remote);
    }

    /** `download_config_backup(name, local_path)`: as `download_backup` for `/<name>.rsc`. */
    method DownloadConfigBackup(name: string, localPath: string) returns (size: nat)
      modifies device
      ensures size == TransferSize(device.behaviour, "/" + name + ".rsc")
      ensures device.calls == old(device.calls) + [Transfer("/" + name + ".rsc", localPath)]
    {
      var remote := "/" + name + ".rsc";
      device.calls := device.calls + [Transfer(remote, localPath)];
      size := TransferSize(device.behaviour, remote);
    }

    /** `list_backups()` */
    method ListBackups() returns (entries: seq<BackupEntry>)
      modifies this, device
      ensures api == (old(api) || device.behaviour.reachable)
      ensures var b := device.behaviour;
        entries == (if b.reachable && b.files.Some? && FilterBackups(b.files.value).Some?
                    then FilterBackups(b.files.value).value else [])
      ensures device.calls == old(device.calls) + Session(device.behaviour, [ListFiles])
    {
      var ok := Connect();
      if !ok {
        return [];
      }
      Issue(ListFiles);
      entries := [];
      var reply := device.behaviour.files;
      if reply.Some? {
        var rows := reply.value;
        var i := 0;
        while i < |rows|
          invariant 0 <= i <= |rows|
          invariant FilterBackups(rows[..i]) == Some(entries)
        {
          assert rows[..i + 1][..i] == rows[..i];
          var outcome := ClassifyRow(rows[i]);
          if outcome.Fail? {
            entries := [];
            break;
          }
          if outcome.Keep? {
            entries := entries + [outcome.entry];
          }
          i := i + 1;
        }
        if i < |rows| {
          FilterBackupsFailsOnBadRow(rows, i);
        } else {
          assert rows[..i] == rows;
        }
      }
      Disconnect();
    }

    /** `delete_backup(name)`: removes `<name>.backup` on the device. */
    method DeleteBackup(name: string) returns (ok: bool)
      modifies this, device
      ensures api == (old(api) || device.behaviour.reachable)
      ensures ok <==> device.behaviour.reachable && !device.behaviour.removeFails
      ensures device.calls == old(device.calls) + Session(device.behaviour, [RemoveFile(name + ".backup")])
    {
      ok := Connect();
      if !ok {
        return;
      }
      Issue(RemoveFile(name + ".backup"));
      ok := !device.behaviour.removeFails;
      Disconnect();
    }

    /** `delete_config_backup(name)` as written: as with the export, the
        `file/remove` reply is never read, so no removal is sent and `True`
        is returned whenever the login succeeds. */
    method DeleteConfigBackupAsWritten(name: string) returns (ok: bool)
      modifies this, device
      ensures api == (old(api) || device.behaviour.reachable)
      ensures ok == device.behaviour.reachable
      ensures device.calls == old(device.calls) + Session(device.behaviour, Sent(Unread, RemoveFile(name + ".rsc")))
    {
      ok := Connect();
      if !ok {
        return;
      }
      Disconnect();
    }

    /** `delete_config_backup(name)`: removes `<name>.rsc` on the device. */
    method DeleteConfigBackup(name: string) returns (ok: bool)
      modifies this, device
      ensures api == (old(api) || device.behaviour.reachable)
      ensures ok <==> device.behaviour.reachable && !device.behaviour.removeFails
      ensures device.calls == old(device.calls) + Session(device.behaviour, Sent(Read, RemoveFile(name + ".rsc")))
    {
      ok := Connect();
      if !ok {
        return;
      }
      Issue(RemoveFile(name + ".rsc"));
      ok := !device.behaviour.removeFails;
      Disconnect();
    }
  }

  /** The name a create operation uses: the given one unless it is absent or
      empty, else the prefix followed by the `%Y%m%d_%H%M%S` stamp of `now`. */
  function NameOr(name: Option<string>, prefix: string, now: DateTime): string
    requires Valid(now)
  {
    if name.None? || name.value == "" then prefix + Stamp(now) else name.value
  }

  /** The size the SFTP `stat` reports for a remote path, or 0 when the copy raises. */
  function TransferSize(b: Behaviour, remotePath: string): nat {
    if remotePath in b.transfers then b.transfers[remotePath] else 0
  }
}
