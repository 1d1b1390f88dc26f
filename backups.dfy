/** `BackupManager` and `check_router_status` of `backend/utils/mikrotik.py`:
    one backup attempt against a router (connectivity test, artifact
    creation on the device, copy to the local store) and the retention sweep
    of the local backup directory. */
module Backups {
  import opened Text
  import opened Clock
  import opened Models
  import opened MikroTik

  /** The dictionary `create_router_backup` returns. */
  datatype BackupResult =
    | Success(filename: string, filePath: string, fileSize: nat, backupName: string)
    | Failure(error: string)

  const ConfigKind := "config"

  /** `.rsc` for a configuration export, `.backup` for every other kind. */
  function Extension(kind: string): (e: string)
    ensures e == ".rsc" <==> kind == ConfigKind
    ensures e == ".backup" <==> kind != ConfigKind
  {
    if kind == ConfigKind then ".rsc" else ".backup"
  }

  /** `f"{router.name.replace(' ', '_')}_{timestamp}"` */
  function BaseName(routerName: string, now: DateTime): (b: string)
    requires Valid(now)
    ensures b != []
  {
    ReplaceSpaces(routerName) + "_" + Stamp(now)
  }

  /** `os.path.join(dir, name)` for POSIX paths. */
  function JoinPath(dir: string, name: string): (p: string)
    ensures EndsWith(p, name)
  {
    if name != [] && name[0] == '/' then name
    else if dir == [] || EndsWith(dir, "/") then dir + name
    else dir + "/" + name
  }

  /** The path the artifact is copied from: `'/' + name + extension`. */
  function RemotePath(kind: string, name: string): string {
    "/" + name + Extension(kind)
  }

  /** The command that creates the artifact on the device. */
  function CreateCommand(kind: string, name: string): Command {
    if kind == ConfigKind then ExportConfig(name) else SaveBackup(name)
  }

  /** The commands the create step sends: for a config export, none when its
      reply is left unread. */
  function CreateCommands(kind: string, name: string, h: ReplyHandling): seq<Command> {
    if kind == ConfigKind then Sent(h, ExportConfig(name)) else [SaveBackup(name)]
  }

  /** The create operation of this kind reports a name. An unread export
      reports one after any successful login. */
  predicate Created(b: Behaviour, kind: string, h: ReplyHandling) {
    b.reachable && (if kind == ConfigKind then h.Read? ==> !b.exportFails else !b.saveFails)
  }

  /** The outcome `create_router_backup` reports for a router named
      `routerName` at local time `now`; `h` says how the config export is
      handled, `Unread` being the code as written. */
  function BackupOutcome(b: Behaviour, dir: string, routerName: string, kind: string, now: DateTime,
                         h: ReplyHandling): BackupResult
    requires Valid(now)
  {
    var base := BaseName(routerName, now);
    var filename := base + Extension(kind);
    if !TestPasses(b) then Failure("Cannot connect to router")
    else if !Created(b, kind, h) then Failure("Failed to create " + kind + " backup on router")
    else
      var size := TransferSize(b, RemotePath(kind, base));
      if size == 0 then Failure("Failed to download backup file")
      else Success(filename, JoinPath(dir, filename), size, base)
  }

  /** The calls `create_router_backup` makes on the device: the test session;
      then, once the test passed, the create session, the copy when a name
      came back, and the close of the final `disconnect()`. */
  function BackupTrace(b: Behaviour, dir: string, routerName: string, kind: string, now: DateTime,
                       h: ReplyHandling): seq<Call>
    requires Valid(now)
  {
    var base := BaseName(routerName, now);
    var filename := base + Extension(kind);
    var copy := if Created(b, kind, h) then [Transfer(RemotePath(kind, base), JoinPath(dir, filename))] else [];
    var rest := if TestPasses(b) then Session(b, CreateCommands(kind, base, h)) + copy + [ApiClose] else [];
    Session(b, [Query(IdentityPath)]) + rest
  }

  /** The trace of an attempt, step by step: the test session, then, once
      the test passed, the create session, the copy and the close. */
  lemma TraceSteps(b: Behaviour, dir: string, routerName: string, kind: string, now: DateTime, h: ReplyHandling)
    requires Valid(now)
    ensures !TestPasses(b) ==> BackupTrace(b, dir, routerName, kind, now, h) == Session(b, [Query(IdentityPath)])
    ensures !TestPasses(b) ==> BackupOutcome(b, dir, routerName, kind, now, h) == Failure("Cannot connect to router")
    ensures var base := BaseName(routerName, now);
      TestPasses(b) ==> (BackupTrace(b, dir, routerName, kind, now, h)
        == Session(b, [Query(IdentityPath)])
           + (Session(b, CreateCommands(kind, base, h))
              + (if Created(b, kind, h) then [Transfer(RemotePath(kind, base), JoinPath(dir, base + Extension(kind)))] else [])
              + [ApiClose]))
  {
  }

  lemma Regroup(before: seq<Call>, test: seq<Call>, create: seq<Call>)
    ensures before + test + create + [ApiClose] == before + (test + (create + [ApiClose]))
  {
  }

  /** Connectivity is checked before anything else: a failed test reports
      `Cannot connect to router` and neither creates nor copies anything. */
  lemma ConnectivityFirst(b: Behaviour, dir: string, routerName: string, kind: string, now: DateTime, h: ReplyHandling)
    requires Valid(now) && !TestPasses(b)
    ensures BackupOutcome(b, dir, routerName, kind, now, h) == Failure("Cannot connect to router")
    ensures forall c :: c in BackupTrace(b, dir, routerName, kind, now, h) ==> !Creates(c) && !c.Transfer?
  {
  }

  /** A create that reports no name names the kind in its error and is never
      followed by a copy; the session is still closed at the end. As
      written, a config export never takes this path. */
  lemma NoCopyWithoutArtifact(b: Behaviour, dir: string, routerName: string, kind: string, now: DateTime, h: ReplyHandling)
    requires Valid(now) && TestPasses(b) && !Created(b, kind, h)
    ensures kind == ConfigKind ==> h.Read?
    ensures BackupOutcome(b, dir, routerName, kind, now, h) == Failure("Failed to create " + kind + " backup on router")
    ensures var t := BackupTrace(b, dir, routerName, kind, now, h);
      (forall c :: c in t ==> !c.Transfer?) && t[|t| - 1] == ApiClose
  {
  }

  /** A backup succeeds exactly when the test passes, the artifact is
      reported created and the copy reports a non-zero size; as written, a
      config backup's success depends on the login and the copy alone. */
  lemma SuccessIff(b: Behaviour, dir: string, routerName: string, kind: string, now: DateTime, h: ReplyHandling)
    requires Valid(now)
    ensures BackupOutcome(b, dir, routerName, kind, now, h).Success? <==>
      TestPasses(b) && Created(b, kind, h)
      && TransferSize(b, RemotePath(kind, BaseName(routerName, now))) > 0
    ensures kind == ConfigKind && h.Unread? ==>
      (BackupOutcome(b, dir, routerName, kind, now, h).Success? <==>
        TestPasses(b) && TransferSize(b, RemotePath(kind, BaseName(routerName, now))) > 0)
  {
  }

  /** A successful backup is named after the router (spaces as underscores)
      and the stamp, with the extension of its kind; the device artifact
      carries the same name without the extension; the local path ends in
      the file name; and exactly that file was copied to that path. */
  lemma SuccessNaming(b: Behaviour, dir: string, routerName: string, kind: string, now: DateTime, h: ReplyHandling)
    requires Valid(now)
    requires BackupOutcome(b, dir, routerName, kind, now, h).Success?
    ensures var r := BackupOutcome(b, dir, routerName, kind, now, h);
      && r.filename == ReplaceSpaces(routerName) + "_" + Stamp(now) + Extension(kind)
      && r.backupName + Extension(kind) == r.filename
      && r.filePath == JoinPath(dir, r.filename) && EndsWith(r.filePath, r.filename)
      && r.fileSize > 0
      && Transfer(RemotePath(kind, r.backupName), r.filePath) in BackupTrace(b, dir, routerName, kind, now, h)
  {
    var base := BaseName(routerName, now);
    var filename := base + Extension(kind);
    assert TestPasses(b) && Created(b, kind, h);
    assert BackupOutcome(b, dir, routerName, kind, now, h)
      == Success(filename, JoinPath(dir, filename), TransferSize(b, RemotePath(kind, base)), base);
    TraceSteps(b, dir, routerName, kind, now, h);
  }

  /** Once the test has passed, the last call is always a close. */
  lemma ClosedAfterTest(b: Behaviour, dir: string, routerName: string, kind: string, now: DateTime, h: ReplyHandling)
    requires Valid(now) && TestPasses(b)
    ensures var t := BackupTrace(b, dir, routerName, kind, now, h);
      |t| > 0 && t[|t| - 1] == ApiClose
  {
  }

  /** An artifact that is reported created but not copied fails the attempt,
      and no removal is ever sent; the create command is in the trace unless
      it is a config export whose reply is left unread. */
  lemma OrphanedArtifact(b: Behaviour, dir: string, routerName: string, kind: string, now: DateTime, h: ReplyHandling)
    requires Valid(now) && TestPasses(b) && Created(b, kind, h)
    requires TransferSize(b, RemotePath(kind, BaseName(routerName, now))) == 0
    ensures BackupOutcome(b, dir, routerName, kind, now, h) == Failure("Failed to download backup file")
    ensures var t := BackupTrace(b, dir, routerName, kind, now, h);
      && (kind != ConfigKind || h.Read? ==> Run(CreateCommand(kind, BaseName(routerName, now))) in t)
      && forall c :: c in t ==> !(c.Run? && c.cmd.RemoveFile?)
  {
    var base := BaseName(routerName, now);
    SessionRuns(b, [Query(IdentityPath)]);
    SessionRuns(b, CreateCommands(kind, base, h));
    if kind != ConfigKind || h.Read? {
      assert CreateCommand(kind, base) in CreateCommands(kind, base, h);
    }
  }

  /** The reply handling only matters for a config backup. */
  lemma HandlingOnlyMattersForConfig(b: Behaviour, dir: string, routerName: string, kind: string, now: DateTime)
    requires Valid(now) && kind != ConfigKind
    ensures BackupOutcome(b, dir, routerName, kind, now, Unread) == BackupOutcome(b, dir, routerName, kind, now, Read)
    ensures BackupTrace(b, dir, routerName, kind, now, Unread) == BackupTrace(b, dir, routerName, kind, now, Read)
  {
  }

  /** As written, a config backup never sends its export, so it never
      creates the `.rsc` file it then copies: the file is on the device
      afterwards only if it was there before. */
  lemma UnreadExportNeverSent(b: Behaviour, dir: string, routerName: string, now: DateTime, before: set<string>)
    requires Valid(now)
    ensures var t := BackupTrace(b, dir, routerName, ConfigKind, now, Unread);
      && (forall c :: c in t ==> !Creates(c))
      && DeviceFiles(b, before, t) <= before
  {
    var base := BaseName(routerName, now);
    var t := BackupTrace(b, dir, routerName, ConfigKind, now, Unread);
    assert CreateCommands(ConfigKind, base, Unread) == [];
    SessionRuns(b, [Query(IdentityPath)]);
    SessionRuns(b, []);
    DeviceFilesWithoutCreates(b, before, t);
  }

  /** As written, a refused export is not noticed: the corrected code reports
      the create failure, while the code as written goes on to the copy and
      succeeds exactly when a file of that name is already on the device. */
  lemma UnreadExportMasksFailure(b: Behaviour, dir: string, routerName: string, now: DateTime)
    requires Valid(now) && TestPasses(b) && b.exportFails
    ensures BackupOutcome(b, dir, routerName, ConfigKind, now, Read)
            == Failure("Failed to create config backup on router")
    ensures BackupOutcome(b, dir, routerName, ConfigKind, now, Unread).Success?
            <==> TransferSize(b, RemotePath(ConfigKind, BaseName(routerName, now))) > 0
    ensures BackupOutcome(b, dir, routerName, ConfigKind, now, Unread)
            != BackupOutcome(b, dir, routerName, ConfigKind, now, Read)
  {
    var refused := "Failed to create " + ConfigKind + " backup on router";
    assert refused == "Failed to create config backup on router";
    assert !Created(b, ConfigKind, Read) && Created(b, ConfigKind, Unread);
    var read := BackupOutcome(b, dir, routerName, ConfigKind, now, Read);
    var unread := BackupOutcome(b, dir, routerName, ConfigKind, now, Unread);
    assert read == Failure(refused);
    if TransferSize(b, RemotePath(ConfigKind, BaseName(routerName, now))) == 0 {
      assert unread == Failure("Failed to download backup file");
      assert |unread.error| != |refused|;
    } else {
      assert unread.Success?;
    }
  }

  /** Two backups of one router and kind get the same file name only when
      they were stamped in the same second (from year 1000 on). */
  lemma {:induction false} FilenamesDifferBySecond(routerName: string, kind: string, a: DateTime, b: DateTime)
    requires Valid(a) && Valid(b) && a.year >= 1000 && b.year >= 1000
    requires BaseName(routerName, a) + Extension(kind) == BaseName(routerName, b) + Extension(kind)
    ensures SameDate(a, b) && a.hour == b.hour && a.minute == b.minute && a.second == b.second
  {
    var p := ReplaceSpaces(routerName) + "_";
    var x, y := BaseName(routerName, a) + Extension(kind), BaseName(routerName, b) + Extension(kind);
    assert x == p + Stamp(a) + Extension(kind) && y == p + Stamp(b) + Extension(kind);
    FourDigitYear(a.year);
    FourDigitYear(b.year);
    assert |Stamp(a)| == |Stamp(b)|;
    assert Stamp(a) == x[|p|..|p| + |Stamp(a)|];
    assert Stamp(b) == y[|p|..|p| + |Stamp(b)|];
    StampInjective(a, b);
  }

  /** A full backup of router "Core Router" at 2024-03-01 04:30:00 is stored as
      `Core_Router_20240301_043000.backup`. */
  lemma ExampleCoreRouter()
    ensures BaseName("Core Router", DateTime(2024, 3, 1, 4, 30, 0, 0)) + Extension("full")
            == "Core_Router_20240301_043000.backup"
  {
    var t := DateTime(2024, 3, 1, 4, 30, 0, 0);
    ExampleStamp();
    ExampleReplace("Core Router");
    ExampleJoin(ReplaceSpaces("Core Router"), Stamp(t));
  }

  lemma ExampleJoin(name: string, stamp: string)
    requires name == "Core_Router" && stamp == "20240301_043000"
    ensures name + "_" + stamp + Extension("full") == "Core_Router_20240301_043000.backup"
  {
  }

  lemma ExampleStamp()
    ensures Stamp(DateTime(2024, 3, 1, 4, 30, 0, 0)) == "20240301_043000"
  {
    ExampleYear();
    assert Pad2(3) == "03" && Pad2(1) == "01" && Pad2(4) == "04" && Pad2(30) == "30" && Pad2(0) == "00";
  }

  lemma ExampleYear()
    ensures NatToString(2024) == "2024"
  {
    assert NatToString(2) == "2";
    assert NatToString(20) == NatToString(2) + [DigitChar(0)];
    assert NatToString(202) == NatToString(20) + [DigitChar(2)];
    assert NatToString(2024) == NatToString(202) + [DigitChar(4)];
  }

  lemma ExampleReplace(name: string)
    requires name == "Core Router"
    ensures ReplaceSpaces(name) == "Core_Router"
  {
    var r := ReplaceSpaces(name);
    assert name[4] == ' ' && |r| == 11;
    assert r[..4] == "Core" by {
      assert r[0] == 'C' && r[1] == 'o' && r[2] == 'r' && r[3] == 'e';
    }
    assert r[5..] == "Router" by {
      assert r[5] == 'R' && r[6] == 'o' && r[7] == 'u' && r[8] == 't' && r[9] == 'e' && r[10] == 'r';
    }
    assert r == r[..4] + [r[4]] + r[5..];
  }

  // ------------------------------------------------------------ retention

  /** `filename.endswith(('.backup', '.rsc'))` */
  predicate Recognized(name: string) {
    EndsWith(name, ".backup") || EndsWith(name, ".rsc")
  }

  /** Entries of the directory on which `getmtime` or `remove` raises. */
  datatype Faults = Faults(unreadable: set<string>, undeletable: set<string>)

  const NoFaults := Faults({}, {})

  /** `datetime.now().timestamp() - retention_days * 24 * 3600` */
  function Cutoff(now: real, retentionDays: int): real {
    now - (retentionDays * 24 * 3600) as real
  }

  /** The directory (name to modification time) after the sweep walks
      `listing`: recognized entries older than `cutoff` are removed; the
      first entry whose time cannot be read, or whose removal raises, ends the
      sweep with the rest untouched. */
  function Sweep(files: map<string, real>, listing: seq<string>, cutoff: real, faults: Faults): map<string, real>
    decreases |listing|
  {
    if listing == [] then files
    else
      var f := listing[0];
      if !Recognized(f) then Sweep(files, listing[1..], cutoff, faults)
      else if f !in files || f in faults.unreadable then files
      else if !(files[f] < cutoff) then Sweep(files, listing[1..], cutoff, faults)
      else if f in faults.undeletable then files
      else Sweep(files - {f}, listing[1..], cutoff, faults)
  }

  /** Whatever the faults, the sweep only removes listed, recognized entries
      older than the cutoff, and keeps the modification times of the rest. */
  lemma {:induction false} SweepOnlyRemovesStale(files: map<string, real>, listing: seq<string>, cutoff: real, faults: Faults)
    ensures var r := Sweep(files, listing, cutoff, faults);
      && r.Keys <= files.Keys
      && (forall f :: f in r ==> r[f] == files[f])
      && (forall f :: f in files && f !in r ==> f in listing && Recognized(f) && files[f] < cutoff)
    decreases |listing|
  {
    if listing != [] {
      var f := listing[0];
      SweepOnlyRemovesStale(files, listing[1..], cutoff, faults);
      if Recognized(f) && f in files && files[f] < cutoff {
        SweepOnlyRemovesStale(files - {f}, listing[1..], cutoff, faults);
      }
    }
  }

  /** An entry that the sweep cannot stat or remove stops it: nothing listed
      after it is touched. */
  lemma {:induction false} SweepStopsAtFault(files: map<string, real>, listing: seq<string>, cutoff: real, faults: Faults, k: nat)
    requires k < |listing| && Recognized(listing[k])
    requires || listing[k] !in files || listing[k] in faults.unreadable
             || (listing[k] in faults.undeletable && files[listing[k]] < cutoff)
    ensures var r := Sweep(files, listing, cutoff, faults);
      forall f :: f in files && f !in listing[..k] ==> f in r && r[f] == files[f]
    decreases k
  {
    var f, rest := listing[0], listing[1..];
    var r := Sweep(files, listing, cutoff, faults);
    if k == 0 {
      assert r == files;
    } else {
      assert rest[k - 1] == listing[k];
      assert listing[..k] == [f] + rest[..k - 1];
      if !Recognized(f) || (f in files && f !in faults.unreadable && !(files[f] < cutoff)) {
        assert r == Sweep(files, rest, cutoff, faults);
        SweepStopsAtFault(files, rest, cutoff, faults, k - 1);
      } else if f !in files || f in faults.unreadable || f in faults.undeletable {
        assert r == files;
      } else if f == listing[k] {
        assert false;
      } else {
        assert r == Sweep(files - {f}, rest, cutoff, faults);
        SweepStopsAtFault(files - {f}, rest, cutoff, faults, k - 1);
      }
    }
  }

  predicate Distinct(s: seq<string>) {
    forall i, j :: 0 <= i < j < |s| ==> s[i] != s[j]
  }

  /** The listed entries a fault-free sweep removes. */
  function StaleListed(files: map<string, real>, listing: seq<string>, cutoff: real): set<string> {
    set f | f in listing && f in files && Recognized(f) && files[f] < cutoff
  }

  lemma {:induction false} SweepListed(files: map<string, real>, listing: seq<string>, cutoff: real)
    requires Distinct(listing)
    requires forall i :: 0 <= i < |listing| ==> listing[i] in files
    ensures Sweep(files, listing, cutoff, NoFaults) == files - StaleListed(files, listing, cutoff)
    decreases |listing|
  {
    if listing != [] {
      var f, rest := listing[0], listing[1..];
      assert forall i :: 0 <= i < |rest| ==> rest[i] == listing[i + 1] && rest[i] != f;
      if Recognized(f) && files[f] < cutoff {
        var smaller := files - {f};
        SweepListed(smaller, rest, cutoff);
        assert StaleListed(smaller, rest, cutoff) == StaleListed(files, rest, cutoff);
        assert StaleListed(files, listing, cutoff) == StaleListed(files, rest, cutoff) + {f};
        assert smaller - StaleListed(files, rest, cutoff) == files - StaleListed(files, listing, cutoff);
      } else {
        SweepListed(files, rest, cutoff);
        assert StaleListed(files, listing, cutoff) == StaleListed(files, rest, cutoff);
      }
    }
  }

  /** `listing` lists every entry of the directory once. */
  ghost predicate Enumerates(listing: seq<string>, files: map<string, real>) {
    Distinct(listing) && forall f :: f in listing <==> f in files
  }

  /** Without faults, the sweep of the whole directory leaves exactly the
      entries that are unrecognized or not older than the cutoff. */
  lemma {:induction false} SweepExact(files: map<string, real>, listing: seq<string>, cutoff: real)
    requires Enumerates(listing, files)
    ensures Sweep(files, listing, cutoff, NoFaults)
            == map f | f in files && !(Recognized(f) && files[f] < cutoff) :: files[f]
  {
    assert forall i :: 0 <= i < |listing| ==> listing[i] in files;
    SweepListed(files, listing, cutoff);
  }

  /** A second fault-free sweep with the same cutoff removes nothing. */
  lemma {:induction false} SweepTwiceIsOnce(files: map<string, real>, listing: seq<string>,
                                             again: seq<string>, cutoff: real)
    requires Enumerates(listing, files)
    requires Enumerates(again, Sweep(files, listing, cutoff, NoFaults))
    ensures var r := Sweep(files, listing, cutoff, NoFaults);
      Sweep(r, again, cutoff, NoFaults) == r
  {
    var r := Sweep(files, listing, cutoff, NoFaults);
    SweepExact(files, listing, cutoff);
    assert forall i :: 0 <= i < |again| ==> again[i] in r;
    SweepListed(r, again, cutoff);
    assert StaleListed(r, again, cutoff) == {};
  }

  /** `BackupManager(backup_dir)`: `files` is the local store, each entry's
      name mapped to its modification time in seconds since the epoch. */
  class BackupManager {
    const backupDir: string
    var files: map<string, real>

    constructor (backupDir: string, files: map<string, real>)
      ensures this.backupDir == backupDir && this.files == files
    {
      this.backupDir := backupDir;
      this.files := files;
    }

    /** `create_router_backup(router, backup_type)` at local time `now`,
        with the config export handled as `h` says. */
    method CreateRouterBackup(router: Router, kind: string, device: Device, now: DateTime, h: ReplyHandling)
      returns (result: BackupResult)
      requires Valid(now)
      modifies device
      ensures result == BackupOutcome(device.behaviour, backupDir, router.name, kind, now, h)
      ensures device.calls == old(device.calls) + BackupTrace(device.behaviour, backupDir, router.name, kind, now, h)
    {
      TraceSteps(device.behaviour, backupDir, router.name, kind, now, h);
      var conn := new Connection(device);
      var ok := conn.TestConnection();
      if !ok {
        return Failure("Cannot connect to router");
      }
      result := CreateAndCopy(conn, router.name, kind, now, h);
      conn.Disconnect();
      ghost var b, base := device.behaviour, BaseName(router.name, now);
      Regroup(old(device.calls), Session(b, [Query(IdentityPath)]),
        Session(b, CreateCommands(kind, base, h))
          + (if Created(b, kind, h) then [Transfer(RemotePath(kind, base), JoinPath(backupDir, base + Extension(kind)))] else []));
    }

    /** The `try` block of `create_router_backup` once the test has passed:
        create the artifact, then copy it when a name came back. */
    method CreateAndCopy(conn: Connection, routerName: string, kind: string, now: DateTime, h: ReplyHandling)
      returns (result: BackupResult)
      requires Valid(now) && TestPasses(conn.device.behaviour)
      modifies conn, conn.device
      ensures conn.api
      ensures result == BackupOutcome(conn.device.behaviour, backupDir, routerName, kind, now, h)
      ensures var b, base := conn.device.behaviour, BaseName(routerName, now);
        conn.device.calls == old(conn.device.calls) + Session(b, CreateCommands(kind, base, h))
          + (if Created(b, kind, h) then [Transfer(RemotePath(kind, base), JoinPath(backupDir, base + Extension(kind)))] else [])
    {
      var base := BaseName(routerName, now);
      var remote: Option<string>;
      if kind == ConfigKind {
        if h.Read? {
          remote := conn.CreateConfigBackup(Some(base), now);
        } else {
          remote := conn.CreateConfigBackupAsWritten(Some(base), now);
        }
      } else {
        remote := conn.CreateBackup(Some(base), now);
      }
      if remote.None? {
        return Failure("Failed to create " + kind + " backup on router");
      }
      var filename := base + Extension(kind);
      var localPath := JoinPath(backupDir, filename);
      var size: nat;
      assert RemotePath(kind, base) == "/" + remote.value + Extension(kind);
      if kind == ConfigKind {
        size := conn.DownloadConfigBackup(remote.value, localPath);
      } else {
        size := conn.DownloadBackup(remote.value, localPath);
      }
      if size == 0 {
        result := Failure("Failed to download backup file");
      } else {
        result := Success(filename, localPath, size, remote.value);
      }
    }

    /** `cleanup_old_backups(retention_days)` at epoch time `now`, walking the
        directory entries in the order `listing` gives. */
    method CleanupOldBackups(retentionDays: int, now: real, listing: seq<string>, faults: Faults)
      modifies this`files
      ensures files == Sweep(old(files), listing, Cutoff(now, retentionDays), faults)
    {
      var cutoff := Cutoff(now, retentionDays);
      var i := 0;
      while i < |listing|
        invariant 0 <= i <= |listing|
        invariant Sweep(files, listing[i..], cutoff, faults) == Sweep(old(files), listing, cutoff, faults)
      {
        var f := listing[i];
        assert listing[i..][0] == f && listing[i..][1..] == listing[i + 1..];
        if Recognized(f) {
          if f !in files || f in faults.unreadable {
            return;
          }
          if files[f] < cutoff {
            if f in faults.undeletable {
              return;
            }
            files := files - {f};
          }
        }
        i := i + 1;
      }
    }
  }

  /** `check_router_status(router)`: the router's new status follows the
      connectivity test; the caller commits it. */
  method CheckRouterStatus(router: Router, device: Device) returns (online: bool, updated: Router)
    modifies device
    ensures online == TestPasses(device.behaviour)
    ensures updated == router.(status := if online then "online" else "offline")
    ensures device.calls == old(device.calls) + Session(device.behaviour, [Query(IdentityPath)])
  {
    var conn := new Connection(device);
    online := conn.TestConnection();
    updated := router.(status := if online then "online" else "offline");
  }
}
