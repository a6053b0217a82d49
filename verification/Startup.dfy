/**
 One start of the desktop shell, from the pending restore to the API's readiness
 (desktop-shell/src-tauri/src/main.rs:1129-1260), and what a failed start gives back.

 `CalmStart` says what a start in which no operation fails makes of the database, its sidecars, the
 migration marker and the other files, as a function of the files before it and of what the child
 processes do. `Start` is proved to do just that; the lemmas say what it means for the user's data.
 */
module Startup {
  import opened Wrappers
  import opened Disk
  import opened MigrationContract
  import opened MigrationRollback
  import opened Restore

  /** How the API process fares; `after` holds the database and sidecars as it leaves them. */
  datatype Api = NotSpawned | Unready(after: Files) | Ready(after: Files)

  function ApiEdits(files: Files, after: Files): Files {
    map p | p in files.Keys + after.Keys && (if Live(p) then p in after else p in files)
      :: if Live(p) then after[p] else files[p]
  }

  // ---------------------------------------------------------------- the files a start is about

  /** Database and sidecars, the migration marker, and everything that is not the shell's own. */
  predicate Viewed(p: Path) {
    Live(p) || p.MigrationAttempt? || p.Other?
  }

  ghost predicate SameView(a: Files, b: Files) {
    forall p: Path {:trigger SameAt(a, b, p)} :: Viewed(p) ==> SameAt(a, b, p)
  }

  lemma ViewsCompose(a: Files, b: Files, c: Files)
    requires SameView(a, b) && SameView(b, c)
    ensures SameView(a, c)
  {
    forall p: Path | Viewed(p) ensures SameAt(a, c, p) {
      assert SameAt(a, b, p) && SameAt(b, c, p);
    }
  }

  // ---------------------------------------------------------------- a start in which nothing fails

  function WithoutLive(files: Files): Files {
    map p | p in files && !Live(p) :: files[p]
  }

  /** The staged file is the database and no sidecar is beside it. */
  function InstalledFiles(files: Files, staged: Path): Files
    requires staged in files
  {
    (WithoutLive(files) - {staged})[Database := files[staged]]
  }

  /** The backup is the database, no sidecar is beside it, and the marker says so. */
  function RolledBackFiles(codec: MarkerCodec, files: Files, m: Marker): Files {
    match BackupOf(codec, files, m)
    case None => files
    case Some(b) => WithoutLive(files)[Database := files[b]][MigrationAttempt := codec.encode(m.(status := RolledBack))]
  }

  /** Database and original sidecars as in `before`, everything else as the failed start left it. */
  function GivenBackFiles(before: Files, failed: Files): Files {
    map p | p in before.Keys + failed.Keys
            && (if p.Database? then p in before else if p.Sidecar? then p in before || p in failed else p in failed)
      :: if Live(p) && p in before then before[p] else failed[p]
  }

  function PendingOf(codec: MarkerCodec, files: Files, identity: string): Option<Marker> {
    if MigrationAttempt in files && codec.parse(files[MigrationAttempt]).Some?
       && Pending(codec, files, identity, codec.parse(files[MigrationAttempt]).value)
    then codec.parse(files[MigrationAttempt]) else None
  }

  function DecisionFor(identity: string, child: Child, files: Files): Decision {
    Decide(Database in files, identity, child.preflight, child.executed)
  }

  function CalmPreparation(codec: MarkerCodec, identity: string, child: Child, files: Files): Preparation {
    if MigrationAttempt in files then
      match PendingOf(codec, files, identity)
      case None => Stopped(false)
      case Some(m) => Stopped(BackupOf(codec, files, m).Some?)
    else
      match DecisionFor(identity, child, files)
      case Start => NoMigration
      case StartMigrated(m) => Migrated(m)
      case RollBack(m) => Stopped(BackupOf(codec, AfterCommands(files, child), m).Some?)
      case Stop => Stopped(false)
  }

  function Marked(codec: MarkerCodec, files: Files, m: Marker): Files {
    files[MigrationAttempt := codec.encode(m)]
  }

  function PreparedFiles(codec: MarkerCodec, identity: string, child: Child, files: Files): Files {
    if MigrationAttempt in files then
      match PendingOf(codec, files, identity)
      case None => files
      case Some(m) => RolledBackFiles(codec, files, m)
    else
      var edited := AfterCommands(files, child);
      match DecisionFor(identity, child, files)
      case Start => edited
      case StartMigrated(m) => Marked(codec, edited, m)
      case RollBack(m) => RolledBackFiles(codec, Marked(codec, edited, m), m)
      case Stop => edited
  }

  /** The backup of the migration to undo, if there is one, is on disk. */
  predicate UndoPossible(codec: MarkerCodec, r: Preparation, files: Files) {
    r.Migrated? ==> BackupOf(codec, files, r.marker).Some?
  }

  function UnmigratedFiles(codec: MarkerCodec, r: Preparation, files: Files): Files {
    if r.Migrated? then RolledBackFiles(codec, files, r.marker) else files
  }

  /** What a failed start has left when it begins to put an installed restore back; `None` when it
      does not get there: the start succeeds, the API is not spawned, or undoing the migration fails. */
  function FailedFiles(codec: MarkerCodec, r: Preparation, prepared: Files, api: Api): Option<Files> {
    if r.Stopped? then Some(prepared)
    else if !api.Unready? || !UndoPossible(codec, r, ApiEdits(prepared, api.after)) then None
    else Some(UnmigratedFiles(codec, r, ApiEdits(prepared, api.after)))
  }

  datatype Ending = Ending(started: bool, files: Files)

  /** From the prepared files to the end; `restored` is the staged file of an installed restore. */
  function EndOf(codec: MarkerCodec, r: Preparation, prepared: Files, api: Api, restored: Option<Path>,
                 before: Files): Ending
  {
    match FailedFiles(codec, r, prepared, api)
    case Some(failed) => Ending(false, if restored.Some? then GivenBackFiles(before, failed) else failed)
    case None =>
      match api
      case NotSpawned => Ending(false, prepared)
      case Unready(after) => Ending(false, ApiEdits(prepared, after))
      case Ready(after) => Ending(true, SettledFiles(r, ApiEdits(prepared, after), restored))
  }

  /** A successful start drops the migration marker and the staged file. */
  function SettledFiles(r: Preparation, files: Files, restored: Option<Path>): Files {
    files - (if r.Migrated? then {MigrationAttempt} else {}) - (if restored.Some? then {restored.value} else {})
  }

  /** The files after the pending restore, when nothing fails. */
  function RestoredFiles(codecs: Codecs, before: Files): Files {
    if Acceptable(codecs, before) then InstalledFiles(before, Request(codecs, before).value.staged.value) else before
  }

  function CalmStart(codecs: Codecs, codec: MarkerCodec, identity: string, before: Files, child: Child,
                     api: Api): Ending
  {
    if PendingRestore in before && !Acceptable(codecs, before) then Ending(false, before)
    else
      var installed := RestoredFiles(codecs, before);
      EndOf(codec, CalmPreparation(codec, identity, child, installed), PreparedFiles(codec, identity, child, installed),
            api, if Acceptable(codecs, before) then Request(codecs, before).value.staged else None, before)
  }

  // ---------------------------------------------------------------- only the view matters

  lemma SameBackups(codec: MarkerCodec, a: Files, b: Files, m: Marker)
    requires SameView(a, b)
    ensures BackupOf(codec, a, m) == BackupOf(codec, b, m)
    ensures SameView(RolledBackFiles(codec, a, m), RolledBackFiles(codec, b, m))
  {
    forall p: Path | p.Other? ensures SameAt(a, b, p) {
    }
    SameBackup(codec, a, b, m);
    var x, y := RolledBackFiles(codec, a, m), RolledBackFiles(codec, b, m);
    forall p: Path | Viewed(p) ensures SameAt(x, y, p) {
      assert SameAt(a, b, p);
    }
  }

  lemma SameCommands(a: Files, b: Files, child: Child)
    requires SameView(a, b)
    ensures SameView(AfterCommands(a, child), AfterCommands(b, child))
  {
    assert SameAt(a, b, Database);
    forall p: Path | Viewed(p) ensures SameAt(AfterCommands(a, child), AfterCommands(b, child), p) {
      assert SameAt(a, b, p);
    }
  }

  lemma SameMarked(codec: MarkerCodec, a: Files, b: Files, m: Marker)
    requires SameView(a, b)
    ensures SameView(Marked(codec, a, m), Marked(codec, b, m))
  {
    forall p: Path | Viewed(p) ensures SameAt(Marked(codec, a, m), Marked(codec, b, m), p) {
      assert SameAt(a, b, p);
    }
  }

  lemma SamePrepared(codec: MarkerCodec, identity: string, child: Child, a: Files, b: Files)
    requires SameView(a, b)
    ensures CalmPreparation(codec, identity, child, a) == CalmPreparation(codec, identity, child, b)
    ensures SameView(PreparedFiles(codec, identity, child, a), PreparedFiles(codec, identity, child, b))
  {
    assert SameAt(a, b, MigrationAttempt) && SameAt(a, b, Database);
    if MigrationAttempt in a {
      if PendingOf(codec, a, identity).Some? {
        SameBackups(codec, a, b, PendingOf(codec, a, identity).value);
      }
    } else {
      var x, y, d := AfterCommands(a, child), AfterCommands(b, child), DecisionFor(identity, child, a);
      SameCommands(a, b, child);
      if d.RollBack? || d.StartMigrated? {
        SameMarked(codec, x, y, d.marker);
        SameBackups(codec, x, y, d.marker);
        SameBackups(codec, Marked(codec, x, d.marker), Marked(codec, y, d.marker), d.marker);
      }
    }
  }

  lemma SameApi(a: Files, b: Files, after: Files)
    requires SameView(a, b)
    ensures SameView(ApiEdits(a, after), ApiEdits(b, after))
  {
    forall p: Path | Viewed(p) ensures SameAt(ApiEdits(a, after), ApiEdits(b, after), p) {
      assert SameAt(a, b, p);
    }
  }

  lemma SameGivenBack(before: Files, a: Files, b: Files)
    requires SameView(a, b)
    ensures SameView(GivenBackFiles(before, a), GivenBackFiles(before, b))
  {
    forall p: Path | Viewed(p) ensures SameAt(GivenBackFiles(before, a), GivenBackFiles(before, b), p) {
      assert SameAt(a, b, p);
    }
  }

  lemma SameUnmigrated(codec: MarkerCodec, r: Preparation, a: Files, b: Files)
    requires SameView(a, b)
    ensures UndoPossible(codec, r, a) == UndoPossible(codec, r, b)
    ensures SameView(UnmigratedFiles(codec, r, a), UnmigratedFiles(codec, r, b))
  {
    if r.Migrated? {
      SameBackups(codec, a, b, r.marker);
    }
  }

  lemma SameFailed(codec: MarkerCodec, r: Preparation, a: Files, b: Files, api: Api)
    requires SameView(a, b)
    ensures var x, y := FailedFiles(codec, r, a, api), FailedFiles(codec, r, b, api);
            (x.Some? <==> y.Some?) && (x.Some? ==> SameView(x.value, y.value))
  {
    if api.Unready? {
      SameApi(a, b, api.after);
      SameUnmigrated(codec, r, ApiEdits(a, api.after), ApiEdits(b, api.after));
    }
  }

  lemma SameSettled(r: Preparation, a: Files, b: Files, restored: Option<Path>)
    requires SameView(a, b)
    ensures SameView(SettledFiles(r, a, restored), SettledFiles(r, b, restored))
  {
    forall p: Path | Viewed(p) ensures SameAt(SettledFiles(r, a, restored), SettledFiles(r, b, restored), p) {
      assert SameAt(a, b, p);
    }
  }

  lemma SameEnd(codec: MarkerCodec, r: Preparation, a: Files, b: Files, api: Api, restored: Option<Path>, before: Files)
    requires SameView(a, b)
    ensures EndOf(codec, r, a, api, restored, before).started == EndOf(codec, r, b, api, restored, before).started
    ensures SameView(EndOf(codec, r, a, api, restored, before).files, EndOf(codec, r, b, api, restored, before).files)
  {
    SameFailed(codec, r, a, b, api);
    if FailedFiles(codec, r, a, api).Some? {
      SameGivenBack(before, FailedFiles(codec, r, a, api).value, FailedFiles(codec, r, b, api).value);
    } else if !api.NotSpawned? {
      SameApi(a, b, api.after);
      SameSettled(r, ApiEdits(a, api.after), ApiEdits(b, api.after), restored);
    }
  }

  // ---------------------------------------------------------------- nothing is lost on any run

  /** The original of every live file is at its place or in the safety directory of the request. */
  ghost predicate AllHeld(before: Files, now: Files, request: string) {
    forall p :: Live(p) && p in before ==>
      || (p in now && now[p] == before[p])
      || (Keep(request, p) in now && now[Keep(request, p)] == before[p])
  }

  ghost predicate SafetyKept(before: Files, now: Files, request: string) {
    forall e :: SameAt(before, now, Safety(request, e))
  }

  /** The safety directory of the installed request holds its originals and has not been touched since. */
  ghost predicate Safe(codecs: Codecs, before: Files, installed: Files, now: Files, application: Application) {
    InstalledFrom(codecs, before, installed, application) && SafetyKept(installed, now, application.requestId)
  }

  lemma SafeStays(codecs: Codecs, before: Files, installed: Files, a: Files, b: Files, application: Application)
    requires Safe(codecs, before, installed, a, application) && SafetyKept(a, b, application.requestId)
    ensures Safe(codecs, before, installed, b, application)
  {
  }

  lemma SafeIsHeld(codecs: Codecs, before: Files, installed: Files, now: Files, application: Application)
    requires Safe(codecs, before, installed, now, application)
    ensures AllHeld(before, now, application.requestId)
  {
  }

  /** No migration step touches a safety directory. */
  lemma FreshKeepsSafety(codec: MarkerCodec, before: Files, marked: Files, now: Files, identity: string, child: Child,
                         r: Preparation, reached: bool, request: string)
    requires FreshOutcome(codec, before, marked, now, identity, child, r, reached)
    ensures SafetyKept(before, now, request)
  {
    var edited := AfterCommands(before, child);
    forall e ensures SameAt(before, now, Safety(request, e)) {
      var p := Safety(request, e);
      assert SameAt(before, edited, p);
      if MarkerAside(edited, now) {
        assert SameAt(edited, now, p);
      } else if DecisionFor(identity, child, before).RollBack? {
        assert SameAt(edited, marked, p);
        assert SameAt(marked, now, p);
      }
    }
  }

  lemma RollbackKeepsSafety(codec: MarkerCodec, before: Files, now: Files, m: Marker, ok: bool, reached: bool,
                            request: string)
    requires RollbackOutcome(codec, before, now, m, ok, reached)
    ensures SafetyKept(before, now, request)
  {
  }

  // ---------------------------------------------------------------- each step does what is specified

  lemma RollbackSeen(codec: MarkerCodec, before: Files, now: Files, m: Marker, ok: bool, reached: bool)
    requires RollbackOutcome(codec, before, now, m, ok, reached)
    requires ok <==> BackupOf(codec, before, m).Some?
    ensures SameView(RolledBackFiles(codec, before, m), now)
  {
    forall p: Path | Viewed(p) ensures SameAt(RolledBackFiles(codec, before, m), now, p) {
      if ok && p.Other? {
        assert !RollbackEdits(p, m.attempt);
      }
    }
  }

  lemma FreshSeen(codec: MarkerCodec, before: Files, marked: Files, now: Files, identity: string, child: Child,
                  r: Preparation, reached: bool)
    requires MigrationAttempt !in before
    requires FreshOutcome(codec, before, marked, now, identity, child, r, reached)
    requires FreshCompletes(codec, before, marked, identity, child, r)
    ensures r == CalmPreparation(codec, identity, child, before)
    ensures SameView(PreparedFiles(codec, identity, child, before), now)
  {
    var d, edited := DecisionFor(identity, child, before), AfterCommands(before, child);
    match d
    case Start =>
    case Stop =>
      MarkerOnly(edited, edited, now);
    case StartMigrated(m) =>
      MarkerOnly(edited, Marked(codec, edited, m), now);
    case RollBack(m) =>
      MarkerOnly(edited, Marked(codec, edited, m), marked);
      SameBackups(codec, Marked(codec, edited, m), marked, m);
      SameBackup(codec, edited, marked, m);
      RollbackSeen(codec, marked, now, m, r.undone, reached);
      ViewsCompose(PreparedFiles(codec, identity, child, before), RolledBackFiles(codec, marked, m), now);
  }

  lemma MarkerOnly(edited: Files, expected: Files, now: Files)
    requires MarkerAside(edited, now) && MarkerAside(edited, expected) && SameAt(expected, now, MigrationAttempt)
    ensures SameView(expected, now)
  {
    forall p: Path | Viewed(p) ensures SameAt(expected, now, p) {
      assert p.MigrationAttempt? || (SameAt(edited, now, p) && SameAt(edited, expected, p));
    }
  }

  lemma GivenBackSeen(codecs: Codecs, before: Files, installed: Files, failed: Files, now: Files,
                      application: Application)
    requires Safe(codecs, before, installed, failed, application) && Undone(failed, now, application)
    requires forall p :: !RollbackTouches(p, application.requestId) ==> SameAt(failed, now, p)
    ensures SameView(GivenBackFiles(before, failed), now)
  {
    RestoreRoundTrip(codecs, before, installed, failed, now, application);
    var end := GivenBackFiles(before, failed);
    forall p: Path | Viewed(p) ensures SameAt(end, now, p) {
      if p.Database? {
        assert SameAt(before, now, Database);
      } else if p.Sidecar? {
        assert Sidecar(p.kind) in before ==> SameAt(before, now, Sidecar(p.kind));
        ForeignSidecar(codecs, before, installed, failed, now, application, p.kind);
      } else {
        assert !RollbackTouches(p, application.requestId);
      }
    }
  }

  lemma ForeignSidecar(codecs: Codecs, before: Files, installed: Files, failed: Files, now: Files,
                       application: Application, k: SidecarKind)
    requires Safe(codecs, before, installed, failed, application) && Undone(failed, now, application)
    ensures Sidecar(k) !in before ==> SameAt(failed, now, Sidecar(k))
  {
  }

  lemma InstalledSeen(codecs: Codecs, before: Files, now: Files, r: Applied, calm: bool, oneFault: bool)
    requires Ordinary(codecs, before) && RestoreOutcome(codecs, before, now, r, calm, oneFault) && calm && oneFault
    ensures r.Refused? <==> PendingRestore in before && !Acceptable(codecs, before)
    ensures SameView(RestoredFiles(codecs, before), now)
  {
    var end, request := RestoredFiles(codecs, before), Request(codecs, before);
    forall p: Path | Viewed(p) ensures SameAt(end, now, p) {
      if !Live(p) && Foreign(p, request) {
        assert SameAt(before, now, p);
      }
    }
  }

  // ---------------------------------------------------------------- what a start owes the user

  /** The backup a marker names is among the files the commands left. */
  predicate BackedUp(codec: MarkerCodec, child: Child, m: Marker) {
    BackupOf(codec, child.after, m).Some?
  }

  /** The database and every sidecar that existed come back, and the live files come back exactly if
      and only if `left` holds no other sidecar. */
  ghost predicate GivenBack(before: Files, left: Files, now: Files) {
    && SameAt(before, now, Database)
    && (forall k :: Sidecar(k) in before ==> SameAt(before, now, Sidecar(k)))
    && (SameLive(before, now) <==> forall k :: Sidecar(k) !in before ==> Sidecar(k) !in left)
  }

  ghost predicate MarkerIs(codec: MarkerCodec, now: Files, m: Marker) {
    MigrationAttempt in now && now[MigrationAttempt] == codec.encode(m)
  }

  /** The database is the backup the marker names in `source`, with no sidecar beside it, and the
      marker says so. */
  ghost predicate UndoneTo(codec: MarkerCodec, source: Files, now: Files, m: Marker)
    requires BackupOf(codec, source, m).Some?
  {
    Settled(now, source[BackupOf(codec, source, m).value]) && MarkerIs(codec, now, m.(status := RolledBack))
  }

  /** The API is used: the live files are as it leaves them, and no marker is left. */
  ghost predicate Launched(api: Api, end: Ending)
    requires !api.NotSpawned?
  {
    end.started && SameLive(api.after, end.files) && MigrationAttempt !in end.files
  }

  /** A start in which nothing fails, without a pending restore or a marker. It succeeds if and only if
      the commands let the API start and the API becomes ready. */
  ghost predicate PlainOutcome(codec: MarkerCodec, identity: string, before: Files, child: Child, api: Api,
                               end: Ending)
  {
    var d := Decide(Database in before, identity, child.preflight, child.executed);
    var ran := if Database in before then child.after else before;
    && (end.started <==> api.Ready? && (d.Start? || d.StartMigrated?))
    && (api.Ready? && (d.Start? || d.StartMigrated?) ==> Launched(api, end))
    && match d
       case Start =>
         SameLive(if api.NotSpawned? then ran else api.after, end.files) && MigrationAttempt !in end.files
       case StartMigrated(m) =>
         && (api.Unready? ==> if BackedUp(codec, child, m) then UndoneTo(codec, child.after, end.files, m)
                              else SameLive(api.after, end.files) && MarkerIs(codec, end.files, m))
         && (api.NotSpawned? ==> SameLive(ran, end.files) && MarkerIs(codec, end.files, m))
       case RollBack(m) =>
         if BackedUp(codec, child, m) then UndoneTo(codec, child.after, end.files, m)
         else SameLive(ran, end.files) && MarkerIs(codec, end.files, m)
       case Stop => SameLive(ran, end.files) && MigrationAttempt !in end.files
  }

  /** The same on the files of an installed restore: the live files from before it come back whenever
      the API was spawned and the migration, if any, could be undone. */
  ghost predicate RestoredOutcome(codec: MarkerCodec, before: Files, child: Child, api: Api, d: Decision, end: Ending) {
    && (end.started <==> api.Ready? && (d.Start? || d.StartMigrated?))
    && (api.NotSpawned? && (d.Start? || d.StartMigrated?) ==> SameLive(child.after, end.files))
    && match d
       case Stop => GivenBack(before, child.after, end.files)
       case RollBack(m) =>
         if BackedUp(codec, child, m) then SameLive(before, end.files) else GivenBack(before, child.after, end.files)
       case Start =>
         && (api.Unready? ==> GivenBack(before, api.after, end.files))
         && (api.Ready? ==> Launched(api, end))
       case StartMigrated(m) =>
         && (api.Unready? ==> SameLive(if BackedUp(codec, child, m) then before else api.after, end.files))
         && (api.Ready? ==> Launched(api, end))
  }

  /** With a marker on disk a start never succeeds: it undoes the migration the marker names, or
      changes none of these files. */
  ghost predicate MarkerOutcome(codec: MarkerCodec, identity: string, before: Files, end: Ending)
    requires MigrationAttempt in before
  {
    var m := codec.parse(before[MigrationAttempt]);
    && !end.started
    && if m.Some? && m.value.version == 1 && m.value.identity == identity && !m.value.status.RolledBack?
          && BackupOf(codec, before, m.value).Some?
       then UndoneTo(codec, before, end.files, m.value)
       else SameView(before, end.files)
  }

  /** What a start in which nothing fails owes the user. */
  ghost predicate Owed(codecs: Codecs, codec: MarkerCodec, identity: string, before: Files, child: Child, api: Api,
                       end: Ending)
  {
    if PendingRestore !in before then
      if MigrationAttempt in before then MarkerOutcome(codec, identity, before, end)
      else PlainOutcome(codec, identity, before, child, api, end)
    else if !PassesChecks(codecs, before) then !end.started && SameView(before, end.files)
    else if MigrationAttempt in before then !end.started && SameLive(before, end.files)
    else
      && RestoredOutcome(codec, before, child, api, Decide(true, identity, child.preflight, child.executed), end)
      && (end.started ==> codecs.parsePending(before[PendingRestore]).value.staged.value !in end.files)
  }

  // ---------------------------------------------------------------- the start

  /** The marker says ROLLED_BACK only if the database is the backup with no sidecar beside it. */
  ghost predicate Honest(codec: MarkerCodec, files: Files, m: Marker) {
    Recorded(codec, files, m) ==>
      BackupOf(codec, files, m).Some? && Settled(files, files[BackupOf(codec, files, m).value])
  }

  /** A migration the start has made, with its marker on disk. */
  predicate Announced(codec: MarkerCodec, files: Files, migration: Preparation) {
    migration.Migrated? && Open(codec, files, migration.marker)
  }

  /** Wherever it stops, a rollback leaves an honest marker. */
  lemma RollbackIsHonest(codec: MarkerCodec, before: Files, now: Files, m: Marker, ok: bool, reached: bool)
    requires Faithful(codec) && Open(codec, before, m) && RollbackOutcome(codec, before, now, m, ok, reached)
    ensures Honest(codec, now, m)
  {
    forall p: Path | p.Other? ensures SameAt(before, now, p) {
      assert !RollbackEdits(p, m.attempt);
    }
    SameBackup(codec, before, now, m);
  }

  /** The marker of the migration a start finds unfinished, or makes itself, is honest after it. */
  ghost predicate LeavesHonest(codec: MarkerCodec, identity: string, child: Child, before: Files, now: Files) {
    && (forall m :: Pending(codec, before, identity, m) ==> Honest(codec, now, m))
    && var d := DecisionFor(identity, child, before);
       MigrationAttempt !in before && (d.RollBack? || d.StartMigrated?) ==> Honest(codec, now, d.marker)
  }

  lemma HonouredIsHonest(codec: MarkerCodec, identity: string, child: Child, before: Files, now: Files)
    requires Faithful(codec) && MigrationAttempt in before && MarkerHonoured(codec, identity, before, now)
    ensures LeavesHonest(codec, identity, child, before, now)
  {
    forall m | Pending(codec, before, identity, m) ensures Honest(codec, now, m) {
      if RollbackOutcome(codec, before, now, m, false, false) {
        RollbackIsHonest(codec, before, now, m, false, false);
      } else if RollbackOutcome(codec, before, now, m, false, true) {
        RollbackIsHonest(codec, before, now, m, false, true);
      } else {
        RollbackIsHonest(codec, before, now, m, true, true);
      }
    }
  }

  /** A whole start without a restore, from what its preparation and the API left. */
  lemma StartIsHonest(codec: MarkerCodec, identity: string, child: Child, before: Files, marked: Files,
                      prepared: Files, now: Files, r: Preparation, reached: bool)
    requires Faithful(codec)
    requires MigrationAttempt in before ==> MarkerHonoured(codec, identity, before, now)
    requires MigrationAttempt !in before ==>
               && FreshOutcome(codec, before, marked, prepared, identity, child, r, reached)
               && (r.Stopped? ==> now == prepared)
               && (Announced(codec, prepared, r) ==> Honest(codec, now, r.marker))
    ensures LeavesHonest(codec, identity, child, before, now)
  {
    var d := DecisionFor(identity, child, before);
    if MigrationAttempt in before {
      HonouredIsHonest(codec, identity, child, before, now);
    } else if d.RollBack? && MigrationAttempt in marked {
      RollbackIsHonest(codec, marked, now, d.marker, r.undone, reached);
    }
  }

  /** Puts an installed restore back; `installed` is what the installation left. */
  method UndoRestore(disk: Volume, codecs: Codecs, application: Application, ghost before: Files,
                     ghost installed: Files)
    returns (ok: bool)
    requires Distinct(application.sidecars)
    modifies disk
    ensures disk.clock >= old(disk.clock)
    ensures disk.Calm(old(disk.clock), disk.clock) ==> ok
    ensures Safe(codecs, before, installed, old(disk.files), application) ==>
              && (ok ==> SameView(GivenBackFiles(before, old(disk.files)), disk.files))
              && AllHeld(before, disk.files, application.requestId)
  {
    ghost var failed := disk.files;
    ok := RollbackRestore(disk, codecs, application);
    if Safe(codecs, before, installed, failed, application) {
      if ok {
        GivenBackSeen(codecs, before, installed, failed, disk.files, application);
      }
      StillHeld(codecs, before, installed, failed, disk.files, application);
    }
  }

  lemma StillHeld(codecs: Codecs, before: Files, installed: Files, failed: Files, now: Files, application: Application)
    requires Safe(codecs, before, installed, failed, application)
    requires forall p :: Live(p) ==> StillThere(failed, now, application.requestId, p)
    ensures AllHeld(before, now, application.requestId)
  {
  }

  /** Undoes a migration the start has made, if it has made one. */
  method UndoMigration(disk: Volume, codec: MarkerCodec, migration: Preparation, ghost request: string)
    returns (ok: bool)
    modifies disk
    ensures disk.clock >= old(disk.clock)
    ensures SafetyKept(old(disk.files), disk.files, request)
    ensures disk.Calm(old(disk.clock), disk.clock) ==>
              && (ok <==> UndoPossible(codec, migration, old(disk.files)))
              && SameView(UnmigratedFiles(codec, migration, old(disk.files)), disk.files)
    ensures Faithful(codec) && Announced(codec, old(disk.files), migration) ==>
              Honest(codec, disk.files, migration.marker)
  {
    ok := true;
    if migration.Migrated? {
      ghost var failed := disk.files;
      ghost var reached;
      ok, reached := RollbackMigration(disk, codec, migration.marker);
      RollbackKeepsSafety(codec, failed, disk.files, migration.marker, ok, reached, request);
      if Faithful(codec) && Announced(codec, failed, migration) {
        RollbackIsHonest(codec, failed, disk.files, migration.marker, ok, reached);
      }
      if ok <==> BackupOf(codec, failed, migration.marker).Some? {
        RollbackSeen(codec, failed, disk.files, migration.marker, ok, reached);
      }
    }
  }

  /** The API never became ready: undo the migration first, then the restore. */
  method UndoStart(disk: Volume, codecs: Codecs, codec: MarkerCodec, restore: Applied, migration: Preparation,
                   ghost before: Files, ghost installed: Files)
    requires restore.Installed? ==> Distinct(restore.application.sidecars)
    requires restore.Installed? && InstalledFrom(codecs, before, installed, restore.application) ==>
               SafetyKept(installed, disk.files, restore.application.requestId)
    modifies disk
    ensures disk.clock >= old(disk.clock)
    ensures (disk.Calm(old(disk.clock), disk.clock)
             && (restore.Installed? ==> InstalledFrom(codecs, before, installed, restore.application))) ==>
              SameView(UndoneFiles(codec, migration, old(disk.files), restore.Installed?, before), disk.files)
    ensures restore.Installed? && InstalledFrom(codecs, before, installed, restore.application) ==>
              AllHeld(before, disk.files, restore.application.requestId)
    ensures Faithful(codec) && !restore.Installed? && Announced(codec, old(disk.files), migration) ==>
              Honest(codec, disk.files, migration.marker)
  {
    ghost var failed, request := disk.files, if restore.Installed? then restore.application.requestId else "";
    var ok := UndoMigration(disk, codec, migration, request);
    ghost var undone := disk.files;
    if restore.Installed? {
      if InstalledFrom(codecs, before, installed, restore.application) {
        SafeStays(codecs, before, installed, failed, undone, restore.application);
        SafeIsHeld(codecs, before, installed, undone, restore.application);
      }
      if ok {
        ok := UndoRestore(disk, codecs, restore.application, before, installed);
        GivenBackAfter(before, UnmigratedFiles(codec, migration, failed), undone, disk.files);
      }
    }
  }

  lemma GivenBackAfter(before: Files, expected: Files, undone: Files, now: Files)
    ensures SameView(expected, undone) && SameView(GivenBackFiles(before, undone), now) ==>
              SameView(GivenBackFiles(before, expected), now)
  {
    if SameView(expected, undone) && SameView(GivenBackFiles(before, undone), now) {
      SameGivenBack(before, expected, undone);
      ViewsCompose(GivenBackFiles(before, expected), GivenBackFiles(before, undone), now);
    }
  }

  function UndoneFiles(codec: MarkerCodec, migration: Preparation, failed: Files, restored: bool, before: Files): Files
  {
    if !UndoPossible(codec, migration, failed) then failed
    else
      var undone := UnmigratedFiles(codec, migration, failed);
      if restored then GivenBackFiles(before, undone) else undone
  }

  function StagedOf(restore: Applied): Option<Path> {
    if restore.Installed? then Some(restore.application.staged) else None
  }

  /** Files that the end of a successful start does not touch. */
  predicate SettleSpares(p: Path, staged: Option<Path>) {
    && !p.PendingRestore? && !p.RestoreStatus? && !p.RestoreStatusTemp? && !p.MigrationAttempt?
    && (staged.Some? ==> p != staged.value)
  }

  /** The API is ready: the restore is final and the migration marker goes. */
  method Settle(disk: Volume, codecs: Codecs, restore: Applied, migration: Preparation) returns (ok: bool)
    modifies disk
    ensures disk.clock >= old(disk.clock)
    ensures ok && restore.Installed? ==> Reports(codecs, disk.files, "succeeded", restore.application.backupId)
    ensures forall p: Path :: SettleSpares(p, StagedOf(restore)) ==> SameAt(old(disk.files), disk.files, p)
    ensures (restore.Installed? ==> restore.application.staged.Other?) ==>
              SameAt(old(disk.files), disk.files, MigrationAttempt)
              || (migration.Migrated? && MigrationAttempt !in disk.files)
    ensures disk.Calm(old(disk.clock), disk.clock) ==>
              && ok
              && (migration.Migrated? ==> MigrationAttempt !in disk.files)
              && (restore.Installed? && restore.application.staged.Other? ==>
                    PendingRestore !in disk.files && restore.application.staged !in disk.files)
  {
    ok := true;
    ghost var before := disk.files;
    if restore.Installed? {
      ok := FinalizeRestore(disk, codecs, restore.application);
    }
    ghost var final := disk.files;
    if ok && migration.Migrated? {
      ghost var t := disk.clock;
      var removed := disk.Remove(MigrationAttempt);
      assert !removed && MigrationAttempt in disk.files ==> disk.fails(t);
    }
    forall p: Path | SettleSpares(p, StagedOf(restore)) ensures SameAt(before, disk.files, p)
    {
      assert SameAt(before, final, p);
    }
  }

  /** The API process runs; the start succeeds, or is undone when the API never becomes ready. */
  method RunApi(disk: Volume, codecs: Codecs, codec: MarkerCodec, api: Api, restore: Applied, migration: Preparation,
                ghost before: Files, ghost installed: Files) returns (started: bool)
    requires !migration.Stopped?
    requires restore.Installed? ==> Distinct(restore.application.sidecars)
    requires restore.Installed? && InstalledFrom(codecs, before, installed, restore.application) ==>
               SafetyKept(installed, disk.files, restore.application.requestId)
    modifies disk
    ensures disk.clock >= old(disk.clock)
    ensures started ==> api.Ready?
    ensures (disk.Calm(old(disk.clock), disk.clock)
             && (restore.Installed? ==> InstalledFrom(codecs, before, installed, restore.application))) ==>
              var end := EndOf(codec, migration, old(disk.files), api, StagedOf(restore), before);
              started == end.started && SameView(end.files, disk.files)
    ensures disk.Calm(old(disk.clock), disk.clock) ==>
              && (started <==> api.Ready?)
              && (started && (restore.Installed? ==> restore.application.staged.Other?) ==>
                    && SameLive(api.after, disk.files)
                    && (migration.Migrated? || MigrationAttempt !in old(disk.files) ==>
                          MigrationAttempt !in disk.files))
    ensures restore.Installed? && InstalledFrom(codecs, before, installed, restore.application) ==>
              AllHeld(before, disk.files, restore.application.requestId)
    ensures Faithful(codec) && !restore.Installed? && Announced(codec, old(disk.files), migration) ==>
              Honest(codec, disk.files, migration.marker)
  {
    started := false;
    ghost var prepared := disk.files;
    if !api.NotSpawned? {
      disk.files := ApiEdits(disk.files, api.after);
    }
    ghost var edited := disk.files;
    if restore.Installed? && InstalledFrom(codecs, before, installed, restore.application) {
      assert SafetyKept(prepared, edited, restore.application.requestId);
      SafeStays(codecs, before, installed, prepared, edited, restore.application);
      SafeIsHeld(codecs, before, installed, edited, restore.application);
    }
    match api {
      case NotSpawned =>
      case Unready(_) =>
        UndoStart(disk, codecs, codec, restore, migration, before, installed);
      case Ready(_) =>
        started := Settle(disk, codecs, restore, migration);
        if restore.Installed? ==> restore.application.staged.Other? {
          SettledLive(prepared, disk.files, api.after, StagedOf(restore));
          SettledSeen(migration, edited, disk.files, StagedOf(restore));
        }
        if restore.Installed? && InstalledFrom(codecs, before, installed, restore.application) {
          assert SafetyKept(edited, disk.files, restore.application.requestId);
          SafeStays(codecs, before, installed, edited, disk.files, restore.application);
          SafeIsHeld(codecs, before, installed, disk.files, restore.application);
        }
    }
  }

  lemma SettledLive(prepared: Files, now: Files, after: Files, restored: Option<Path>)
    requires restored.Some? ==> restored.value.Other?
    requires forall p: Path :: SettleSpares(p, restored) ==> SameAt(ApiEdits(prepared, after), now, p)
    ensures SameLive(after, now)
  {
    forall p | Live(p) ensures SameAt(after, now, p) {
      assert SettleSpares(p, restored) && SameAt(ApiEdits(prepared, after), now, p);
    }
  }

  lemma SettledSeen(r: Preparation, edited: Files, now: Files, restored: Option<Path>)
    requires forall p: Path :: SettleSpares(p, restored) ==> SameAt(edited, now, p)
    requires restored.Some? ==> restored.value.Other?
    ensures (if r.Migrated? then MigrationAttempt !in now else SameAt(edited, now, MigrationAttempt))
            && (restored.Some? ==> restored.value !in now) ==>
              SameView(SettledFiles(r, edited, restored), now)
  {
    if (if r.Migrated? then MigrationAttempt !in now else SameAt(edited, now, MigrationAttempt))
       && (restored.Some? ==> restored.value !in now) {
      forall p: Path | Viewed(p) ensures SameAt(SettledFiles(r, edited, restored), now, p) {
        assert SettleSpares(p, restored) ==> SameAt(edited, now, p);
      }
    }
  }

  /** A start that finds a migration marker: its rollback got somewhere, or nothing has changed. */
  ghost predicate MarkerHonoured(codec: MarkerCodec, identity: string, before: Files, now: Files) {
    && (forall m :: Pending(codec, before, identity, m) ==>
          RollbackOutcome(codec, before, now, m, false, false) || RollbackOutcome(codec, before, now, m, false, true)
          || RollbackOutcome(codec, before, now, m, true, true))
    && ((forall m :: !Pending(codec, before, identity, m)) ==> now == before)
  }

  /** From the migration to readiness; `before` are the files before an installed restore. */
  method StartDatabase(disk: Volume, codecs: Codecs, codec: MarkerCodec, identity: string, child: Child, api: Api,
                       restore: Applied, ghost before: Files) returns (started: bool)
    requires restore.Installed? ==> Distinct(restore.application.sidecars)
    modifies disk
    ensures disk.clock >= old(disk.clock)
    ensures started ==> api.Ready?
    ensures (disk.Calm(old(disk.clock), disk.clock)
             && (restore.Installed? ==> InstalledFrom(codecs, before, old(disk.files), restore.application))) ==>
              var end := EndOf(codec, CalmPreparation(codec, identity, child, old(disk.files)),
                               PreparedFiles(codec, identity, child, old(disk.files)), api, StagedOf(restore), before);
              started == end.started && SameView(end.files, disk.files)
    ensures restore.Installed? && InstalledFrom(codecs, before, old(disk.files), restore.application) ==>
              AllHeld(before, disk.files, restore.application.requestId)
    ensures !restore.Installed? && MigrationAttempt in old(disk.files) ==>
              !started && MarkerHonoured(codec, identity, old(disk.files), disk.files)
    ensures Faithful(codec) && !restore.Installed? ==>
              LeavesHonest(codec, identity, child, old(disk.files), disk.files)
  {
    ghost var installed, t := disk.files, disk.clock;
    var migration, marked, reached := PrepareMigration(disk, codec, identity, child);
    ghost var prepared, ready := disk.files, disk.clock;
    ghost var request := if restore.Installed? then restore.application.requestId else "";
    PreparationSeen(codec, installed, marked, prepared, identity, child, migration, reached, disk.Calm(t, ready),
                    request);
    started := false;
    if migration.Stopped? {
      if restore.Installed? {
        var undone := UndoRestore(disk, codecs, restore.application, before, installed);
      }
    } else {
      started := RunApi(disk, codecs, codec, api, restore, migration, before, installed);
    }
    EndSeen(codec, migration, PreparedFiles(codec, identity, child, installed), prepared, api, StagedOf(restore),
            before, disk.files);
    if Faithful(codec) && !restore.Installed? {
      StartIsHonest(codec, identity, child, installed, marked, prepared, disk.files, migration, reached);
    }
  }

  /** An end reached from files that look as expected is the expected one. */
  lemma EndSeen(codec: MarkerCodec, r: Preparation, expected: Files, prepared: Files, api: Api, restored: Option<Path>,
                before: Files, now: Files)
    ensures SameView(expected, prepared) ==>
              var a := EndOf(codec, r, expected, api, restored, before);
              var b := EndOf(codec, r, prepared, api, restored, before);
              a.started == b.started && (SameView(b.files, now) ==> SameView(a.files, now))
  {
    var a, b := EndOf(codec, r, expected, api, restored, before), EndOf(codec, r, prepared, api, restored, before);
    if SameView(expected, prepared) {
      SameEnd(codec, r, expected, prepared, api, restored, before);
      if SameView(b.files, now) {
        ViewsCompose(a.files, b.files, now);
      }
    }
  }

  /** The preparation as specified, on files with and without a marker. */
  lemma PreparationSeen(codec: MarkerCodec, before: Files, marked: Files, now: Files, identity: string, child: Child,
                        r: Preparation, reached: bool, calm: bool, request: string)
    requires MigrationAttempt in before ==> r.Stopped?
    requires MigrationAttempt in before && (forall m :: !Pending(codec, before, identity, m)) ==>
              now == before && !r.undone
    requires forall m :: Pending(codec, before, identity, m) ==>
               && RollbackOutcome(codec, before, now, m, r.undone, reached)
               && (BackupOf(codec, before, m).Some? && calm ==> r.undone)
    requires MigrationAttempt !in before ==>
               && FreshOutcome(codec, before, marked, now, identity, child, r, reached)
               && (calm ==> FreshCompletes(codec, before, marked, identity, child, r))
    ensures SafetyKept(before, now, request)
    ensures calm ==> r == CalmPreparation(codec, identity, child, before)
                     && SameView(PreparedFiles(codec, identity, child, before), now)
  {
    if MigrationAttempt !in before {
      FreshKeepsSafety(codec, before, marked, now, identity, child, r, reached, request);
      if calm {
        FreshSeen(codec, before, marked, now, identity, child, r, reached);
      }
    } else if PendingOf(codec, before, identity).Some? {
      var m := PendingOf(codec, before, identity).value;
      assert Pending(codec, before, identity, m);
      RollbackKeepsSafety(codec, before, now, m, r.undone, reached, request);
      if calm {
        RollbackSeen(codec, before, now, m, r.undone, reached);
      }
    } else {
      assert forall m :: !Pending(codec, before, identity, m);
    }
  }

  /**
   One whole start. When no operation fails it does what `CalmStart` says. Whatever fails and
   wherever the process dies, every original a pending restore moves is at its place or in the
   safety directory of the request, a migration marker without a restore is honoured, and unless an
   accepted restore was pending the marker of its migration never says ROLLED_BACK falsely.
   */
  method Start(disk: Volume, codecs: Codecs, codec: MarkerCodec, identity: string, child: Child, api: Api)
    returns (started: bool)
    modifies disk
    ensures started ==> api.Ready?
    ensures Ordinary(codecs, old(disk.files)) && disk.Calm(old(disk.clock), disk.clock) ==>
              var end := CalmStart(codecs, codec, identity, old(disk.files), child, api);
              started == end.started && SameView(end.files, disk.files)
    ensures Ordinary(codecs, old(disk.files)) && disk.Calm(old(disk.clock), disk.clock) ==>
              Owed(codecs, codec, identity, old(disk.files), child, api, Ending(started, disk.files))
    ensures disk.Calm(old(disk.clock), disk.clock)
            && PendingRestore !in old(disk.files) && MigrationAttempt !in old(disk.files) ==>
              var d := Decide(Database in old(disk.files), identity, child.preflight, child.executed);
              started <==> api.Ready? && (d.Start? || d.StartMigrated?)
    ensures Ordinary(codecs, old(disk.files)) && PendingRestore in old(disk.files) ==>
              match Request(codecs, old(disk.files))
              case None => SameLive(old(disk.files), disk.files)
              case Some(m) => AllHeld(old(disk.files), disk.files, m.requestId)
    ensures PendingRestore !in old(disk.files) && MigrationAttempt in old(disk.files) ==>
              !started && MarkerHonoured(codec, identity, old(disk.files), disk.files)
    ensures Faithful(codec) && Ordinary(codecs, old(disk.files)) && !Acceptable(codecs, old(disk.files)) ==>
              LeavesHonest(codec, identity, child, old(disk.files), disk.files)
  {
    ghost var before, t := disk.files, disk.clock;
    var restore := ApplyPendingRestore(disk, codecs);
    ghost var installed, applied := disk.files, disk.clock;
    started := false;
    if !restore.Refused? {
      started := StartDatabase(disk, codecs, codec, identity, child, api, restore, before);
    }
    if Ordinary(codecs, before) {
      if restore.Refused? {
        RefusedHolds(codecs, codec, identity, child, before, installed, restore, disk.Calm(t, applied),
                     disk.OneFault(t, applied));
      }
      if disk.Calm(t, disk.clock) {
        InstalledSeen(codecs, before, installed, restore, disk.Calm(t, applied), disk.OneFault(t, applied));
        if !restore.Refused? {
          StartSeen(codecs, codec, identity, before, installed, child, api, restore, disk.files);
        }
        OwedByCalmStart(codecs, codec, identity, before, child, api, Ending(started, disk.files));
      }
    }
  }

  lemma RefusedHolds(codecs: Codecs, codec: MarkerCodec, identity: string, child: Child, before: Files, now: Files,
                     r: Applied, calm: bool, oneFault: bool)
    requires Ordinary(codecs, before) && RestoreOutcome(codecs, before, now, r, calm, oneFault) && r.Refused?
    ensures match Request(codecs, before)
            case None => SameLive(before, now)
            case Some(m) => AllHeld(before, now, m.requestId)
    ensures Faithful(codec) ==> LeavesHonest(codec, identity, child, before, now)
  {
    assert SameAt(before, now, MigrationAttempt);
  }

  /** The end reached from the installed files is the one specified from the files before. */
  lemma StartSeen(codecs: Codecs, codec: MarkerCodec, identity: string, before: Files, installed: Files, child: Child,
                  api: Api, restore: Applied, now: Files)
    requires SameView(RestoredFiles(codecs, before), installed) && !restore.Refused?
    requires restore.Installed? <==> Acceptable(codecs, before)
    requires PendingRestore in before ==> restore.Installed?
    requires restore.Installed? ==> StagedOf(restore) == Request(codecs, before).value.staged
    ensures var actual := EndOf(codec, CalmPreparation(codec, identity, child, installed),
                                PreparedFiles(codec, identity, child, installed), api, StagedOf(restore), before);
            var end := CalmStart(codecs, codec, identity, before, child, api);
            && end.started == actual.started
            && (SameView(actual.files, now) ==> SameView(end.files, now))
  {
    var expected := RestoredFiles(codecs, before);
    SamePrepared(codec, identity, child, expected, installed);
    EndSeen(codec, CalmPreparation(codec, identity, child, installed), PreparedFiles(codec, identity, child, expected),
            PreparedFiles(codec, identity, child, installed), api, StagedOf(restore), before, now);
  }

  // ---------------------------------------------------------------- what that means for the data

  lemma GivenBackFrom(before: Files, failed: Files, left: Files)
    requires forall k :: Sidecar(k) in failed <==> Sidecar(k) in left
    ensures GivenBack(before, left, GivenBackFiles(before, failed))
  {
    var now := GivenBackFiles(before, failed);
    if SameLive(before, now) {
      forall k | Sidecar(k) !in before ensures Sidecar(k) !in left {
        assert SameAt(before, now, Sidecar(k));
      }
    }
  }

  lemma NoneLeft(before: Files, failed: Files)
    requires forall k :: Sidecar(k) !in failed
    ensures SameLive(before, GivenBackFiles(before, failed))
  {
  }

  lemma OthersFromChild(codec: MarkerCodec, files: Files, child: Child, m: Marker)
    requires Database in files
    ensures BackupOf(codec, AfterCommands(files, child), m) == BackupOf(codec, child.after, m)
    ensures BackupOf(codec, Marked(codec, AfterCommands(files, child), m), m) == BackupOf(codec, child.after, m)
    ensures forall after :: BackupOf(codec, ApiEdits(Marked(codec, AfterCommands(files, child), m), after), m) ==
                            BackupOf(codec, child.after, m)
  {
  }

  lemma StoppedOutcome(codec: MarkerCodec, before: Files, installed: Files, child: Child, api: Api, staged: Path,
                       d: Decision)
    requires Database in installed && MigrationAttempt !in installed && (d.Stop? || d.RollBack?)
    ensures var edited := AfterCommands(installed, child);
            var r := if d.Stop? then Stopped(false) else Stopped(BackupOf(codec, edited, d.marker).Some?);
            var prepared := if d.Stop? then edited
                            else RolledBackFiles(codec, Marked(codec, edited, d.marker), d.marker);
            RestoredOutcome(codec, before, child, api, d, EndOf(codec, r, prepared, api, Some(staged), before))
  {
    var edited := AfterCommands(installed, child);
    if d.Stop? {
      GivenBackFrom(before, edited, child.after);
    } else {
      OthersFromChild(codec, installed, child, d.marker);
      var prepared := RolledBackFiles(codec, Marked(codec, edited, d.marker), d.marker);
      if BackedUp(codec, child, d.marker) {
        NoneLeft(before, prepared);
      } else {
        GivenBackFrom(before, prepared, child.after);
      }
    }
  }

  lemma UnmigratedOutcome(codec: MarkerCodec, before: Files, installed: Files, child: Child, api: Api, staged: Path)
    requires Database in installed && MigrationAttempt !in installed && staged.Other?
    ensures RestoredOutcome(codec, before, child, api, Decision.Start,
                            EndOf(codec, NoMigration, AfterCommands(installed, child), api, Some(staged), before))
  {
    if api.Unready? {
      GivenBackFrom(before, ApiEdits(AfterCommands(installed, child), api.after), api.after);
    }
  }

  lemma MigratedOutcome(codec: MarkerCodec, before: Files, installed: Files, child: Child, api: Api, staged: Path,
                        m: Marker)
    requires Database in installed && MigrationAttempt !in installed && staged.Other?
    ensures RestoredOutcome(codec, before, child, api, StartMigrated(m),
                            EndOf(codec, Migrated(m), Marked(codec, AfterCommands(installed, child), m), api,
                                  Some(staged), before))
  {
    OthersFromChild(codec, installed, child, m);
    if api.Unready? && BackedUp(codec, child, m) {
      var edited := ApiEdits(Marked(codec, AfterCommands(installed, child), m), api.after);
      NoneLeft(before, RolledBackFiles(codec, edited, m));
    }
  }

  /**
   A start on an installed restore, decision by decision. What a start stopped by the commands, or an
   API that never became ready on an unmigrated database, leaves beside the database decides whether
   the live files come back exactly. When a migration is undone on the way they always do. When the
   backup of a migration is missing after the API failed, the restore is not put back at all.
   */
  lemma RestoredStart(codecs: Codecs, codec: MarkerCodec, identity: string, before: Files, child: Child, api: Api)
    requires Ordinary(codecs, before) && Acceptable(codecs, before) && MigrationAttempt !in before
    ensures RestoredOutcome(codec, before, child, api, Decide(true, identity, child.preflight, child.executed),
                            CalmStart(codecs, codec, identity, before, child, api))
  {
    var d := Decide(true, identity, child.preflight, child.executed);
    var installed, staged := RestoredFiles(codecs, before), Request(codecs, before).value.staged.value;
    assert Database in installed && MigrationAttempt !in installed && DecisionFor(identity, child, installed) == d;
    match d
    case Start => UnmigratedOutcome(codec, before, installed, child, api, staged);
    case StartMigrated(m) => MigratedOutcome(codec, before, installed, child, api, staged, m);
    case _ => StoppedOutcome(codec, before, installed, child, api, staged, d);
  }

  /** Without a pending restore or a marker, decision by decision. */
  lemma PlainStart(codecs: Codecs, codec: MarkerCodec, identity: string, before: Files, child: Child, api: Api)
    requires PendingRestore !in before && MigrationAttempt !in before
    ensures PlainOutcome(codec, identity, before, child, api, CalmStart(codecs, codec, identity, before, child, api))
  {
    match DecisionFor(identity, child, before)
    case Start =>
    case Stop =>
    case RollBack(m) =>
      OthersFromChild(codec, before, child, m);
    case StartMigrated(m) =>
      PlainMigrated(codec, before, child, api, m);
  }

  lemma PlainMigrated(codec: MarkerCodec, before: Files, child: Child, api: Api, m: Marker)
    requires Database in before && MigrationAttempt !in before
    ensures var prepared := Marked(codec, AfterCommands(before, child), m);
            var end := EndOf(codec, Migrated(m), prepared, api, None, before);
            && (end.started <==> api.Ready?)
            && (api.Ready? ==> Launched(api, end))
            && (api.Unready? ==> if BackedUp(codec, child, m) then UndoneTo(codec, child.after, end.files, m)
                                 else SameLive(api.after, end.files) && MarkerIs(codec, end.files, m))
            && (api.NotSpawned? ==> SameLive(child.after, end.files) && MarkerIs(codec, end.files, m))
  {
    OthersFromChild(codec, before, child, m);
  }

  lemma MarkerStops(codecs: Codecs, codec: MarkerCodec, identity: string, before: Files, child: Child, api: Api)
    requires PendingRestore !in before && MigrationAttempt in before
    ensures MarkerOutcome(codec, identity, before, CalmStart(codecs, codec, identity, before, child, api))
  {
  }

  // These outcomes depend on the files a start is about only.

  lemma LiveSeen(source: Files, a: Files, b: Files)
    requires SameView(a, b)
    ensures SameLive(source, a) ==> SameLive(source, b)
    ensures forall backup :: Settled(a, backup) ==> Settled(b, backup)
    ensures SameAt(a, b, Database) && SameAt(a, b, MigrationAttempt)
    ensures forall k :: SameAt(a, b, Sidecar(k))
  {
    assert SameAt(a, b, Database) && SameAt(a, b, MigrationAttempt);
    forall k ensures SameAt(a, b, Sidecar(k)) {
    }
    if SameLive(source, a) {
      forall p | Live(p) ensures SameAt(source, b, p) {
        assert SameAt(source, a, p) && SameAt(a, b, p);
      }
    }
  }

  lemma GivenBackStays(before: Files, left: Files, a: Files, b: Files)
    requires SameView(a, b) && GivenBack(before, left, a)
    ensures GivenBack(before, left, b)
  {
    LiveSeen(before, a, b);
    if SameLive(before, b) {
      forall p | Live(p) ensures SameAt(before, a, p) {
        assert SameAt(before, b, p) && SameAt(a, b, p);
      }
    }
    forall k | Sidecar(k) in before ensures SameAt(before, b, Sidecar(k)) {
      assert SameAt(before, a, Sidecar(k)) && SameAt(a, b, Sidecar(k));
    }
  }

  lemma PlainSeen(codec: MarkerCodec, identity: string, before: Files, child: Child, api: Api, a: Ending, b: Ending)
    requires a.started == b.started && SameView(a.files, b.files)
    requires PlainOutcome(codec, identity, before, child, api, a)
    ensures PlainOutcome(codec, identity, before, child, api, b)
  {
    LiveSeen(before, a.files, b.files);
    LiveSeen(child.after, a.files, b.files);
    if !api.NotSpawned? {
      LiveSeen(api.after, a.files, b.files);
    }
  }

  lemma RestoredSeen(codec: MarkerCodec, before: Files, child: Child, api: Api, d: Decision, a: Ending, b: Ending)
    requires a.started == b.started && SameView(a.files, b.files)
    requires RestoredOutcome(codec, before, child, api, d, a)
    ensures RestoredOutcome(codec, before, child, api, d, b)
  {
    LiveSeen(before, a.files, b.files);
    LiveSeen(child.after, a.files, b.files);
    if !api.NotSpawned? {
      LiveSeen(api.after, a.files, b.files);
    }
    if GivenBack(before, child.after, a.files) {
      GivenBackStays(before, child.after, a.files, b.files);
    }
    if !api.NotSpawned? && GivenBack(before, api.after, a.files) {
      GivenBackStays(before, api.after, a.files, b.files);
    }
  }

  lemma OwedSeen(codecs: Codecs, codec: MarkerCodec, identity: string, before: Files, child: Child, api: Api, a: Ending,
                 b: Ending)
    requires Ordinary(codecs, before) && a.started == b.started && SameView(a.files, b.files)
    requires Owed(codecs, codec, identity, before, child, api, a)
    ensures Owed(codecs, codec, identity, before, child, api, b)
  {
    AcceptableIsChecked(codecs, before);
    LiveSeen(before, a.files, b.files);
    if SameView(before, a.files) {
      ViewsCompose(before, a.files, b.files);
    }
    if PendingRestore !in before {
      if MigrationAttempt !in before {
        PlainSeen(codec, identity, before, child, api, a, b);
      }
    } else if Acceptable(codecs, before) && MigrationAttempt !in before {
      RestoredSeen(codec, before, child, api, Decide(true, identity, child.preflight, child.executed), a, b);
      assert SameAt(a.files, b.files, Request(codecs, before).value.staged.value);
    }
  }

  /** With any marker on disk, a start that finds a pending restore gives the live files back. */
  lemma MarkedStart(codecs: Codecs, codec: MarkerCodec, identity: string, before: Files, child: Child, api: Api)
    requires Ordinary(codecs, before) && PendingRestore in before && MigrationAttempt in before
    ensures var end := CalmStart(codecs, codec, identity, before, child, api);
            !end.started && SameLive(before, end.files)
  {
    if Acceptable(codecs, before) {
      NoneLeft(before, PreparedFiles(codec, identity, child, RestoredFiles(codecs, before)));
    }
  }

  lemma OwedByCalmStart(codecs: Codecs, codec: MarkerCodec, identity: string, before: Files, child: Child, api: Api,
                        end: Ending)
    requires Ordinary(codecs, before)
    requires var expected := CalmStart(codecs, codec, identity, before, child, api);
             expected.started == end.started && SameView(expected.files, end.files)
    ensures Owed(codecs, codec, identity, before, child, api, end)
  {
    var expected := CalmStart(codecs, codec, identity, before, child, api);
    AcceptableIsChecked(codecs, before);
    assert Owed(codecs, codec, identity, before, child, api, expected) by {
      if PendingRestore !in before {
        if MigrationAttempt in before {
          MarkerStops(codecs, codec, identity, before, child, api);
        } else {
          PlainStart(codecs, codec, identity, before, child, api);
        }
      } else if Acceptable(codecs, before) {
        if MigrationAttempt in before {
          MarkedStart(codecs, codec, identity, before, child, api);
        } else {
          RestoredStart(codecs, codec, identity, before, child, api);
        }
      }
    }
    OwedSeen(codecs, codec, identity, before, child, api, expected, end);
  }

  /** A pending restore and an unfinished migration do not compose: the start records the migration as
      rolled back, and then puts the very files back that it began with, the migrated database among
      them. */
  lemma RestoreOverMarker(codecs: Codecs, codec: MarkerCodec, identity: string, before: Files, child: Child, api: Api,
                          m: Marker)
    requires Ordinary(codecs, before) && Acceptable(codecs, before) && Pending(codec, before, identity, m)
    requires BackupOf(codec, RestoredFiles(codecs, before), m).Some?
    ensures var end := CalmStart(codecs, codec, identity, before, child, api);
            && !end.started && SameLive(before, end.files)
            && MigrationAttempt in end.files && end.files[MigrationAttempt] == codec.encode(m.(status := RolledBack))
  {
    MarkedStart(codecs, codec, identity, before, child, api);
    assert PendingOf(codec, RestoredFiles(codecs, before), identity) == Some(m);
  }

  /** When nothing fails, the marker a start leaves is honest unless it installed a restore over an
      unfinished migration whose backup is on disk and was not already the database with no sidecar
      beside it: these are exactly the exceptions. */
  lemma HonestExactly(codecs: Codecs, codec: MarkerCodec, identity: string, before: Files, child: Child, api: Api,
                      m: Marker)
    requires Faithful(codec) && Ordinary(codecs, before) && Pending(codec, before, identity, m)
    ensures var restored := RestoredFiles(codecs, before);
            Honest(codec, CalmStart(codecs, codec, identity, before, child, api).files, m) <==>
            || !Acceptable(codecs, before)
            || BackupOf(codec, restored, m).None?
            || Settled(before, restored[BackupOf(codec, restored, m).value])
  {
    var restored, end := RestoredFiles(codecs, before), CalmStart(codecs, codec, identity, before, child, api);
    if PendingRestore !in before || Acceptable(codecs, before) {
      assert PendingOf(codec, restored, identity) == Some(m);
      var prepared := PreparedFiles(codec, identity, child, restored);
      SameBackup(codec, restored, prepared, m);
      SameBackup(codec, prepared, end.files, m);
      if Acceptable(codecs, before) {
        MarkedStart(codecs, codec, identity, before, child, api);
        if BackupOf(codec, restored, m).Some? {
          assert codec.parse(codec.encode(m.(status := RolledBack))) == Some(m.(status := RolledBack));
          SettledByLive(before, end.files, restored[BackupOf(codec, restored, m).value]);
        }
      }
    }
  }

  /** The start's own migration is undone before it ends. */
  predicate UndoesMigration(codec: MarkerCodec, child: Child, api: Api, d: Decision)
    requires d.RollBack? || d.StartMigrated?
  {
    (d.RollBack? || api.Unready?) && BackedUp(codec, child, d.marker)
  }

  /** The failed files of a start that undoes its migration, and what of them the marker is about. */
  lemma UndoneIsRecorded(codec: MarkerCodec, identity: string, child: Child, api: Api, restored: Files)
    requires MigrationAttempt !in restored && Database in restored
    requires var d := DecisionFor(identity, child, restored);
             (d.RollBack? || d.StartMigrated?) && UndoesMigration(codec, child, api, d)
    ensures var m := DecisionFor(identity, child, restored).marker;
            var failed := FailedFiles(codec, CalmPreparation(codec, identity, child, restored),
                                      PreparedFiles(codec, identity, child, restored), api);
            && failed.Some? && Settled(failed.value, child.after[BackupOf(codec, child.after, m).value])
            && MigrationAttempt in failed.value
            && failed.value[MigrationAttempt] == codec.encode(m.(status := RolledBack))
            && forall p: Path :: p.Other? ==> SameAt(child.after, failed.value, p)
  {
    OthersFromChild(codec, restored, child, DecisionFor(identity, child, restored).marker);
  }

  /** A start that does not undo its migration leaves no marker, or the one it has published. */
  lemma NotUndoneIsUnrecorded(codecs: Codecs, codec: MarkerCodec, identity: string, before: Files,
                              child: Child, api: Api)
    requires MigrationAttempt !in before && Ordinary(codecs, before)
    requires var d := DecisionFor(identity, child, RestoredFiles(codecs, before));
             (d.RollBack? || d.StartMigrated?) && !UndoesMigration(codec, child, api, d)
    ensures var end := CalmStart(codecs, codec, identity, before, child, api).files;
            MigrationAttempt in end ==>
              end[MigrationAttempt] == codec.encode(DecisionFor(identity, child, RestoredFiles(codecs, before)).marker)
  {
    var restored := RestoredFiles(codecs, before);
    OthersFromChild(codec, restored, child, DecisionFor(identity, child, restored).marker);
  }

  /** The same for a migration the start itself has made: when nothing fails its marker is dishonest
      exactly when the migration was undone on an installed restore and the files from before the
      restore, which come back, are not the backup with no sidecar beside it. */
  lemma HonestAfterMigration(codecs: Codecs, codec: MarkerCodec, identity: string, before: Files, child: Child,
                             api: Api)
    requires Faithful(codec) && Ordinary(codecs, before) && MigrationAttempt !in before
    requires var d := DecisionFor(identity, child, RestoredFiles(codecs, before)); d.RollBack? || d.StartMigrated?
    ensures var d := DecisionFor(identity, child, RestoredFiles(codecs, before));
            Honest(codec, CalmStart(codecs, codec, identity, before, child, api).files, d.marker) <==>
            || !Acceptable(codecs, before)
            || !UndoesMigration(codec, child, api, d)
            || Settled(before, child.after[BackupOf(codec, child.after, d.marker).value])
  {
    var restored := RestoredFiles(codecs, before);
    var d := DecisionFor(identity, child, restored);
    assert codec.parse(codec.encode(d.marker)) == Some(d.marker);
    if !UndoesMigration(codec, child, api, d) {
      NotUndoneIsUnrecorded(codecs, codec, identity, before, child, api);
    } else if PendingRestore !in before || Acceptable(codecs, before) {
      UndoneIsRecorded(codec, identity, child, api, restored);
      var failed := FailedFiles(codec, CalmPreparation(codec, identity, child, restored),
                                PreparedFiles(codec, identity, child, restored), api).value;
      var end := if Acceptable(codecs, before) then GivenBackFiles(before, failed) else failed;
      assert CalmStart(codecs, codec, identity, before, child, api).files == end;
      HonestEnd(codec, child, before, failed, end, d.marker);
    }
  }

  lemma HonestEnd(codec: MarkerCodec, child: Child, before: Files, failed: Files, end: Files, m: Marker)
    requires Faithful(codec) && BackedUp(codec, child, m)
    requires Settled(failed, child.after[BackupOf(codec, child.after, m).value])
    requires MigrationAttempt in failed && failed[MigrationAttempt] == codec.encode(m.(status := RolledBack))
    requires forall p: Path :: p.Other? ==> SameAt(child.after, failed, p)
    ensures end == failed ==> Honest(codec, end, m)
    ensures end == GivenBackFiles(before, failed) ==>
              (Honest(codec, end, m) <==> Settled(before, child.after[BackupOf(codec, child.after, m).value]))
  {
    SameBackup(codec, child.after, failed, m);
    if end == GivenBackFiles(before, failed) {
      NoneLeft(before, failed);
      SettledByLive(before, end, child.after[BackupOf(codec, child.after, m).value]);
      forall p: Path | p.Other? ensures SameAt(failed, end, p) {
      }
      SameBackup(codec, failed, end, m);
    }
  }

  lemma SettledByLive(a: Files, b: Files, backup: Bytes)
    requires SameLive(a, b)
    ensures Settled(a, backup) <==> Settled(b, backup)
  {
    assert SameAt(a, b, Database);
    assert forall k :: SameAt(a, b, Sidecar(k));
  }

  /** Without a restore, a migration whose start fails leaves the backup as the database. */
  lemma MigratedStartFails(codecs: Codecs, codec: MarkerCodec, identity: string, before: Files, child: Child, api: Api)
    requires PendingRestore !in before && MigrationAttempt !in before && Database in before && api.Unready?
    ensures var d, end := Decide(true, identity, child.preflight, child.executed),
                          CalmStart(codecs, codec, identity, before, child, api);
            d.StartMigrated? && BackedUp(codec, child, d.marker) ==>
              && !end.started && Settled(end.files, child.after[BackupOf(codec, child.after, d.marker).value])
              && MigrationAttempt in end.files
                 && end.files[MigrationAttempt] == codec.encode(d.marker.(status := RolledBack))
  {
  }
}
