/**
 The handshake carried out on disk: the migration commands work on a database whose bytes are the
 shell's database file, and the shell acts on the records they write
 (desktop-shell/src-tauri/src/main.rs:936-1062, apps/api/app/runtime/migration_contract.py:102-195).

 `store` gives the bytes of a database; the safety backup is a copy of them.
 */
module Upgrade {
  import opened Wrappers
  import opened Disk
  import opened MigrationContract
  import opened MigrationRollback
  import S = SchemaMigrator
  import H = Handshake

  /** The database and other files as the commands leave them, with the safety backup if it was taken. */
  function CommandsLeave<D>(codec: MarkerCodec, site: H.Site<D>, beside: Files, database: Bytes,
                            backup: Option<Bytes>): Files
  {
    var files := beside[Database := database];
    if backup.None? || !site.snapshot.Taken? || codec.resolve(site.snapshot.reference).None? then files
    else files[Other(codec.resolve(site.snapshot.reference).value) := backup.value]
  }

  /** The marker's backup is on disk and holds the database as it was. */
  predicate BackupHolds(codec: MarkerCodec, files: Files, m: Marker, bytes: Bytes) {
    BackupOf(codec, files, m).Some? && files[BackupOf(codec, files, m).value] == bytes
  }

  /** What a start in which no statement and no file operation fails decides. */
  ghost predicate CalmUpgrade<D>(db: S.Db<D>, site: H.Site<D>, identity: string, r: Preparation) {
    && (r.NoMigration? <==>
          S.Holds(db, site.target) && !S.JournalShows(db, S.InProgress) && !S.JournalShows(db, S.Failed))
    && (r.Migrated? <==>
          site.snapshot.Taken? && H.MayUpgrade(db, site) && H.Works(db, site) && identity == site.identity)
    && (r.Stopped? && r.undone <==>
          && site.snapshot.Taken? && H.MayUpgrade(db, site) && !H.Works(db, site)
          && !S.Registered(db, site.attempt))
  }

  /** The database as the commands left it is in place or in the evidence of this attempt. */
  predicate Recoverable(files: Files, attempt: string, bytes: Bytes) {
    || (Database in files && files[Database] == bytes)
    || EvidenceOf(files, attempt) == Some(bytes)
  }

  /** What a start leaves of the database; `db` and `now` are it before and after the commands. */
  ghost predicate UpgradeOutcome<D>(codec: MarkerCodec, site: H.Site<D>, identity: string, store: S.Db<D> -> Bytes,
                                    db: S.Db<D>, now: S.Db<D>, files: Files, r: Preparation)
  {
    && (r.NoMigration? ==>
          && now == db && S.Holds(db, site.target)
          && Database in files && files[Database] == store(db))
    && (r.Migrated? ==>
          && H.MigratedUnder(db, now, site, r.marker)
          && Database in files && files[Database] == store(now)
          && Pending(codec, files, identity, r.marker)
          && BackupHolds(codec, files, r.marker, store(db)))
    && (r.Stopped? && r.undone ==> Settled(files, store(db)))
    && (r.Stopped? ==> Recoverable(files, site.attempt, store(now)))
  }

  /**
   A start without a marker. The API is started without a migration only on a current or absent
   database. It is started after a migration only when the database on disk is the migrated one and a
   marker on disk, together with a backup holding the database as it was, makes the next start undo
   the migration. A start that stops after a completed rollback has put that database back; any stop
   leaves the database of the commands in place or in evidence. When nothing fails the database
   determines which of these it is.
   */
  method UpgradeOnDisk<D>(disk: Volume, codec: MarkerCodec, file: S.DatabaseFile<D>, site: H.Site<D>, identity: string,
                          store: S.Db<D> -> Bytes, beside: Files) returns (r: Preparation)
    requires Faithful(codec) && MigrationAttempt !in disk.files
    requires Database in disk.files ==> disk.files[Database] == store(file.committed)
    requires site.snapshot.Taken? ==> codec.resolve(site.snapshot.reference).Some?
    modifies disk, file
    ensures Database !in old(disk.files) ==>
              r.NoMigration? && disk.files == old(disk.files) && file.committed == old(file.committed)
    ensures Database in old(disk.files) ==>
              UpgradeOutcome(codec, site, identity, store, old(file.committed), file.committed, disk.files, r)
    ensures (disk.Calm(old(disk.clock), disk.clock) && file.Calm(old(file.clock), file.clock)
             && Database in old(disk.files) && site.pathError.None?
             && U32(site.target) && site.target > 0) ==>
              CalmUpgrade(old(file.committed), site, identity, r)
  {
    ghost var before, db, start, tick := disk.files, file.committed, disk.clock, file.clock;
    var original := store(file.committed);
    var d, preflight, executed, stage := H.PrepareDatabase(file, site, Database in disk.files, identity);
    var child := Child(preflight, executed,
                       CommandsLeave(codec, site, beside, store(file.committed),
                                     if AsksForUpgrade(preflight) then Some(original) else None));
    ghost var marked, reached;
    r, marked, reached := PrepareMigration(disk, codec, identity, child);
    if Database in before {
      OutcomeSeen(codec, site, identity, store, db, file.committed, d, stage, before, marked, disk.files, beside, child,
                  r, reached);
      if disk.Calm(start, disk.clock) && file.Calm(tick, file.clock) && site.pathError.None?
         && U32(site.target) && site.target > 0 {
        CalmSeen(codec, site, identity, store, db, file.committed, d, stage, before, marked, disk.files, beside, child,
                 r, reached);
      }
    }
  }

  /** The commands and the shell's preparation, put together. */
  ghost predicate Together<D>(codec: MarkerCodec, site: H.Site<D>, identity: string, store: S.Db<D> -> Bytes,
                              db: S.Db<D>, now: S.Db<D>, d: Decision, stage: S.Stage, before: Files, marked: Files,
                              files: Files, beside: Files, child: Child, r: Preparation, reached: bool)
  {
    && Faithful(codec) && Database in before
    && (site.snapshot.Taken? ==> codec.resolve(site.snapshot.reference).Some?)
    && d == Decide(true, identity, child.preflight, child.executed)
    && H.StartOutcome(db, now, site, true, identity, d, child.preflight, stage)
    && child.after == CommandsLeave(codec, site, beside, store(now),
                                    if AsksForUpgrade(child.preflight) then Some(store(db)) else None)
    && FreshOutcome(codec, before, marked, files, identity, child, r, reached)
  }

  lemma OutcomeSeen<D>(codec: MarkerCodec, site: H.Site<D>, identity: string, store: S.Db<D> -> Bytes, db: S.Db<D>,
                       now: S.Db<D>, d: Decision, stage: S.Stage, before: Files, marked: Files, files: Files,
                       beside: Files, child: Child, r: Preparation, reached: bool)
    requires Together(codec, site, identity, store, db, now, d, stage, before, marked, files, beside, child, r, reached)
    ensures UpgradeOutcome(codec, site, identity, store, db, now, files, r)
  {
    if d.StartMigrated? || d.RollBack? {
      BackupLeft(codec, site, before, beside, child, d.marker, store(now), store(db));
      FreshLeaves(codec, before, marked, files, identity, child, r, reached, d.marker, store(db));
    }
    if r.Stopped? {
      StopLeaves(codec, before, marked, files, identity, child, r, reached, site.attempt, store(now));
    }
  }

  lemma CalmSeen<D>(codec: MarkerCodec, site: H.Site<D>, identity: string, store: S.Db<D> -> Bytes, db: S.Db<D>,
                    now: S.Db<D>, d: Decision, stage: S.Stage, before: Files, marked: Files, files: Files,
                    beside: Files, child: Child, r: Preparation, reached: bool)
    requires Together(codec, site, identity, store, db, now, d, stage, before, marked, files, beside, child, r, reached)
    requires FreshCompletes(codec, before, marked, identity, child, r)
    requires H.Right(db, site, identity, d)
    ensures CalmUpgrade(db, site, identity, r)
  {
    CalmResult(codec, before, marked, files, identity, child, r, reached);
    if d.RollBack? {
      BackupLeft(codec, site, before, beside, child, d.marker, store(now), store(db));
    }
  }

  /** Without failing file operations the result is that of the decision. */
  lemma CalmResult(codec: MarkerCodec, before: Files, marked: Files, now: Files, identity: string, child: Child,
                   r: Preparation, reached: bool)
    requires FreshOutcome(codec, before, marked, now, identity, child, r, reached) && Database in before
    requires FreshCompletes(codec, before, marked, identity, child, r)
    ensures var d := Decide(true, identity, child.preflight, child.executed);
            && (r.NoMigration? <==> d.Start?)
            && (r.Migrated? <==> d.StartMigrated?)
            && (r.Stopped? && r.undone <==>
                  d.RollBack? && BackupOf(codec, AfterCommands(before, child), d.marker).Some?)
  {
  }

  /** Where a start that stops leaves the database of the commands. */
  lemma StopLeaves(codec: MarkerCodec, before: Files, marked: Files, now: Files, identity: string, child: Child,
                   r: Preparation, reached: bool, attempt: string, bytes: Bytes)
    requires FreshOutcome(codec, before, marked, now, identity, child, r, reached) && r.Stopped? && Database in before
    requires Database in AfterCommands(before, child) && AfterCommands(before, child)[Database] == bytes
    requires var d := Decide(true, identity, child.preflight, child.executed);
             d.RollBack? ==> d.marker.attempt == attempt
    ensures Recoverable(now, attempt, bytes)
  {
    var edited := AfterCommands(before, child);
    if MarkerAside(edited, now) {
      assert SameAt(edited, now, Database);
    } else {
      assert SameAt(edited, marked, Database);
      assert Live(Database);
    }
  }

  lemma BackupLeft<D>(codec: MarkerCodec, site: H.Site<D>, before: Files, beside: Files, child: Child, m: Marker,
                      database: Bytes, original: Bytes)
    requires H.Bound(site, m) && codec.resolve(site.snapshot.reference).Some? && Database in before
    requires child.after == CommandsLeave(codec, site, beside, database, Some(original))
    ensures BackupHolds(codec, AfterCommands(before, child), m, original)
    ensures Database in AfterCommands(before, child) && AfterCommands(before, child)[Database] == database
  {
  }

  /** What the start leaves of the backup, and of the database when the migration was undone. */
  lemma FreshLeaves(codec: MarkerCodec, before: Files, marked: Files, now: Files, identity: string, child: Child,
                    r: Preparation, reached: bool, m: Marker, original: Bytes)
    requires Faithful(codec) && FreshOutcome(codec, before, marked, now, identity, child, r, reached)
    requires BackupHolds(codec, AfterCommands(before, child), m, original)
    requires var d := Decide(Database in before, identity, child.preflight, child.executed);
             (d.StartMigrated? || d.RollBack?) && d.marker == m
    ensures r.Migrated? ==> Pending(codec, now, identity, m) && BackupHolds(codec, now, m, original)
                            && SameAt(AfterCommands(before, child), now, Database)
    ensures r.Stopped? && r.undone ==> Settled(now, original)
  {
    var edited := AfterCommands(before, child);
    if r.Migrated? {
      MigratedIsPending(codec, before, marked, now, identity, child, r, reached);
      SameBackup(codec, edited, now, m);
    } else if MarkerAside(edited, marked) {
      SameBackup(codec, edited, marked, m);
    }
  }

  /** Whatever the API has written to the live files, undoing the migration brings the old database back. */
  lemma UndoneUpgrade(codec: MarkerCodec, ready: Files, edited: Files, now: Files, m: Marker, original: Bytes,
                      ok: bool, reached: bool)
    requires BackupHolds(codec, ready, m, original) && forall p: Path :: p.Other? ==> SameAt(ready, edited, p)
    requires RollbackOutcome(codec, edited, now, m, ok, reached) && reached
    ensures Settled(now, original)
  {
  }

  /**
   An interrupted rollback of a failed migration is completed by one undisturbed start, with the
   database as it was before the upgrade, if and only if the shell knows the database under the
   identity the API uses. Otherwise no start changes a file.
   */
  lemma ResumedUpgrade<D>(codec: MarkerCodec, site: H.Site<D>, identity: string, store: S.Db<D> -> Bytes, db: S.Db<D>,
                          now: S.Db<D>, d: Decision, stage: S.Stage, before: Files, marked: Files, beside: Files,
                          child: Child, r: Preparation, reached: bool, disk: Volume, states: seq<Files>,
                          links: seq<Link>, ticks: seq<nat>, i: nat, n: nat)
    requires i < n <= |links| < |ticks| && |states| == |links| + 1
    requires Together(codec, site, identity, store, db, now, d, stage, before, marked, states[0], beside, child, r,
                      reached)
    requires d.RollBack? && !r.undone && MigrationAttempt in states[0]
    requires IsUndoing(codec, identity, d.marker, states, links)
    requires TimedLink(disk, codec, identity, d.marker, states[i], links[i], ticks[i], ticks[i + 1])
    requires disk.Calm(ticks[i], ticks[i + 1])
    ensures Recorded(codec, states[n], d.marker) <==> identity == site.identity
    ensures if identity == site.identity then Settled(states[n], store(db)) else states[n] == states[0]
  {
    BackupLeft(codec, site, before, beside, child, d.marker, store(now), store(db));
    FailedIsOpen(codec, before, marked, states[0], identity, child, r, reached, d.marker);
    ResumedExactly(disk, codec, identity, d.marker, states, links, ticks, i, n);
  }

  /** Under different identities every due upgrade that fails can lose the database that way: it is gone
      from its place, its backup is on disk, and any number of starts leave both as they are. */
  method StrandUpgrade<D>(codec: MarkerCodec, db: S.Db<D>, site: H.Site<D>, identity: string, store: S.Db<D> -> Bytes,
                          files: Files, beside: Files, children: seq<Child>) returns (disk: Volume, m: Marker)
    requires Faithful(codec) && MigrationAttempt !in files && Database in files && files[Database] == store(db)
    requires site.pathError.None? && site.snapshot.Taken? && codec.resolve(site.snapshot.reference).Some?
    requires U32(site.target) && site.target > 0 && identity != site.identity
    requires H.MayUpgrade(db, site) && !H.Works(db, site) && !S.Registered(db, site.attempt)
    ensures fresh(disk) && Database !in disk.files
    ensures Open(codec, disk.files, m) && BackupHolds(codec, disk.files, m, store(db))
  {
    var file := new S.DatabaseFile(db, k => S.Proceeds);
    var d, preflight, executed, stage := H.PrepareDatabase(file, site, true, identity);
    var child := Child(preflight, executed,
                       CommandsLeave(codec, site, beside, store(file.committed),
                                     if AsksForUpgrade(preflight) then Some(store(db)) else None));
    m := d.marker;
    BackupLeft(codec, site, files, beside, child, m, store(file.committed), store(db));
    disk := Strand(codec, identity, child, files, m, children);
  }
}
