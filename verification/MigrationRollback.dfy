/**
 Undoing a migration from its safety backup, and the marker that makes every later start finish
 the undoing (desktop-shell/src-tauri/src/main.rs:797-805, 896-1062).

 A call may stop anywhere: the volume's oracle may fail any operation, or all of them from some
 point on, which is the death of the process.
 */
module MigrationRollback {
  import opened Wrappers
  import opened Disk
  import opened MigrationContract

  /** Encoding markers and resolving references; arbitrary functions, but a reference never
      resolves to one of the shell's own paths. */
  datatype MarkerCodec =
    MarkerCodec(parse: Bytes -> Option<Marker>, encode: Marker -> Bytes, resolve: string -> Option<string>)

  ghost predicate Faithful(codec: MarkerCodec) {
    forall m {:trigger codec.encode(m)} :: codec.parse(codec.encode(m)) == Some(m)
  }

  /** The backup a marker is bound to, when there is one on disk. */
  function BackupOf(codec: MarkerCodec, files: Files, m: Marker): (b: Option<Path>)
    ensures b.Some? ==> b.value.Other? && b.value in files
  {
    if m.reference.None? then None
    else
      match codec.resolve(m.reference.value)
      case None => None
      case Some(name) => if Other(name) in files then Some(Other(name)) else None
  }

  /** A backup counts when the marker refers to it, the reference resolves, and the file is there. */
  lemma BackupOfExactly(codec: MarkerCodec, files: Files, m: Marker, p: Path)
    ensures BackupOf(codec, files, m) == Some(p) <==>
            && m.reference.Some? && codec.resolve(m.reference.value).Some?
            && p == Other(codec.resolve(m.reference.value).value) && p in files
  {
  }

  /** The database is the backup and no sidecar is left beside it. */
  ghost predicate Settled(files: Files, backup: Bytes) {
    Database in files && files[Database] == backup && forall k :: Sidecar(k) !in files
  }

  /** The evidence file that takes a live file aside. */
  function Aside(attempt: string, p: Path): Path
    requires Live(p)
  {
    match p
    case Database => Evidence(attempt, FailedDatabase)
    case Sidecar(k) => Evidence(attempt, FailedSidecar(k))
  }

  /** The bytes of a live file are at its place or in evidence. */
  ghost predicate Preserved(before: Files, now: Files, attempt: string) {
    forall p :: Live(p) && p in before ==>
      || (p in now && now[p] == before[p])
      || (Aside(attempt, p) in now && now[Aside(attempt, p)] == before[p])
  }

  predicate RollbackEdits(p: Path, attempt: string) {
    || Live(p) || p.RollbackTemp? || (p.Evidence? && p.attempt == attempt)
    || p.MigrationAttempt? || p.MigrationAttemptTemp?
  }

  function EvidenceOf(files: Files, attempt: string): Option<Bytes> {
    var p := Evidence(attempt, FailedDatabase);
    if p in files then Some(files[p]) else None
  }

  /** The database a rollback would keep: the one in place, else the one already in evidence. */
  function Suspect(files: Files, attempt: string): Option<Bytes> {
    if Database in files then Some(files[Database]) else EvidenceOf(files, attempt)
  }

  /** The first `n` kinds of sidecars that are present. */
  function SidecarCount(files: Files, n: nat): (count: nat)
    requires n <= |KINDS|
    ensures count <= n
  {
    if n == 0 then 0 else SidecarCount(files, n - 1) + if Sidecar(KINDS[n - 1]) in files then 1 else 0
  }

  lemma {:induction false} CountClimbs(files: Files, i: nat, n: nat)
    requires i <= n <= |KINDS|
    ensures SidecarCount(files, i) <= SidecarCount(files, n)
    decreases n
  {
  }

  /** The renames that take the live files aside. */
  function Moves(files: Files): nat {
    SidecarCount(files, |KINDS|) + if Database in files then 1 else 0
  }

  // ---------------------------------------------------------------- one rollback

  predicate InEvidence(before: Files, now: Files, attempt: string, p: Path)
    requires Live(p)
  {
    p in before && p !in now && Aside(attempt, p) in now && now[Aside(attempt, p)] == before[p]
  }

  /** The sidecars of the kinds in `done` are gone, those that were there to evidence. */
  ghost predicate AsideSoFar(before: Files, now: Files, attempt: string, done: seq<SidecarKind>) {
    && (forall p: Path :: !p.Sidecar? && !(p.Evidence? && p.attempt == attempt && p.item.FailedSidecar?) ==>
          SameAt(before, now, p))
    && (forall k :: SameAt(before, now, Sidecar(k)) || InEvidence(before, now, attempt, Sidecar(k)))
    && (forall k :: if k in done then Sidecar(k) !in now else SameAt(before, now, Sidecar(k)))
  }

  lemma AsideStep(before: Files, now: Files, attempt: string, done: seq<SidecarKind>, kind: SidecarKind)
    requires AsideSoFar(before, now, attempt, done) && kind !in done
    ensures var next := if Sidecar(kind) in now then Moved(now, Sidecar(kind), Evidence(attempt, FailedSidecar(kind)))
                        else now;
            AsideSoFar(before, next, attempt, done + [kind])
  {
  }

  method SetSidecarsAside(disk: Volume, attempt: string) returns (ok: bool)
    modifies disk
    ensures disk.clock >= old(disk.clock)
    ensures forall p: Path :: !p.Sidecar? && !(p.Evidence? && p.attempt == attempt && p.item.FailedSidecar?) ==>
              SameAt(old(disk.files), disk.files, p)
    ensures forall k :: || SameAt(old(disk.files), disk.files, Sidecar(k))
                        || InEvidence(old(disk.files), disk.files, attempt, Sidecar(k))
    ensures ok ==> forall k :: Sidecar(k) !in disk.files
    ensures ok <==> disk.Calm(old(disk.clock), old(disk.clock) + SidecarCount(old(disk.files), |KINDS|))
    ensures ok ==> disk.clock == old(disk.clock) + SidecarCount(old(disk.files), |KINDS|)
    ensures disk.Calm(old(disk.clock), disk.clock) ==> ok
  {
    ghost var before, start := disk.files, disk.clock;
    var i := 0;
    while i < |KINDS|
      invariant 0 <= i <= |KINDS| && disk.clock == start + SidecarCount(before, i) && disk.Calm(start, disk.clock)
      invariant AsideSoFar(before, disk.files, attempt, KINDS[..i])
    {
      var kind := KINDS[i];
      assert KINDS[..i + 1] == KINDS[..i] + [kind] && kind !in KINDS[..i];
      AsideStep(before, disk.files, attempt, KINDS[..i], kind);
      if Sidecar(kind) in disk.files {
        ghost var t := disk.clock;
        CountClimbs(before, i + 1, |KINDS|);
        ok := disk.Rename(Sidecar(kind), Evidence(attempt, FailedSidecar(kind)));
        if !ok {
          assert disk.fails(t);
          return;
        }
      }
      i := i + 1;
    }
    forall k ensures Sidecar(k) !in disk.files {
      KindsAreAll(k);
    }
    ok := true;
  }

  /** Moves the failed database and its sidecars to evidence. */
  method SetAside(disk: Volume, attempt: string) returns (ok: bool)
    modifies disk
    ensures disk.clock >= old(disk.clock)
    ensures forall p: Path :: !Live(p) && !(p.Evidence? && p.attempt == attempt) ==>
              SameAt(old(disk.files), disk.files, p)
    ensures Preserved(old(disk.files), disk.files, attempt)
    ensures Suspect(disk.files, attempt) == Suspect(old(disk.files), attempt)
    ensures ok ==> forall p :: Live(p) ==> p !in disk.files
    ensures !disk.fails(old(disk.clock)) ==> Database !in disk.files
    ensures ok <==> disk.Calm(old(disk.clock), old(disk.clock) + Moves(old(disk.files)))
    ensures ok ==> disk.clock == old(disk.clock) + Moves(old(disk.files))
    ensures disk.Calm(old(disk.clock), disk.clock) ==> ok
  {
    ghost var before, t := disk.files, disk.clock;
    if Database in disk.files {
      ok := disk.Rename(Database, Evidence(attempt, FailedDatabase));
      if !ok {
        assert disk.fails(t);
        return;
      }
    }
    ghost var middle := disk.files;
    SameSidecars(before, middle, |KINDS|);
    ok := SetSidecarsAside(disk, attempt);
    DatabaseThenSidecarsAside(before, middle, disk.files, attempt);
  }

  lemma {:induction false} SameSidecars(a: Files, b: Files, n: nat)
    requires n <= |KINDS| && forall k :: SameAt(a, b, Sidecar(k))
    ensures SidecarCount(a, n) == SidecarCount(b, n)
    decreases n
  {
    if n > 0 {
      assert SameAt(a, b, Sidecar(KINDS[n - 1]));
      SameSidecars(a, b, n - 1);
    }
  }

  lemma DatabaseThenSidecarsAside(before: Files, middle: Files, now: Files, attempt: string)
    requires middle == if Database in before then Moved(before, Database, Evidence(attempt, FailedDatabase)) else before
    requires forall p: Path :: !p.Sidecar? && !(p.Evidence? && p.attempt == attempt && p.item.FailedSidecar?) ==>
               SameAt(middle, now, p)
    requires forall k :: SameAt(middle, now, Sidecar(k)) || InEvidence(middle, now, attempt, Sidecar(k))
    ensures Database !in now
    ensures Preserved(before, now, attempt)
    ensures Suspect(now, attempt) == Suspect(before, attempt)
    ensures forall p: Path :: !Live(p) && !(p.Evidence? && p.attempt == attempt) ==> SameAt(before, now, p)
  {
    assert SameAt(middle, now, Database) && SameAt(middle, now, Evidence(attempt, FailedDatabase));
    forall p | Live(p) && p in before
      ensures (p in now && now[p] == before[p]) || (Aside(attempt, p) in now && now[Aside(attempt, p)] == before[p])
    {
      if p.Sidecar? {
        assert SameAt(before, middle, p);
        assert SameAt(middle, now, Sidecar(p.kind)) || InEvidence(middle, now, attempt, Sidecar(p.kind));
      }
    }
  }

  /** Copies the backup beside the database and renames it into place. */
  method InstallBackup(disk: Volume, backup: Path) returns (ok: bool)
    requires backup.Other? && backup in disk.files
    modifies disk
    ensures disk.clock >= old(disk.clock)
    ensures forall p: Path :: !p.RollbackTemp? && (ok ==> !p.Database?) ==> SameAt(old(disk.files), disk.files, p)
    ensures ok ==> Database in disk.files && disk.files[Database] == old(disk.files)[backup]
    ensures ok <==> disk.Calm(old(disk.clock), old(disk.clock) + 2)
    ensures ok ==> disk.clock == old(disk.clock) + 2
    ensures disk.Calm(old(disk.clock), disk.clock) ==> ok
  {
    ghost var t := disk.clock;
    ok := disk.Copy(backup, RollbackTemp);
    if !ok {
      assert disk.fails(t);
      return;
    }
    t := disk.clock;
    ok := disk.Rename(RollbackTemp, Database);
    if !ok {
      assert disk.fails(t);
      var removed := disk.Remove(RollbackTemp);
    }
  }

  /**
   What a rollback that may stop anywhere has done; `reached` is whether it got the backup installed,
   `ok` whether it also recorded that. Only a completed one changes the marker, and then the database
   is the backup and no sidecar is beside it. In any case the bytes of every live file are at their
   place or in evidence, and the backup is untouched. From the installation on the evidence is the
   database that was there before.
   */
  ghost predicate RollbackOutcome(codec: MarkerCodec, before: Files, now: Files, m: Marker, ok: bool, reached: bool) {
    var b := BackupOf(codec, before, m);
    && (b.None? ==> !ok && !reached && now == before)
    && (forall p :: !RollbackEdits(p, m.attempt) ==> SameAt(before, now, p))
    && Preserved(before, now, m.attempt)
    && (!ok ==> SameAt(before, now, MigrationAttempt))
    && (ok ==> reached && MigrationAttempt in now && now[MigrationAttempt] == codec.encode(m.(status := RolledBack)))
    && (reached ==> b.Some? && Settled(now, before[b.value]))
    && (reached ==> EvidenceOf(now, m.attempt) == Suspect(before, m.attempt))
    && (!reached ==> Suspect(now, m.attempt) == Suspect(before, m.attempt))
  }

  method RollbackMigration(disk: Volume, codec: MarkerCodec, m: Marker) returns (ok: bool, ghost reached: bool)
    modifies disk
    ensures disk.clock >= old(disk.clock)
    ensures RollbackOutcome(codec, old(disk.files), disk.files, m, ok, reached)
    ensures forall attempt, e :: attempt != m.attempt ==> SameAt(old(disk.files), disk.files, Evidence(attempt, e))
    ensures BackupOf(codec, old(disk.files), m).Some? ==>
              && (reached <==> disk.Calm(old(disk.clock), old(disk.clock) + Moves(old(disk.files)) + 2))
              && (ok <==> disk.Calm(old(disk.clock), old(disk.clock) + Moves(old(disk.files)) + 4))
              && (disk.Calm(old(disk.clock), disk.clock) ==> ok)
              && (!disk.fails(old(disk.clock)) && !reached ==> Database !in disk.files)
  {
    ghost var before, start := disk.files, disk.clock;
    reached := false;
    var backup := BackupOf(codec, disk.files, m);
    if backup.None? {
      return false, reached;
    }
    ok := SetAside(disk, m.attempt);
    if ok {
      ghost var cleared := disk.files;
      assert SameAt(before, cleared, backup.value) && SameAt(before, cleared, MigrationAttempt);
      ok := InstallBackup(disk, backup.value);
      ghost var installed := disk.files;
      assert SameAt(cleared, installed, MigrationAttempt) && (!ok ==> SameAt(cleared, installed, Database));
      reached := ok;
      if ok {
        assert disk.Calm(start, disk.clock);
        ok := disk.Publish(MigrationAttempt, MigrationAttemptTemp, codec.encode(m.(status := RolledBack)));
        assert !ok ==> SameAt(installed, disk.files, MigrationAttempt);
      }
      Composed(before, cleared, installed, disk.files, m);
    }
  }

  /** The steps of a rollback seen from its start. */
  lemma Composed(before: Files, cleared: Files, installed: Files, now: Files, m: Marker)
    requires forall p: Path :: !Live(p) && !(p.Evidence? && p.attempt == m.attempt) ==> SameAt(before, cleared, p)
    requires forall p: Path :: !p.RollbackTemp? && !p.Database? ==> SameAt(cleared, installed, p)
    requires forall p: Path :: !p.MigrationAttempt? && !p.MigrationAttemptTemp? ==> SameAt(installed, now, p)
    requires Preserved(before, cleared, m.attempt) && Database !in cleared
    ensures forall p :: !RollbackEdits(p, m.attempt) ==> SameAt(before, now, p)
    ensures Preserved(before, now, m.attempt)
    ensures SameAt(installed, now, Database)
    ensures EvidenceOf(now, m.attempt) == EvidenceOf(cleared, m.attempt)
    ensures (forall p :: Live(p) ==> p !in cleared) ==> forall k :: Sidecar(k) !in now
  {
    forall p: Path | p.Sidecar? || p.Evidence? ensures SameAt(cleared, now, p) {
      assert SameAt(cleared, installed, p) && SameAt(installed, now, p);
    }
    assert SameAt(cleared, now, Evidence(m.attempt, FailedDatabase));
    forall k ensures SameAt(cleared, now, Sidecar(k)) {
    }
    forall p | !RollbackEdits(p, m.attempt) ensures SameAt(before, now, p) {
      assert SameAt(before, cleared, p) && SameAt(cleared, installed, p) && SameAt(installed, now, p);
    }
    forall p | Live(p) && p in before
      ensures (p in now && now[p] == before[p]) || (Aside(m.attempt, p) in now && now[Aside(m.attempt, p)] == before[p])
    {
      assert SameAt(cleared, now, Aside(m.attempt, p));
    }
  }

  // ---------------------------------------------------------------- one start

  /** The child processes: what they write, and the live and other files as they leave them. Opening
      the database alone may already change these, when an earlier process left a hot journal. */
  datatype Child = Child(preflight: Option<Contract>, executed: Option<Contract>, after: Files)

  function ChildEdits(files: Files, after: Files): Files {
    map p | p in files.Keys + after.Keys && (if Live(p) || p.Other? then p in after else p in files)
      :: if Live(p) || p.Other? then after[p] else files[p]
  }

  /** The files once the commands a start runs have ended. */
  function AfterCommands(files: Files, child: Child): Files {
    if Database in files then ChildEdits(files, child.after) else files
  }

  /** `undone` tells the two ways of stopping apart: after a completed rollback, or otherwise. */
  datatype Preparation = NoMigration | Migrated(marker: Marker) | Stopped(undone: bool)

  /** A marker, for whatever database, whose migration has not been undone. */
  predicate Open(codec: MarkerCodec, files: Files, m: Marker) {
    && MigrationAttempt in files && codec.parse(files[MigrationAttempt]) == Some(m)
    && m.version == 1 && !m.status.RolledBack?
  }

  /** Such a marker for this database. */
  predicate Pending(codec: MarkerCodec, files: Files, identity: string, m: Marker) {
    Open(codec, files, m) && m.identity == identity
  }

  ghost predicate MarkerAside(before: Files, now: Files) {
    forall p: Path :: !p.MigrationAttempt? && !p.MigrationAttemptTemp? ==> SameAt(before, now, p)
  }

  lemma NothingDone(codec: MarkerCodec, files: Files, m: Marker)
    ensures RollbackOutcome(codec, files, files, m, false, false)
  {
  }

  /** When the rollback a resumed start owes gets as far as the installation, and to its end. */
  ghost predicate Reaches(disk: Volume, start: nat, files: Files) {
    disk.Calm(start, start + Moves(files) + 3)
  }

  ghost predicate Completes(disk: Volume, start: nat, files: Files) {
    disk.Calm(start, start + Moves(files) + 5)
  }

  /** With a marker on disk: finish undoing the migration it names, or refuse without a change. */
  method ResumeRollback(disk: Volume, codec: MarkerCodec, identity: string)
    returns (r: Preparation, ghost reached: bool)
    requires MigrationAttempt in disk.files
    modifies disk
    ensures disk.clock >= old(disk.clock)
    ensures r.Stopped?
    ensures (forall m :: !Pending(codec, old(disk.files), identity, m)) ==> !r.undone && disk.files == old(disk.files)
    ensures var m := codec.parse(old(disk.files)[MigrationAttempt]);
            m.None? || m.value.version != 1 || m.value.identity != identity || m.value.status.RolledBack? ==>
              !r.undone && disk.files == old(disk.files)
    ensures forall m :: Pending(codec, old(disk.files), identity, m) ==>
              && RollbackOutcome(codec, old(disk.files), disk.files, m, r.undone, reached)
              && (BackupOf(codec, old(disk.files), m).Some? ==>
                    && (reached <==> Reaches(disk, old(disk.clock), old(disk.files)))
                    && (r.undone <==> Completes(disk, old(disk.clock), old(disk.files)))
                    && (disk.Calm(old(disk.clock), disk.clock) ==> r.undone))
  {
    ghost var before, start := disk.files, disk.clock;
    reached := false;
    var bytes := disk.Read(MigrationAttempt);
    if bytes.None? {
      assert disk.fails(start);
      forall m ensures RollbackOutcome(codec, before, before, m, false, false) {
        NothingDone(codec, before, m);
      }
      return Stopped(false), reached;
    }
    assert disk.Calm(start, start + 1);
    var m := codec.parse(bytes.value);
    if m.None? || m.value.version != 1 || m.value.identity != identity || m.value.status.RolledBack? {
      return Stopped(false), reached;
    }
    assert Pending(codec, disk.files, identity, m.value);
    var ok;
    ok, reached := RollbackMigration(disk, codec, m.value);
    r := Stopped(ok);
  }

  /** What a start without a marker leaves, by its result; `reached` is that of its rollback. */
  ghost predicate FreshOutcome(codec: MarkerCodec, before: Files, marked: Files, now: Files, identity: string,
                               child: Child, r: Preparation, reached: bool)
  {
    var d := Decide(Database in before, identity, child.preflight, child.executed);
    var edited := AfterCommands(before, child);
    && (r.NoMigration? <==> d.Start?)
    && (d.Start? ==> now == edited)
    && (r.Migrated? ==> d == StartMigrated(r.marker) && MarkerAside(edited, now)
                        && MigrationAttempt in now && now[MigrationAttempt] == codec.encode(r.marker))
    && (r.Stopped? && !d.RollBack? ==> MarkerAside(edited, now) && MigrationAttempt !in now && !r.undone)
    && (d.RollBack? ==> r.Stopped? && Unwound(codec, edited, marked, now, d.marker, r.undone, reached))
  }

  /** A failed migration is either not yet marked, or marked and undone as far as the operations went. */
  ghost predicate Unwound(codec: MarkerCodec, edited: Files, marked: Files, now: Files, m: Marker, undone: bool,
                          reached: bool)
  {
    && MarkerAside(edited, marked)
    && if MigrationAttempt in marked
       then marked[MigrationAttempt] == codec.encode(m) && RollbackOutcome(codec, marked, now, m, undone, reached)
       else now == marked && !undone && !reached
  }

  /** Without failing operations a marker that is called for is published, and a rollback with its
      backup on disk completes. */
  ghost predicate FreshCompletes(codec: MarkerCodec, before: Files, marked: Files, identity: string, child: Child,
                                 r: Preparation)
  {
    var d := Decide(Database in before, identity, child.preflight, child.executed);
    && (d.StartMigrated? ==> r.Migrated?)
    && (d.RollBack? ==> MigrationAttempt in marked
                        && (r.Stopped? && r.undone <==> BackupOf(codec, AfterCommands(before, child), d.marker).Some?))
  }

  /** How far the rollback of a failed migration gets, by the operations from `start` on. */
  ghost predicate FreshTimed(disk: Volume, start: nat, codec: MarkerCodec, before: Files, marked: Files, now: Files,
                             identity: string, child: Child, r: Preparation, reached: bool)
  {
    var d := Decide(Database in before, identity, child.preflight, child.executed);
    d.RollBack? && disk.Calm(start, start + 2) ==>
      && MigrationAttempt in marked && r.Stopped?
      && (BackupOf(codec, AfterCommands(before, child), d.marker).Some? ==>
            && (reached <==> disk.Calm(start, start + Moves(marked) + 4))
            && (r.undone <==> disk.Calm(start, start + Moves(marked) + 6))
            && (!disk.fails(start + 2) && !reached ==> Database !in now))
  }

  /** Without a marker: run the commands, then publish the marker their result calls for. */
  method PrepareFresh(disk: Volume, codec: MarkerCodec, identity: string, child: Child)
    returns (r: Preparation, ghost marked: Files, ghost reached: bool)
    requires MigrationAttempt !in disk.files
    modifies disk
    ensures disk.clock >= old(disk.clock)
    ensures FreshOutcome(codec, old(disk.files), marked, disk.files, identity, child, r, reached)
    ensures FreshTimed(disk, old(disk.clock), codec, old(disk.files), marked, disk.files, identity, child, r, reached)
    ensures disk.Calm(old(disk.clock), disk.clock) ==>
              FreshCompletes(codec, old(disk.files), marked, identity, child, r)
  {
    ghost var start := disk.clock;
    reached := false;
    var d := Decide(Database in disk.files, identity, child.preflight, child.executed);
    if Database in disk.files {
      disk.files := ChildEdits(disk.files, child.after);
    }
    ghost var edited := disk.files;
    marked := disk.files;
    if d.Start? {
      return NoMigration, marked, reached;
    }
    if d.Stop? {
      return Stopped(false), marked, reached;
    }
    var ok := disk.Publish(MigrationAttempt, MigrationAttemptTemp, codec.encode(d.marker));
    assert MarkerAside(edited, disk.files);
    marked := disk.files;
    assert !ok ==> SameAt(edited, marked, MigrationAttempt);
    SameBackup(codec, edited, marked, d.marker);
    if ok && d.StartMigrated? {
      return Migrated(d.marker), marked, reached;
    }
    if ok {
      ghost var t := disk.clock;
      assert t == start + 2 && disk.Calm(start, t);
      ok, reached := RollbackMigration(disk, codec, d.marker);
      assert disk.Calm(start, disk.clock) ==> disk.Calm(t, disk.clock);
    }
    r := Stopped(ok);
  }

  lemma SameBackup(codec: MarkerCodec, a: Files, b: Files, m: Marker)
    requires forall p: Path :: p.Other? ==> SameAt(a, b, p)
    ensures BackupOf(codec, a, m) == BackupOf(codec, b, m)
    ensures BackupOf(codec, a, m).Some? ==> a[BackupOf(codec, a, m).value] == b[BackupOf(codec, b, m).value]
  {
  }

  method PrepareMigration(disk: Volume, codec: MarkerCodec, identity: string, child: Child)
    returns (r: Preparation, ghost marked: Files, ghost reached: bool)
    modifies disk
    ensures disk.clock >= old(disk.clock)
    ensures MigrationAttempt in old(disk.files) ==> r.Stopped?
    ensures MigrationAttempt in old(disk.files) && (forall m :: !Pending(codec, old(disk.files), identity, m)) ==>
              disk.files == old(disk.files) && !r.undone
    ensures forall m :: Pending(codec, old(disk.files), identity, m) ==>
              && RollbackOutcome(codec, old(disk.files), disk.files, m, r.undone, reached)
              && (BackupOf(codec, old(disk.files), m).Some? ==>
                    && (reached <==> Reaches(disk, old(disk.clock), old(disk.files)))
                    && (r.undone <==> Completes(disk, old(disk.clock), old(disk.files)))
                    && (disk.Calm(old(disk.clock), disk.clock) ==> r.undone))
    ensures MigrationAttempt !in old(disk.files) ==>
              && FreshOutcome(codec, old(disk.files), marked, disk.files, identity, child, r, reached)
              && FreshTimed(disk, old(disk.clock), codec, old(disk.files), marked, disk.files, identity, child, r,
                            reached)
              && (disk.Calm(old(disk.clock), disk.clock) ==>
                    FreshCompletes(codec, old(disk.files), marked, identity, child, r))
  {
    if MigrationAttempt in disk.files {
      marked := disk.files;
      r, reached := ResumeRollback(disk, codec, identity);
    } else {
      r, marked, reached := PrepareFresh(disk, codec, identity, child);
    }
  }

  // ---------------------------------------------------------------- any number of starts

  predicate Recorded(codec: MarkerCodec, files: Files, m: Marker) {
    MigrationAttempt in files && codec.parse(files[MigrationAttempt]) == Some(m.(status := RolledBack))
  }

  /** A migration made ready for a start is undone by the next one unless the start succeeds. */
  lemma MigratedIsPending(codec: MarkerCodec, before: Files, marked: Files, now: Files, identity: string, child: Child,
                          r: Preparation, reached: bool)
    requires Faithful(codec) && FreshOutcome(codec, before, marked, now, identity, child, r, reached) && r.Migrated?
    ensures Pending(codec, now, identity, r.marker)
    ensures Database in before && AsksForUpgrade(child.preflight) && r.marker.reference.Some?
  {
  }

  /** What one start did about the pending marker. */
  datatype Link = Link(undone: bool, reached: bool)

  /** `states[i + 1]` is what start `i` left. */
  ghost predicate IsUndoing(codec: MarkerCodec, identity: string, m: Marker, states: seq<Files>, links: seq<Link>) {
    && |states| == |links| + 1
    && forall i {:trigger LinkAt(codec, identity, m, states, links, i)} :: 0 <= i < |links| ==>
         LinkAt(codec, identity, m, states, links, i)
  }

  ghost predicate LinkAt(codec: MarkerCodec, identity: string, m: Marker, states: seq<Files>, links: seq<Link>, i: nat)
    requires |states| == |links| + 1 && i < |links|
  {
    if Pending(codec, states[i], identity, m)
    then RollbackOutcome(codec, states[i], states[i + 1], m, links[i].undone, links[i].reached)
    else states[i + 1] == states[i]
  }

  /** The flags of a start are those of its operations, from one tick to the next. */
  ghost predicate TimedLink(disk: Volume, codec: MarkerCodec, identity: string, m: Marker, files: Files, link: Link,
                            from: nat, to: nat)
  {
    Pending(codec, files, identity, m) && BackupOf(codec, files, m).Some? ==>
      && (link.reached <==> Reaches(disk, from, files))
      && (link.undone <==> Completes(disk, from, files))
      && (disk.Calm(from, to) ==> link.undone)
  }

  /** The marker on disk is `m`, or `m` rolled back, or cannot be read. */
  predicate Carries(codec: MarkerCodec, files: Files, m: Marker) {
    && MigrationAttempt in files
    && codec.parse(files[MigrationAttempt]) in {None, Some(m), Some(m.(status := RolledBack))}
  }

  /** Any number of starts from a marker, whatever it says and whatever database it names, with any
      operation failing and any process dying. */
  method RepeatedStarts(disk: Volume, codec: MarkerCodec, identity: string, m: Marker, children: seq<Child>)
    returns (results: seq<Preparation>, ghost states: seq<Files>, ghost links: seq<Link>, ghost ticks: seq<nat>)
    requires Faithful(codec) && Carries(codec, disk.files, m)
    modifies disk
    ensures |results| == |children| == |links| && IsUndoing(codec, identity, m, states, links)
    ensures forall i :: 0 <= i < |children| ==> results[i] == Stopped(links[i].undone)
    ensures states[0] == old(disk.files) && states[|links|] == disk.files
    ensures |ticks| == |links| + 1 && ticks[0] == old(disk.clock) && ticks[|links|] == disk.clock
    ensures forall i :: 0 <= i < |links| ==> ticks[i] <= ticks[i + 1]
                                             && TimedLink(disk, codec, identity, m, states[i], links[i], ticks[i],
                                                          ticks[i + 1])
  {
    results, states, links, ticks := [], [disk.files], [], [disk.clock];
    for i := 0 to |children|
      invariant |results| == |links| == i && forall k :: 0 <= k < i ==> results[k] == Stopped(links[k].undone)
      invariant |states| == i + 1 && |links| == i && IsUndoing(codec, identity, m, states, links)
      invariant states[0] == old(disk.files) && states[i] == disk.files
      invariant |ticks| == i + 1 && ticks[0] == old(disk.clock) && ticks[i] == disk.clock
      invariant forall k :: 0 <= k < i ==> ticks[k] <= ticks[k + 1]
                                           && TimedLink(disk, codec, identity, m, states[k], links[k], ticks[k],
                                                        ticks[k + 1])
      invariant Carries(codec, disk.files, m)
    {
      ghost var before, from := disk.files, disk.clock;
      var r, _, reached := PrepareMigration(disk, codec, identity, children[i]);
      ghost var link := Link(r.undone, reached);
      if Pending(codec, before, identity, m) {
        PendingOrRecorded(codec, before, disk.files, identity, m, r.undone, reached);
      }
      UndoingGrows(codec, identity, m, states, links, disk.files, link);
      results, states, links, ticks := results + [r], states + [disk.files], links + [link], ticks + [disk.clock];
    }
  }

  lemma PendingOrRecorded(codec: MarkerCodec, before: Files, now: Files, identity: string, m: Marker, ok: bool,
                          reached: bool)
    requires Faithful(codec) && Pending(codec, before, identity, m)
    requires RollbackOutcome(codec, before, now, m, ok, reached)
    ensures if ok then Recorded(codec, now, m) else Pending(codec, now, identity, m)
  {
  }

  lemma UndoingGrows(codec: MarkerCodec, identity: string, m: Marker, states: seq<Files>, links: seq<Link>,
                     now: Files, link: Link)
    requires IsUndoing(codec, identity, m, states, links)
    requires var last := states[|links|];
             if Pending(codec, last, identity, m)
             then RollbackOutcome(codec, last, now, m, link.undone, link.reached)
             else now == last
    ensures IsUndoing(codec, identity, m, states + [now], links + [link])
  {
    var ss, ls := states + [now], links + [link];
    forall i: nat | i < |ls| ensures LinkAt(codec, identity, m, ss, ls, i) {
      assert i < |links| ==> LinkAt(codec, identity, m, states, links, i);
    }
  }

  /** The backup is intact, and the migration is either still to be undone or undone for good. */
  ghost predicate Undoing(codec: MarkerCodec, files: Files, identity: string, m: Marker, backup: Bytes) {
    && BackupOf(codec, files, m).Some? && files[BackupOf(codec, files, m).value] == backup
    && (Pending(codec, files, identity, m) || (Recorded(codec, files, m) && Settled(files, backup)))
  }

  lemma RollbackStep(codec: MarkerCodec, before: Files, now: Files, identity: string, m: Marker, backup: Bytes,
                     ok: bool, reached: bool)
    requires Faithful(codec) && Undoing(codec, before, identity, m, backup) && Pending(codec, before, identity, m)
    requires RollbackOutcome(codec, before, now, m, ok, reached)
    ensures Undoing(codec, now, identity, m, backup)
    ensures Recorded(codec, now, m) <==> ok
  {
    var b := BackupOf(codec, before, m).value;
    assert SameAt(before, now, b);
    PendingOrRecorded(codec, before, now, identity, m, ok, reached);
  }

  /** Wherever the starts stop: the backup is never altered, and the marker says ROLLED_BACK only when
      the database is the backup with no sidecar beside it. */
  lemma {:induction false} StaysUndoing(codec: MarkerCodec, identity: string, m: Marker, states: seq<Files>,
                                        links: seq<Link>, backup: Bytes, n: nat)
    requires Faithful(codec) && IsUndoing(codec, identity, m, states, links) && n <= |links|
    requires Undoing(codec, states[0], identity, m, backup)
    ensures Undoing(codec, states[n], identity, m, backup)
  {
    if n > 0 {
      StaysUndoing(codec, identity, m, states, links, backup, n - 1);
      assert LinkAt(codec, identity, m, states, links, n - 1);
      if Pending(codec, states[n - 1], identity, m) {
        RollbackStep(codec, states[n - 1], states[n], identity, m, backup, links[n - 1].undone, links[n - 1].reached);
      }
    }
  }

  /** What is recorded stays as it is. */
  lemma {:induction false} RecordedForGood(codec: MarkerCodec, identity: string, m: Marker, states: seq<Files>,
                                           links: seq<Link>, i: nat, n: nat)
    requires IsUndoing(codec, identity, m, states, links) && i <= n <= |links| && Recorded(codec, states[i], m)
    ensures states[n] == states[i]
    decreases n - i
  {
    if i < n {
      assert LinkAt(codec, identity, m, states, links, i);
      RecordedForGood(codec, identity, m, states, links, i + 1, n);
    }
  }

  /** One undisturbed start is enough: from then on the marker says ROLLED_BACK, the database is the
      backup, no sidecar is beside it, and nothing changes any more. */
  lemma OneCalmStartCompletes(disk: Volume, codec: MarkerCodec, identity: string, m: Marker, states: seq<Files>,
                              links: seq<Link>, ticks: seq<nat>, backup: Bytes, i: nat, n: nat)
    requires Faithful(codec) && IsUndoing(codec, identity, m, states, links) && i < n <= |links| < |ticks|
    requires Undoing(codec, states[0], identity, m, backup)
    requires TimedLink(disk, codec, identity, m, states[i], links[i], ticks[i], ticks[i + 1])
    requires disk.Calm(ticks[i], ticks[i + 1])
    ensures Recorded(codec, states[n], m) && Settled(states[n], backup) && states[n] == states[i + 1]
  {
    StaysUndoing(codec, identity, m, states, links, backup, i);
    StaysUndoing(codec, identity, m, states, links, backup, n);
    assert LinkAt(codec, identity, m, states, links, i);
    if Pending(codec, states[i], identity, m) {
      RollbackStep(codec, states[i], states[i + 1], identity, m, backup, links[i].undone, links[i].reached);
    }
    RecordedForGood(codec, identity, m, states, links, i + 1, n);
  }

  /** A marker the shell may not act on stops every start, and no start changes a file. */
  lemma {:induction false} RefusedForGood(codec: MarkerCodec, identity: string, m: Marker, states: seq<Files>,
                                          links: seq<Link>, n: nat)
    requires IsUndoing(codec, identity, m, states, links) && !Pending(codec, states[0], identity, m) && n <= |links|
    ensures states[n] == states[0]
  {
    if n > 0 {
      RefusedForGood(codec, identity, m, states, links, n - 1);
      assert LinkAt(codec, identity, m, states, links, n - 1);
    }
  }

  /**
   An unfinished migration whose backup is on disk is undone by one undisturbed start if and only if
   its marker names the database as the shell does. If it does not, no start ever changes a file.
   */
  lemma ResumedExactly(disk: Volume, codec: MarkerCodec, identity: string, m: Marker, states: seq<Files>,
                       links: seq<Link>, ticks: seq<nat>, i: nat, n: nat)
    requires Faithful(codec) && IsUndoing(codec, identity, m, states, links) && i < n <= |links| < |ticks|
    requires Open(codec, states[0], m) && BackupOf(codec, states[0], m).Some?
    requires TimedLink(disk, codec, identity, m, states[i], links[i], ticks[i], ticks[i + 1])
    requires disk.Calm(ticks[i], ticks[i + 1])
    ensures Recorded(codec, states[n], m) <==> m.identity == identity
    ensures if m.identity == identity then Settled(states[n], states[0][BackupOf(codec, states[0], m).value])
            else states[n] == states[0]
  {
    if m.identity == identity {
      OneCalmStartCompletes(disk, codec, identity, m, states, links, ticks,
                            states[0][BackupOf(codec, states[0], m).value], i, n);
    } else {
      RefusedForGood(codec, identity, m, states, links, n);
    }
  }

  /** A failed migration whose rollback was interrupted leaves an open marker; the next start acts on
      it if and only if the marker names the database as the shell does. */
  lemma FailedIsOpen(codec: MarkerCodec, before: Files, marked: Files, now: Files, identity: string, child: Child,
                     r: Preparation, reached: bool, m: Marker)
    requires Faithful(codec) && FreshOutcome(codec, before, marked, now, identity, child, r, reached)
    requires Decide(Database in before, identity, child.preflight, child.executed) == RollBack(m)
    requires !r.undone && MigrationAttempt in now
    ensures Open(codec, now, m)
    ensures Pending(codec, now, identity, m) <==> m.identity == identity
    ensures var edited := AfterCommands(before, child);
            && BackupOf(codec, now, m) == BackupOf(codec, edited, m)
            && (BackupOf(codec, now, m).Some? ==>
                  now[BackupOf(codec, now, m).value] == edited[BackupOf(codec, edited, m).value])
  {
    if MigrationAttempt in marked {
      SameBackup(codec, AfterCommands(before, child), marked, m);
      forall p: Path | p.Other? ensures SameAt(marked, now, p) {
        assert !RollbackEdits(p, m.attempt);
      }
      SameBackup(codec, marked, now, m);
    }
  }

  /** Such a marker arises: every failed migration recorded under another identity can stop after its
      first rename. The database is then gone from its place, the backup is unused, and any number of
      starts in which nothing fails leave it so. */
  method Strand(codec: MarkerCodec, identity: string, child: Child, files: Files, m: Marker, children: seq<Child>)
    returns (disk: Volume)
    requires Faithful(codec) && MigrationAttempt !in files && Database in AfterCommands(files, child)
    requires Decide(Database in files, identity, child.preflight, child.executed) == RollBack(m)
    requires m.identity != identity && BackupOf(codec, AfterCommands(files, child), m).Some?
    ensures fresh(disk) && Database !in disk.files && Open(codec, disk.files, m)
    ensures var b := BackupOf(codec, AfterCommands(files, child), m);
            BackupOf(codec, disk.files, m) == b && disk.files[b.value] == AfterCommands(files, child)[b.value]
  {
    disk := new Volume(files, k => k == 3, _ => None);
    var r, marked, reached := PrepareMigration(disk, codec, identity, child);
    assert disk.Calm(0, 2) && !disk.fails(2) && disk.fails(3);
    FailedIsOpen(codec, files, marked, disk.files, identity, child, r, reached, m);
    ghost var stranded := disk.files;
    var results, states, links, ticks := RepeatedStarts(disk, codec, identity, m, children);
    RefusedForGood(codec, identity, m, states, links, |children|);
  }

  /** Among the first `n` starts one installed the backup and stopped before recording that. */
  ghost predicate Gap(codec: MarkerCodec, identity: string, m: Marker, states: seq<Files>, links: seq<Link>, n: nat)
    requires |states| == |links| + 1 && n <= |links|
  {
    exists i: nat {:trigger links[i]} ::
      i < n && Pending(codec, states[i], identity, m) && links[i].reached && !links[i].undone
  }

  lemma {:induction false} SuspectOverStarts(codec: MarkerCodec, identity: string, m: Marker, states: seq<Files>,
                                             links: seq<Link>, backup: Bytes, n: nat)
    requires Faithful(codec) && IsUndoing(codec, identity, m, states, links) && n <= |links|
    requires Undoing(codec, states[0], identity, m, backup) && Pending(codec, states[0], identity, m)
    ensures (if Recorded(codec, states[n], m) then EvidenceOf(states[n], m.attempt)
             else Suspect(states[n], m.attempt)) ==
            if Gap(codec, identity, m, states, links, n) then Some(backup) else Suspect(states[0], m.attempt)
  {
    if n > 0 {
      var last := n - 1;
      SuspectOverStarts(codec, identity, m, states, links, backup, last);
      StaysUndoing(codec, identity, m, states, links, backup, last);
      assert LinkAt(codec, identity, m, states, links, last);
      assert Gap(codec, identity, m, states, links, n) <==>
             Gap(codec, identity, m, states, links, last)
             || (Pending(codec, states[last], identity, m) && links[last].reached && !links[last].undone);
      if Pending(codec, states[last], identity, m) {
        RollbackStep(codec, states[last], states[n], identity, m, backup, links[last].undone, links[last].reached);
      }
    }
  }

  /**
   The evidence of a rollback that is complete is the failed database, except when some start had
   stopped after installing the backup and before recording it: then, and only then, the next start
   has replaced the evidence by the backup.
   */
  lemma EvidenceExactly(codec: MarkerCodec, identity: string, m: Marker, states: seq<Files>, links: seq<Link>,
                        backup: Bytes, n: nat)
    requires Faithful(codec) && IsUndoing(codec, identity, m, states, links) && n <= |links|
    requires Undoing(codec, states[0], identity, m, backup) && Pending(codec, states[0], identity, m)
    requires Recorded(codec, states[n], m)
    ensures EvidenceOf(states[n], m.attempt) ==
            if Gap(codec, identity, m, states, links, n) then Some(backup) else Suspect(states[0], m.attempt)
    ensures Suspect(states[0], m.attempt) != Some(backup) ==>
              (EvidenceOf(states[n], m.attempt) == Some(backup) <==> Gap(codec, identity, m, states, links, n))
  {
    SuspectOverStarts(codec, identity, m, states, links, backup, n);
  }

  /** From every pending marker with its backup two starts can lose the evidence: the first dies when
      it is about to record the rollback, the second one completes it. */
  method LoseEvidence(codec: MarkerCodec, identity: string, m: Marker, files: Files, children: seq<Child>)
    returns (disk: Volume)
    requires Faithful(codec) && Pending(codec, files, identity, m) && BackupOf(codec, files, m).Some? && |children| == 2
    ensures fresh(disk) && Recorded(codec, disk.files, m)
    ensures EvidenceOf(disk.files, m.attempt) == Some(files[BackupOf(codec, files, m).value])
  {
    var last := Moves(files) + 3;
    disk := new Volume(files, k => k == last, _ => None);
    var backup := files[BackupOf(codec, files, m).value];
    var results, states, links, ticks := RepeatedStarts(disk, codec, identity, m, children);
    assert disk.fails(last);
    assert TimedLink(disk, codec, identity, m, states[0], links[0], ticks[0], ticks[1]);
    assert !disk.Calm(ticks[0], ticks[1]) && ticks[1] > last;
    assert TimedLink(disk, codec, identity, m, states[1], links[1], ticks[1], ticks[2]);
    assert disk.Calm(ticks[1], ticks[2]);
    OneCalmStartCompletes(disk, codec, identity, m, states, links, ticks, backup, 1, 2);
    assert Gap(codec, identity, m, states, links, 2) by {
      assert links[0].reached && !links[0].undone;
    }
    EvidenceExactly(codec, identity, m, states, links, backup, 2);
  }
}
