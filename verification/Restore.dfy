/**
 Applying, undoing and finishing a pending restore
 (desktop-shell/src-tauri/src/main.rs:1426-1640).

 The live files are the database and its sidecars. A restore moves the originals into a fresh
 safety directory, installs the staged database, and undoes its moves in reverse order when a
 step fails.
 */
module Restore {
  import opened Wrappers
  import opened Disk

  // ---------------------------------------------------------------- markers

  /** `staged` is `None` when the marker names a path outside app data. */
  datatype PendingMarker =
    PendingMarker(markerVersion: nat, requestId: string, backupId: string, staged: Option<Path>,
                  expectedSha256: string, expectedSize: nat, expectedSchemaVersion: nat, status: string)

  /** Parsing, hashing and encoding are arbitrary functions. */
  datatype Codecs =
    Codecs(parsePending: Bytes -> Option<PendingMarker>, sha256: Bytes -> string,
           encodeStatus: (string, string) -> Bytes)

  datatype Application =
    Application(requestId: string, staged: Path, sidecars: seq<SidecarKind>, backupId: string)

  datatype Applied = NothingPending | Installed(application: Application) | Refused(message: string)

  const SQLITE_HEADER: Bytes := "SQLite format 3\0"

  predicate Supported(m: PendingMarker) {
    m.markerVersion == 1 && m.status == "pending" && m.expectedSchemaVersion == 1
  }

  predicate Verified(codecs: Codecs, m: PendingMarker, bytes: Bytes) {
    && |bytes| == m.expectedSize
    && codecs.sha256(bytes) == m.expectedSha256
    && |bytes| >= 16 && bytes[..16] == SQLITE_HEADER
  }

  ghost predicate FreshSafety(files: Files, request: string) {
    forall e :: Safety(request, e) !in files
  }

  /** What the marker names: an unused safety directory and a staged file that is none of the
      shell's own paths. */
  ghost predicate Ordinary(codecs: Codecs, files: Files) {
    match Request(codecs, files)
    case None => true
    case Some(m) => FitMarker(files, m)
  }

  // ---------------------------------------------------------------- where an original can be

  /** The place in the safety directory of a live file. */
  function Keep(request: string, p: Path): Path
    requires Live(p)
  {
    match p
    case Database => Safety(request, OriginalDatabase)
    case Sidecar(k) => Safety(request, OriginalSidecar(k))
  }

  /** The original at `p` has been moved to the safety directory. */
  predicate Kept(before: Files, now: Files, request: string, p: Path)
    requires Live(p)
  {
    p in before && p !in now && Keep(request, p) in now && now[Keep(request, p)] == before[p]
  }

  /** Every original is either at its place or kept. */
  ghost predicate Conserved(before: Files, now: Files, request: string) {
    forall p :: Live(p) ==> SameAt(before, now, p) || Kept(before, now, request, p)
  }

  ghost predicate SidecarsConserved(before: Files, now: Files, request: string) {
    forall k :: SameAt(before, now, Sidecar(k)) || Kept(before, now, request, Sidecar(k))
  }

  /** Nothing but sidecars and their places in the safety directory differs. */
  ghost predicate OnlySidecarsMoved(before: Files, now: Files, request: string) {
    forall p: Path :: !p.Sidecar? && !(p.Safety? && p.request == request && p.entry.OriginalSidecar?) ==>
         SameAt(before, now, p)
  }

  // ---------------------------------------------------------------- moving sidecars out and back

  ghost predicate Distinct(kinds: seq<SidecarKind>) {
    forall i, j :: 0 <= i < j < |kinds| ==> kinds[i] != kinds[j]
  }

  /** The reverse-order undo; the outcome of each rename is ignored. */
  method UndoSidecars(disk: Volume, request: string, moved: seq<SidecarKind>, ghost before: Files)
    requires Distinct(moved)
    requires forall k :: k in moved ==> Kept(before, disk.files, request, Sidecar(k))
    requires forall k :: k !in moved ==> SameAt(before, disk.files, Sidecar(k))
    modifies disk
    ensures disk.clock >= old(disk.clock)
    ensures SidecarsConserved(before, disk.files, request)
    ensures OnlySidecarsMoved(old(disk.files), disk.files, request)
    ensures disk.Calm(old(disk.clock), disk.clock) ==> forall k :: SameAt(before, disk.files, Sidecar(k))
  {
    var i := |moved|;
    while i > 0
      invariant 0 <= i <= |moved| && disk.clock >= old(disk.clock)
      invariant SidecarsConserved(before, disk.files, request)
      invariant OnlySidecarsMoved(old(disk.files), disk.files, request)
      invariant forall j :: 0 <= j < i ==> Kept(before, disk.files, request, Sidecar(moved[j]))
      invariant disk.Calm(old(disk.clock), disk.clock) ==>
                  forall k :: k !in moved[..i] ==> SameAt(before, disk.files, Sidecar(k))
    {
      i := i - 1;
      var ok := disk.Rename(Safety(request, OriginalSidecar(moved[i])), Sidecar(moved[i]));
      assert moved[..i + 1] == moved[..i] + [moved[i]];
    }
  }

  method PreserveSidecars(disk: Volume, request: string) returns (ok: bool, moved: seq<SidecarKind>)
    modifies disk
    ensures disk.clock >= old(disk.clock)
    ensures OnlySidecarsMoved(old(disk.files), disk.files, request)
    ensures SidecarsConserved(old(disk.files), disk.files, request)
    ensures Distinct(moved) && forall k :: k in moved ==> Sidecar(k) in old(disk.files)
    ensures ok ==> forall k :: if k in moved then Kept(old(disk.files), disk.files, request, Sidecar(k))
                               else SameAt(old(disk.files), disk.files, Sidecar(k)) && Sidecar(k) !in disk.files
                                    && SameAt(old(disk.files), disk.files, Safety(request, OriginalSidecar(k)))
    ensures disk.Calm(old(disk.clock), disk.clock) ==> ok
    ensures !ok && disk.OneFault(old(disk.clock), disk.clock) ==>
              forall k :: SameAt(old(disk.files), disk.files, Sidecar(k))
  {
    ghost var before := disk.files;
    moved := [];
    var i := 0;
    while i < |KINDS|
      invariant 0 <= i <= |KINDS| && disk.clock >= old(disk.clock)
      invariant OnlySidecarsMoved(before, disk.files, request)
      invariant Distinct(moved) && forall k :: k in moved ==>
                k in KINDS[..i] && Kept(before, disk.files, request, Sidecar(k))
      invariant forall k :: k !in moved ==> SameAt(before, disk.files, Sidecar(k))
                                            && SameAt(before, disk.files, Safety(request, OriginalSidecar(k)))
      invariant forall k :: k in KINDS[..i] && k !in moved ==> Sidecar(k) !in disk.files
    {
      var kind := KINDS[i];
      assert KINDS[..i + 1] == KINDS[..i] + [kind];
      if Sidecar(kind) in disk.files {
        ghost var t := disk.clock;
        ok := disk.Rename(Sidecar(kind), Safety(request, OriginalSidecar(kind)));
        if !ok {
          assert disk.fails(t);
          UndoSidecars(disk, request, moved, before);
          return false, moved;
        }
        moved := moved + [kind];
      }
      i := i + 1;
    }
    forall k ensures k in KINDS[..i] {
      KindsAreAll(k);
    }
    ok := true;
  }

  // ---------------------------------------------------------------- installing the staged database

  /** What the installation leaves: the staged bytes as the database, no old sidecar beside it,
      and in the safety directory exactly the originals. */
  ghost predicate Swapped(before: Files, now: Files, request: string, staged: Path) {
    && staged in before && staged !in now
    && Database in now && now[Database] == before[staged]
    && (forall k :: Sidecar(k) !in now)
    && (forall p :: Live(p) ==> (Keep(request, p) in now <==> p in before))
    && (forall p :: Live(p) && p in before ==> now[Keep(request, p)] == before[p])
  }

  /** The places for the originals are unused and the staged file is none of the shell's own paths. */
  ghost predicate Fit(files: Files, request: string, staged: Path) {
    staged.Other? && staged in files && Free(files, request)
  }

  ghost predicate Free(files: Files, request: string) {
    forall p :: Live(p) ==> Keep(request, p) !in files
  }

  ghost predicate OnlyLiveMoved(before: Files, now: Files, request: string, staged: Path) {
    forall p: Path ::
      !Live(p) && p != staged && !(p.Safety? && p.request == request
                                   && (p.entry.OriginalSidecar? || p.entry.OriginalDatabase?))
      ==> SameAt(before, now, p)
  }

  /** The outcome of an installation attempt; `calm` and `oneFault` speak of its operations. */
  ghost predicate InstallOutcome(before: Files, now: Files, request: string, staged: Path, ok: bool,
                                 moved: seq<SidecarKind>, calm: bool, oneFault: bool)
  {
    && (ok ==> Swapped(before, now, request, staged) && forall k :: k in moved <==> Sidecar(k) in before)
    && (!ok ==> Conserved(before, now, request) && SameAt(before, now, staged))
    && (!ok && oneFault ==> SameLive(before, now))
    && (calm ==> ok)
  }

  /** The live files have all been moved to the safety directory. */
  ghost predicate Cleared(before: Files, now: Files, request: string, moved: seq<SidecarKind>) {
    && (forall k :: k in moved ==> Sidecar(k) in before)
    && (forall k :: if k in moved then Kept(before, now, request, Sidecar(k))
                    else SameAt(before, now, Sidecar(k)) && Sidecar(k) !in now
                         && SameAt(before, now, Safety(request, OriginalSidecar(k))))
    && Database !in now
    && (if Database in before then Kept(before, now, request, Database)
        else SameAt(before, now, Safety(request, OriginalDatabase)))
  }

  /** Moves sidecars and database to the safety directory, or puts back what it moved. */
  method ClearLive(disk: Volume, request: string, ghost staged: Path) returns (ok: bool, moved: seq<SidecarKind>)
    modifies disk
    ensures disk.clock >= old(disk.clock)
    ensures OnlyLiveMoved(old(disk.files), disk.files, request, staged)
    ensures SameAt(old(disk.files), disk.files, PendingRestore)
    ensures staged.Other? ==> SameAt(old(disk.files), disk.files, staged)
    ensures Distinct(moved)
    ensures ok ==> Cleared(old(disk.files), disk.files, request, moved)
    ensures !ok ==> Conserved(old(disk.files), disk.files, request)
    ensures !ok && disk.OneFault(old(disk.clock), disk.clock) ==> SameLive(old(disk.files), disk.files)
    ensures disk.Calm(old(disk.clock), disk.clock) ==> ok
  {
    ghost var before, t := disk.files, disk.clock;
    ok, moved := PreserveSidecars(disk, request);
    ghost var afterSidecars := disk.files;
    SidecarsOnly(before, afterSidecars, request, staged);
    if !ok {
      FromParts(before, disk.files, request);
      return;
    }
    t := disk.clock;
    if Database in disk.files {
      ok := disk.Rename(Database, Safety(request, OriginalDatabase));
      if !ok {
        assert disk.fails(t);
        UndoSidecars(disk, request, moved, before);
        SidecarsOnly(afterSidecars, disk.files, request, staged);
        FramesCompose(before, afterSidecars, disk.files, request, staged);
        FromParts(before, disk.files, request);
      }
    }
  }

  /** Puts the originals back after a failed installation. */
  method PutBack(disk: Volume, request: string, moved: seq<SidecarKind>, ghost before: Files, ghost staged: Path)
    requires Distinct(moved) && Cleared(before, disk.files, request, moved)
    modifies disk
    ensures disk.clock >= old(disk.clock)
    ensures OnlyLiveMoved(old(disk.files), disk.files, request, staged)
    ensures SameAt(old(disk.files), disk.files, PendingRestore)
    ensures staged.Other? ==> SameAt(old(disk.files), disk.files, staged)
    ensures Free(before, request) ==> Conserved(before, disk.files, request)
    ensures Free(before, request) && disk.Calm(old(disk.clock), disk.clock) ==> SameLive(before, disk.files)
  {
    ghost var cleared, t := disk.files, disk.clock;
    var back := true;
    if Safety(request, OriginalDatabase) in disk.files {
      back := disk.Rename(Safety(request, OriginalDatabase), Database);
      assert !back ==> disk.fails(t);
    }
    ghost var middle := disk.files;
    DatabaseBack(before, cleared, middle, request, moved, staged);
    UndoSidecars(disk, request, moved, before);
    SidecarsOnly(middle, disk.files, request, staged);
    FramesCompose(cleared, middle, disk.files, request, staged);
    FromParts(before, disk.files, request);
  }

  lemma DatabaseBack(before: Files, cleared: Files, middle: Files, request: string, moved: seq<SidecarKind>,
                     staged: Path)
    requires Cleared(before, cleared, request, moved)
    requires middle == cleared || (Safety(request, OriginalDatabase) in cleared
                                   && middle == Moved(cleared, Safety(request, OriginalDatabase), Database))
    ensures forall k :: k in moved ==> Kept(before, middle, request, Sidecar(k))
    ensures forall k :: k !in moved ==> SameAt(before, middle, Sidecar(k))
    ensures Free(before, request) ==> SameAt(before, middle, Database) || Kept(before, middle, request, Database)
    ensures Free(before, request) && (middle != cleared || Safety(request, OriginalDatabase) !in cleared) ==>
              SameAt(before, middle, Database)
    ensures OnlyLiveMoved(cleared, middle, request, staged)
    ensures SameAt(cleared, middle, PendingRestore) && (staged.Other? ==> SameAt(cleared, middle, staged))
  {
    assert Free(before, request) ==> Keep(request, Database) !in before;
    forall k ensures SameAt(cleared, middle, Sidecar(k)) && SameAt(cleared, middle, Keep(request, Sidecar(k))) {
    }
    forall k | k in moved ensures Kept(before, middle, request, Sidecar(k)) {
      assert Kept(before, cleared, request, Sidecar(k));
    }
    forall k | k !in moved ensures SameAt(before, middle, Sidecar(k)) {
      assert SameAt(before, cleared, Sidecar(k));
    }
  }

  /** Renames the staged file over the emptied place, or puts the originals back. */
  method SwapIn(disk: Volume, request: string, staged: Path, moved: seq<SidecarKind>, ghost before: Files)
    returns (ok: bool)
    requires Distinct(moved) && Cleared(before, disk.files, request, moved)
    requires staged.Other? ==> SameAt(before, disk.files, staged)
    modifies disk
    ensures disk.clock >= old(disk.clock)
    ensures OnlyLiveMoved(old(disk.files), disk.files, request, staged)
    ensures PendingRestore !in old(disk.files) ==> PendingRestore !in disk.files
    ensures Fit(before, request, staged) ==>
              InstallOutcome(before, disk.files, request, staged, ok, moved,
                             disk.Calm(old(disk.clock), disk.clock), disk.OneFault(old(disk.clock), disk.clock))
  {
    ghost var cleared, t := disk.files, disk.clock;
    ok := disk.Rename(staged, Database);
    if ok {
      if Fit(before, request, staged) {
        OriginalsKept(before, cleared, disk.files, request, moved, staged);
      }
    } else {
      assert Fit(before, request, staged) ==> disk.fails(t);
      PutBack(disk, request, moved, before, staged);
    }
  }

  method InstallStaged(disk: Volume, request: string, staged: Path) returns (ok: bool, moved: seq<SidecarKind>)
    modifies disk
    ensures disk.clock >= old(disk.clock)
    ensures OnlyLiveMoved(old(disk.files), disk.files, request, staged)
    ensures PendingRestore !in old(disk.files) ==> PendingRestore !in disk.files
    ensures Distinct(moved)
    ensures old(Fit(disk.files, request, staged)) ==>
              InstallOutcome(old(disk.files), disk.files, request, staged, ok, moved,
                             disk.Calm(old(disk.clock), disk.clock), disk.OneFault(old(disk.clock), disk.clock))
  {
    ghost var before := disk.files;
    ok, moved := ClearLive(disk, request, staged);
    if ok {
      ghost var cleared := disk.files;
      ok := SwapIn(disk, request, staged, moved, before);
      FramesCompose(before, cleared, disk.files, request, staged);
    }
  }

  /** Moving sidecars leaves the database, the staged file and the pending marker alone. */
  lemma SidecarsOnly(before: Files, now: Files, request: string, staged: Path)
    requires OnlySidecarsMoved(before, now, request)
    ensures SameAt(before, now, Database) && SameAt(before, now, Safety(request, OriginalDatabase))
    ensures SameAt(before, now, PendingRestore) && (staged.Other? ==> SameAt(before, now, staged))
    ensures OnlyLiveMoved(before, now, request, staged)
  {
  }

  lemma FramesCompose(a: Files, b: Files, c: Files, request: string, staged: Path)
    requires OnlyLiveMoved(a, b, request, staged) && OnlyLiveMoved(b, c, request, staged)
    ensures OnlyLiveMoved(a, c, request, staged)
  {
  }

  lemma OriginalsKept(before: Files, cleared: Files, now: Files, request: string, moved: seq<SidecarKind>, staged: Path)
    requires Fit(before, request, staged) && SameAt(before, cleared, staged)
    requires Cleared(before, cleared, request, moved) && now == Moved(cleared, staged, Database)
    ensures Swapped(before, now, request, staged)
    ensures forall k :: k in moved <==> Sidecar(k) in before
  {
  }

  lemma FromParts(before: Files, now: Files, request: string)
    ensures SidecarsConserved(before, now, request)
            && (SameAt(before, now, Database) || Kept(before, now, request, Database)) ==>
              Conserved(before, now, request)
    ensures (forall k :: SameAt(before, now, Sidecar(k))) && SameAt(before, now, Database) ==> SameLive(before, now)
  {
  }

  // ---------------------------------------------------------------- consuming the marker

  /** The first free quarantine name: the search ends because the directory is finite, and the
      name it returns is not in use. */
  method FreeQuarantineName(disk: Volume) returns (n: nat)
    ensures Quarantined(n) !in disk.files
    ensures forall j :: 0 <= j < n ==> Quarantined(j) in disk.files
  {
    n := 0;
    ghost var ahead := disk.files.Keys;
    while Quarantined(n) in disk.files
      invariant forall j :: 0 <= j < n ==> Quarantined(j) in disk.files
      invariant forall j :: j >= n && Quarantined(j) in disk.files ==> Quarantined(j) in ahead
      decreases ahead
    {
      ahead := ahead - {Quarantined(n)};
      n := n + 1;
    }
  }

  /** The request the pending marker carries, if it can be read as one. */
  function Request(codecs: Codecs, files: Files): Option<PendingMarker> {
    if PendingRestore in files then codecs.parsePending(files[PendingRestore]) else None
  }

  /** The pending marker asks for a restore that may be applied. */
  predicate Acceptable(codecs: Codecs, files: Files) {
    match Request(codecs, files)
    case None => false
    case Some(m) => Doable(codecs, files, m)
  }

  /** Files a restore attempt never touches. */
  predicate Foreign(p: Path, request: Option<PendingMarker>) {
    && !Live(p) && !p.PendingRestore? && !p.RestoreStatus? && !p.RestoreStatusTemp?
    && (request.Some? ==> Some(p) != request.value.staged && !(p.Safety? && p.request == request.value.requestId))
  }

  ghost predicate ForeignUntouched(before: Files, now: Files, request: Option<PendingMarker>) {
    forall p: Path :: Foreign(p, request) && !p.Quarantined? ==> SameAt(before, now, p)
  }

  method VerifyStaged(disk: Volume, codecs: Codecs, m: PendingMarker) returns (ok: bool)
    modifies disk`clock
    ensures disk.clock >= old(disk.clock)
    ensures ok ==> m.staged.Some? && m.staged.value in disk.files && Verified(codecs, m, disk.files[m.staged.value])
    ensures disk.Calm(old(disk.clock), disk.clock) ==>
              m.staged.Some? && m.staged.value in disk.files && Verified(codecs, m, disk.files[m.staged.value]) ==> ok
    ensures ok ==>
              && m.staged.Some? && m.staged.value in disk.files
              && var bytes := disk.files[m.staged.value];
                 |bytes| == m.expectedSize && codecs.sha256(bytes) == m.expectedSha256 && "SQLite format 3\0" <= bytes
  {
    if m.staged.None? || m.staged.value !in disk.files || |disk.files[m.staged.value]| != m.expectedSize {
      return false;
    }
    ghost var t := disk.clock;
    var hashed := disk.Read(m.staged.value);
    if hashed.None? {
      assert disk.fails(t);
      return false;
    }
    if codecs.sha256(hashed.value) != m.expectedSha256 {
      return false;
    }
    t := disk.clock;
    var header := disk.Read(m.staged.value);
    if header.None? {
      assert disk.fails(t);
      return false;
    }
    return |header.value| >= 16 && header.value[..16] == SQLITE_HEADER;
  }

  /** Moves the pending marker away before anything else is done with it. */
  method ConsumeMarker(disk: Volume, codecs: Codecs) returns (m: Option<PendingMarker>, ghost n: nat, name: Path)
    requires PendingRestore in disk.files
    modifies disk
    ensures disk.clock >= old(disk.clock)
    ensures name == Quarantined(n) && Quarantined(n) !in old(disk.files)
    ensures disk.files == old(disk.files) || disk.files == Moved(old(disk.files), PendingRestore, name)
    ensures m.Some? ==> disk.files == Moved(old(disk.files), PendingRestore, name)
                        && m == Request(codecs, old(disk.files))
    ensures m.None? && disk.Calm(old(disk.clock), disk.clock) ==> Request(codecs, old(disk.files)).None?
  {
    ghost var t := disk.clock;
    var k := FreeQuarantineName(disk);
    n, name := k, Quarantined(k);
    var ok := disk.CreateDirectory();
    if !ok {
      assert disk.fails(t);
      return None, n, name;
    }
    t := disk.clock;
    ok := disk.Rename(PendingRestore, name);
    if !ok {
      assert disk.fails(t);
      return None, n, name;
    }
    t := disk.clock;
    var bytes := disk.Read(name);
    if bytes.None? {
      assert disk.fails(t);
      return None, n, name;
    }
    return codecs.parsePending(bytes.value), n, name;
  }

  /** The status file reports this stage of the restore. */
  predicate Reports(codecs: Codecs, files: Files, status: string, backupId: string) {
    RestoreStatus in files && files[RestoreStatus] == codecs.encodeStatus(status, backupId)
  }

  /** Files the bookkeeping before the swap never touches. */
  predicate Untold(p: Path, request: string, quarantined: Path) {
    p != quarantined && p != Safety(request, ConsumedMarker) && p != RestoreStatus && p != RestoreStatusTemp
  }

  /** Files the consumed marker under the request and announces the restore. */
  method Announce(disk: Volume, codecs: Codecs, m: PendingMarker, quarantined: Path) returns (ok: bool)
    requires quarantined.Quarantined? && quarantined in disk.files
    modifies disk
    ensures disk.clock >= old(disk.clock)
    ensures forall p :: Untold(p, m.requestId, quarantined) ==> SameAt(old(disk.files), disk.files, p)
    ensures ok ==> Safety(m.requestId, ConsumedMarker) in disk.files && quarantined !in disk.files
                   && disk.files[Safety(m.requestId, ConsumedMarker)] == old(disk.files)[quarantined]
                   && Reports(codecs, disk.files, "applying", m.backupId)
    ensures !ok ==> !disk.Calm(old(disk.clock), disk.clock)
  {
    ghost var t := disk.clock;
    ok := disk.CreateDirectory();
    if !ok {
      assert disk.fails(t);
      return;
    }
    t := disk.clock;
    ok := disk.Rename(quarantined, Safety(m.requestId, ConsumedMarker));
    if !ok {
      assert disk.fails(t);
      return;
    }
    ghost var renamed := disk.files;
    ok := disk.Publish(RestoreStatus, RestoreStatusTemp, codecs.encodeStatus("applying", m.backupId));
    assert forall p :: Untold(p, m.requestId, quarantined) ==> SameAt(renamed, disk.files, p);
    assert SameAt(renamed, disk.files, Safety(m.requestId, ConsumedMarker)) && SameAt(renamed, disk.files, quarantined);
  }

  /** The application record names the request and exactly the sidecars that were moved. */
  ghost predicate Describes(application: Application, m: PendingMarker, before: Files) {
    && application.requestId == m.requestId && Some(application.staged) == m.staged
    && application.backupId == m.backupId
    && forall k :: k in application.sidecars <==> Sidecar(k) in before
  }

  /** What is left of the live files, by the result of the attempt. */
  ghost predicate AppliedOutcome(before: Files, now: Files, m: PendingMarker, r: Applied, oneFault: bool) {
    && !r.NothingPending?
    && (r.Installed? ==>
          && m.staged.Some? && Swapped(before, now, m.requestId, m.staged.value)
          && Describes(r.application, m, before)
          && Safety(m.requestId, FailedRestored) !in now)
    && (r.Refused? ==> Conserved(before, now, m.requestId) && (m.staged.Some? ==> SameAt(before, now, m.staged.value)))
    && (r.Refused? && oneFault ==> SameLive(before, now))
  }

  /** The second half of the restore, on a consumed and verified marker. */
  method ApplyVerified(disk: Volume, codecs: Codecs, m: PendingMarker, quarantined: Path) returns (r: Applied)
    requires m.staged.Some? && quarantined.Quarantined? && quarantined in disk.files
    modifies disk
    ensures disk.clock >= old(disk.clock)
    ensures PendingRestore !in old(disk.files) ==> PendingRestore !in disk.files
    ensures !r.NothingPending? && (r.Installed? ==> Distinct(r.application.sidecars))
    ensures old(FitMarker(disk.files, m) && m.staged.value in disk.files) ==>
              && AppliedOutcome(old(disk.files), disk.files, m, r, disk.OneFault(old(disk.clock), disk.clock))
              && (disk.Calm(old(disk.clock), disk.clock) ==> r.Installed?)
              && forall p: Path :: Foreign(p, Some(m)) && p != quarantined ==> SameAt(old(disk.files), disk.files, p)
  {
    ghost var before := disk.files;
    var staged := m.staged.value;
    var ok := Announce(disk, codecs, m, quarantined);
    ghost var announced := disk.files;
    assert Untold(PendingRestore, m.requestId, quarantined);
    StillFit(before, announced, m, quarantined);
    if !ok {
      return Refused("Could not consume restore marker");
    }
    var moved;
    ghost var t := disk.clock;
    ok, moved := InstallStaged(disk, m.requestId, staged);
    r := if ok then Installed(Application(m.requestId, staged, moved, m.backupId))
         else Refused("Could not install staged database");
    if FitMarker(before, m) && staged in before {
      InstalledSeenFromBefore(before, announced, disk.files, m, quarantined, ok, moved,
                              disk.Calm(t, disk.clock), disk.OneFault(t, disk.clock));
    }
  }

  lemma InstalledSeenFromBefore(before: Files, announced: Files, now: Files, m: PendingMarker, quarantined: Path,
                                ok: bool, moved: seq<SidecarKind>, calm: bool, oneFault: bool)
    requires m.staged.Some? && quarantined.Quarantined? && FitMarker(before, m) && m.staged.value in before
    requires forall p :: Untold(p, m.requestId, quarantined) ==> SameAt(before, announced, p)
    requires OnlyLiveMoved(announced, now, m.requestId, m.staged.value)
    requires InstallOutcome(announced, now, m.requestId, m.staged.value, ok, moved, calm, oneFault)
    ensures var r := if ok then Installed(Application(m.requestId, m.staged.value, moved, m.backupId))
                     else Refused("Could not install staged database");
            AppliedOutcome(before, now, m, r, oneFault)
    ensures forall p: Path :: Foreign(p, Some(m)) && p != quarantined ==> SameAt(before, now, p)
  {
    StillFit(before, announced, m, quarantined);
    Rebase(before, announced, now, m.requestId, m.staged.value);
    assert SameAt(announced, now, Safety(m.requestId, FailedRestored));
    forall p: Path | Foreign(p, Some(m)) && p != quarantined ensures SameAt(before, now, p) {
      assert Untold(p, m.requestId, quarantined) && SameAt(announced, now, p);
    }
  }

  /** The announcement leaves the live and staged files and the places for the originals alone. */
  lemma StillFit(before: Files, announced: Files, m: PendingMarker, quarantined: Path)
    requires m.staged.Some? && quarantined.Quarantined?
    requires forall p :: Untold(p, m.requestId, quarantined) ==> SameAt(before, announced, p)
    ensures SameLive(before, announced)
    ensures m.staged.value.Other? && m.staged.value in before && FreshSafety(before, m.requestId) ==>
              && SameAt(before, announced, m.staged.value) && Fit(announced, m.requestId, m.staged.value)
              && Safety(m.requestId, FailedRestored) !in announced
  {
    forall p | Live(p) ensures SameAt(before, announced, p) {
      assert Untold(p, m.requestId, quarantined);
    }
    if m.staged.value.Other? && m.staged.value in before && FreshSafety(before, m.requestId) {
      assert Untold(m.staged.value, m.requestId, quarantined);
      assert Untold(Safety(m.requestId, FailedRestored), m.requestId, quarantined);
      forall p | Live(p) ensures Keep(m.requestId, p) !in announced {
        assert Untold(Keep(m.requestId, p), m.requestId, quarantined);
      }
    }
  }

  /** The installation seen from before the announcement. */
  lemma Rebase(before: Files, announced: Files, now: Files, request: string, staged: Path)
    requires SameLive(before, announced) && SameAt(before, announced, staged)
    ensures Swapped(announced, now, request, staged) ==> Swapped(before, now, request, staged)
    ensures Conserved(announced, now, request) ==> Conserved(before, now, request)
    ensures SameLive(announced, now) ==> SameLive(before, now)
    ensures forall k :: Sidecar(k) in before <==> Sidecar(k) in announced
  {
    forall p | Live(p) ensures SameAt(before, announced, p) {
    }
    if Conserved(announced, now, request) {
      forall p | Live(p) ensures SameAt(before, now, p) || Kept(before, now, request, p) {
        assert SameAt(before, announced, p);
        assert SameAt(announced, now, p) || Kept(announced, now, request, p);
      }
    }
    forall k ensures Sidecar(k) in before <==> Sidecar(k) in announced {
      assert SameAt(before, announced, Sidecar(k));
    }
  }

  // ---------------------------------------------------------------- the whole restore

  /** What holds of the files after a restore was installed from the state `before`. */
  ghost predicate InstalledFrom(codecs: Codecs, before: Files, now: Files, application: Application) {
    && Acceptable(codecs, before)
    && var m := Request(codecs, before).value;
    && Swapped(before, now, m.requestId, m.staged.value)
    && Describes(application, m, before) && application.staged.Other?
    && PendingRestore !in now
    && Safety(m.requestId, FailedRestored) !in now
  }

  /** Every original is at its place or in the safety directory of the pending request. */
  ghost predicate NothingLost(codecs: Codecs, before: Files, now: Files) {
    match Request(codecs, before)
    case None => SameLive(before, now)
    case Some(m) => Conserved(before, now, m.requestId) && (m.staged.Some? ==> SameAt(before, now, m.staged.value))
  }

  /**
   Failing operations and death anywhere included, a marker that is not consumed means nothing was
   done. When the marker names an unused safety directory and a file of its own, no original is
   ever lost, no earlier quarantined marker is overwritten, and one failing operation leaves the
   live files as they were.
   */
  ghost predicate RestoreOutcome(codecs: Codecs, before: Files, now: Files, r: Applied, calm: bool, oneFault: bool) {
    && (r.NothingPending? <==> PendingRestore !in before)
    && (PendingRestore !in before || PendingRestore in now ==> now == before)
    && (r.Installed? ==> PendingRestore !in now && Distinct(r.application.sidecars))
    && (Ordinary(codecs, before) ==>
          && (r.Installed? ==> InstalledFrom(codecs, before, now, r.application))
          && (!r.Installed? ==> NothingLost(codecs, before, now))
          && (!r.Installed? && oneFault ==> SameLive(before, now))
          && (calm ==> (r.Installed? <==> Acceptable(codecs, before)))
          && (forall n :: Quarantined(n) in before ==> SameAt(before, now, Quarantined(n)))
          && ForeignUntouched(before, now, Request(codecs, before)))
  }

  /** The marker is a pending one of the version and schema this shell knows, and the staged file has
      the size, the hash and the header it should have. */
  ghost predicate PassesChecks(codecs: Codecs, files: Files) {
    && PendingRestore in files && codecs.parsePending(files[PendingRestore]).Some?
    && var m := codecs.parsePending(files[PendingRestore]).value;
    && m.markerVersion == 1 && m.status == "pending" && m.expectedSchemaVersion == 1
    && m.staged.Some? && m.staged.value in files
    && var bytes := files[m.staged.value];
    && |bytes| == m.expectedSize && codecs.sha256(bytes) == m.expectedSha256
    && "SQLite format 3\0" <= bytes
  }

  lemma AcceptableIsChecked(codecs: Codecs, files: Files)
    ensures Acceptable(codecs, files) <==> PassesChecks(codecs, files)
  {
  }

  method ApplyPendingRestore(disk: Volume, codecs: Codecs) returns (r: Applied)
    modifies disk
    ensures disk.clock >= old(disk.clock)
    ensures RestoreOutcome(codecs, old(disk.files), disk.files, r, disk.Calm(old(disk.clock), disk.clock),
                           disk.OneFault(old(disk.clock), disk.clock))
    ensures Ordinary(codecs, old(disk.files)) ==>
              && (r.Installed? ==> PassesChecks(codecs, old(disk.files)))
              && (disk.Calm(old(disk.clock), disk.clock) ==> (r.Installed? <==> PassesChecks(codecs, old(disk.files))))
  {
    ghost var before := disk.files;
    AcceptableIsChecked(codecs, before);
    if PendingRestore !in disk.files {
      return NothingPending;
    }
    var found, n, name := ConsumeMarker(disk, codecs);
    ghost var consumed := disk.files;
    assert forall p: Path :: p != PendingRestore && p != name ==> SameAt(before, consumed, p);
    assert SameLive(before, consumed);
    if found.None? {
      return Refused("Invalid restore marker; it was quarantined");
    }
    var m := found.value;
    r := ApplyConsumed(disk, codecs, m, name);
    if Ordinary(codecs, before) {
      OrdinaryIsFit(before, consumed, m, name);
      forall p: Path | Foreign(p, Some(m)) && p != name ensures SameAt(before, disk.files, p) {
        assert SameAt(before, consumed, p) && SameAt(consumed, disk.files, p);
      }
      SeenFromBefore(before, consumed, disk.files, m);
    }
  }

  /** The marker asks for something this shell can do with what is on disk. */
  predicate Doable(codecs: Codecs, files: Files, m: PendingMarker) {
    Supported(m) && m.staged.Some? && m.staged.value in files && Verified(codecs, m, files[m.staged.value])
  }

  ghost predicate FitMarker(files: Files, m: PendingMarker) {
    FreshSafety(files, m.requestId) && (m.staged.Some? ==> m.staged.value.Other?)
  }

  /** Everything after the marker has been moved to quarantine and parsed. */
  method ApplyConsumed(disk: Volume, codecs: Codecs, m: PendingMarker, name: Path) returns (r: Applied)
    requires name.Quarantined? && name in disk.files
    modifies disk
    ensures disk.clock >= old(disk.clock)
    ensures PendingRestore !in old(disk.files) ==> PendingRestore !in disk.files
    ensures !r.NothingPending?
    ensures r.Installed? ==> Distinct(r.application.sidecars) && Doable(codecs, old(disk.files), m)
    ensures old(FitMarker(disk.files, m)) ==>
              && AppliedOutcome(old(disk.files), disk.files, m, r, disk.OneFault(old(disk.clock), disk.clock))
              && (disk.Calm(old(disk.clock), disk.clock) ==> (r.Installed? <==> Doable(codecs, old(disk.files), m)))
              && forall p: Path :: Foreign(p, Some(m)) && p != name ==> SameAt(old(disk.files), disk.files, p)
  {
    if !Supported(m) {
      return Refused("Restore marker is unsupported or already consumed");
    }
    var ok := VerifyStaged(disk, codecs, m);
    if !ok {
      return Refused("Restore candidate verification failed");
    }
    r := ApplyVerified(disk, codecs, m, name);
  }

  lemma OrdinaryIsFit(before: Files, consumed: Files, m: PendingMarker, name: Path)
    requires FitMarker(before, m) && name.Quarantined?
    requires forall p: Path :: p != PendingRestore && p != name ==> SameAt(before, consumed, p)
    ensures FitMarker(consumed, m) && (m.staged.Some? ==> SameAt(before, consumed, m.staged.value))
  {
    forall e ensures Safety(m.requestId, e) !in consumed {
      assert SameAt(before, consumed, Safety(m.requestId, e));
    }
    assert m.staged.Some? ==> SameAt(before, consumed, m.staged.value);
  }

  /** The consumed marker aside, the live and staged files start out as they were. */
  lemma SeenFromBefore(before: Files, consumed: Files, now: Files, m: PendingMarker)
    requires SameLive(before, consumed) && (m.staged.Some? ==> SameAt(before, consumed, m.staged.value))
    ensures forall codecs :: Doable(codecs, before, m) <==> Doable(codecs, consumed, m)
    ensures m.staged.Some? && Swapped(consumed, now, m.requestId, m.staged.value) ==>
              Swapped(before, now, m.requestId, m.staged.value)
    ensures forall a :: Describes(a, m, consumed) ==> Describes(a, m, before)
    ensures Conserved(consumed, now, m.requestId) ==> Conserved(before, now, m.requestId)
    ensures SameLive(consumed, now) ==> SameLive(before, now)
  {
    if m.staged.Some? {
      Rebase(before, consumed, now, m.requestId, m.staged.value);
    } else {
      Rebase(before, consumed, now, m.requestId, Database);
    }
  }

  // ---------------------------------------------------------------- undoing an installed restore

  /** What a completed rollback has done with the safety directory. */
  ghost predicate Undone(failed: Files, now: Files, application: Application) {
    var request := application.requestId;
    && (if Keep(request, Database) in failed
        then Database in now && now[Database] == failed[Keep(request, Database)]
        else Database !in now)
    && (forall k :: if k in application.sidecars && Keep(request, Sidecar(k)) in failed
                    then Sidecar(k) in now && now[Sidecar(k)] == failed[Keep(request, Sidecar(k))]
                    else SameAt(failed, now, Sidecar(k)))
    && (Database in failed ==>
          Safety(request, FailedRestored) in now && now[Safety(request, FailedRestored)] == failed[Database])
  }

  /** A kept original is still kept, or back at its place. */
  ghost predicate StillThere(failed: Files, now: Files, request: string, p: Path)
    requires Live(p)
  {
    Keep(request, p) in failed ==>
      || (Keep(request, p) in now && now[Keep(request, p)] == failed[Keep(request, p)])
      || (p in now && now[p] == failed[Keep(request, p)])
  }

  predicate RollbackTouches(p: Path, request: string) {
    Live(p) || (p.Safety? && p.request == request) || p.PendingRestore? || p.RestoreStatus? || p.RestoreStatusTemp?
  }

  method RollbackSidecars(disk: Volume, application: Application) returns (ok: bool)
    requires Distinct(application.sidecars)
    modifies disk
    ensures disk.clock >= old(disk.clock)
    ensures OnlySidecarsMoved(old(disk.files), disk.files, application.requestId)
    ensures forall k :: StillThere(old(disk.files), disk.files, application.requestId, Sidecar(k))
    ensures ok ==> forall k ::
              if k in application.sidecars && Keep(application.requestId, Sidecar(k)) in old(disk.files)
              then Sidecar(k) in disk.files
                && disk.files[Sidecar(k)] == old(disk.files)[Keep(application.requestId, Sidecar(k))]
              else SameAt(old(disk.files), disk.files, Sidecar(k))
    ensures disk.Calm(old(disk.clock), disk.clock) ==> ok
  {
    var request, kinds := application.requestId, application.sidecars;
    ghost var failed := disk.files;
    var i := 0;
    while i < |kinds|
      invariant 0 <= i <= |kinds| && disk.clock >= old(disk.clock)
      invariant OnlySidecarsMoved(failed, disk.files, request)
      invariant forall k :: k !in kinds[..i] ==>
                  SameAt(failed, disk.files, Sidecar(k)) && SameAt(failed, disk.files, Keep(request, Sidecar(k)))
      invariant forall k :: k in kinds[..i] ==>
                  if Keep(request, Sidecar(k)) in failed
                  then Sidecar(k) in disk.files && disk.files[Sidecar(k)] == failed[Keep(request, Sidecar(k))]
                  else SameAt(failed, disk.files, Sidecar(k)) && SameAt(failed, disk.files, Keep(request, Sidecar(k)))
    {
      var k := kinds[i];
      assert kinds[..i + 1] == kinds[..i] + [k];
      assert k !in kinds[..i];
      if Safety(request, OriginalSidecar(k)) in disk.files {
        ghost var t := disk.clock;
        ok := disk.Rename(Safety(request, OriginalSidecar(k)), Sidecar(k));
        if !ok {
          assert disk.fails(t);
          return;
        }
      }
      i := i + 1;
    }
    assert kinds[..i] == kinds;
    ok := true;
  }

  /** Quarantines the failed database and puts the original back, if there was one. */
  method RollbackDatabase(disk: Volume, request: string) returns (ok: bool)
    modifies disk
    ensures disk.clock >= old(disk.clock)
    ensures forall p: Path :: p !in {Database, Safety(request, FailedRestored), Safety(request, OriginalDatabase)} ==>
              SameAt(old(disk.files), disk.files, p)
    ensures StillThere(old(disk.files), disk.files, request, Database)
    ensures ok ==>
              && (if Keep(request, Database) in old(disk.files)
                  then Database in disk.files && disk.files[Database] == old(disk.files)[Keep(request, Database)]
                  else Database !in disk.files)
              && (Database in old(disk.files) ==>
                    && Safety(request, FailedRestored) in disk.files
                    && disk.files[Safety(request, FailedRestored)] == old(disk.files)[Database])
    ensures disk.Calm(old(disk.clock), disk.clock) ==> ok
  {
    ghost var t := disk.clock;
    if Database in disk.files {
      ok := disk.Rename(Database, Safety(request, FailedRestored));
      if !ok {
        assert disk.fails(t);
        return;
      }
    }
    t := disk.clock;
    if Safety(request, OriginalDatabase) in disk.files {
      ok := disk.Rename(Safety(request, OriginalDatabase), Database);
      if !ok {
        assert disk.fails(t);
        return;
      }
    }
    ok := true;
  }

  /** Removes the marker and reports; its outcome is the outcome of the report. */
  method Conclude(disk: Volume, codecs: Codecs, status: string, backupId: string) returns (ok: bool)
    modifies disk
    ensures disk.clock >= old(disk.clock)
    ensures forall p :: p != PendingRestore && p != RestoreStatus && p != RestoreStatusTemp ==>
              SameAt(old(disk.files), disk.files, p)
    ensures PendingRestore !in old(disk.files) ==> PendingRestore !in disk.files
    ensures ok ==> Reports(codecs, disk.files, status, backupId)
    ensures disk.Calm(old(disk.clock), disk.clock) ==> ok && PendingRestore !in disk.files
  {
    ghost var t := disk.clock;
    var removed := disk.Remove(PendingRestore);
    assert !removed && PendingRestore in disk.files ==> disk.fails(t);
    ghost var cleaned := disk.files;
    ok := disk.Publish(RestoreStatus, RestoreStatusTemp, codecs.encodeStatus(status, backupId));
    forall p | p != PendingRestore && p != RestoreStatus && p != RestoreStatusTemp
      ensures SameAt(old(disk.files), disk.files, p)
    {
      assert SameAt(old(disk.files), cleaned, p) && SameAt(cleaned, disk.files, p);
    }
    assert SameAt(cleaned, disk.files, PendingRestore);
  }

  method RollbackRestore(disk: Volume, codecs: Codecs, application: Application) returns (ok: bool)
    requires Distinct(application.sidecars)
    modifies disk
    ensures disk.clock >= old(disk.clock)
    ensures ok ==> Undone(old(disk.files), disk.files, application)
                   && Reports(codecs, disk.files, "rolled_back", application.backupId)
    ensures forall p :: Live(p) ==> StillThere(old(disk.files), disk.files, application.requestId, p)
    ensures forall p :: !RollbackTouches(p, application.requestId) ==> SameAt(old(disk.files), disk.files, p)
    ensures forall request, e ::
              request != application.requestId ==> SameAt(old(disk.files), disk.files, Safety(request, e))
    ensures PendingRestore !in old(disk.files) ==> PendingRestore !in disk.files
    ensures disk.Calm(old(disk.clock), disk.clock) ==> ok
  {
    var request := application.requestId;
    ghost var failed := disk.files;
    ok := RollbackDatabase(disk, request);
    ghost var swapped := disk.files;
    assert SameAt(failed, swapped, PendingRestore);
    DatabaseThenSidecars(failed, swapped, swapped, application);
    if !ok {
      return;
    }
    ok := RollbackSidecars(disk, application);
    ghost var restored := disk.files;
    assert SameAt(swapped, restored, PendingRestore);
    DatabaseThenSidecars(failed, swapped, restored, application);
    if !ok {
      return;
    }
    ok := Conclude(disk, codecs, "rolled_back", application.backupId);
    Concluded(failed, restored, disk.files, application);
  }

  lemma Concluded(failed: Files, restored: Files, now: Files, application: Application)
    requires forall p :: p != PendingRestore && p != RestoreStatus && p != RestoreStatusTemp ==>
              SameAt(restored, now, p)
    ensures Undone(failed, restored, application) ==> Undone(failed, now, application)
    ensures forall p :: Live(p) && StillThere(failed, restored, application.requestId, p) ==>
              StillThere(failed, now, application.requestId, p)
    ensures forall p :: !RollbackTouches(p, application.requestId) && SameAt(failed, restored, p) ==>
              SameAt(failed, now, p)
  {
    assert SameAt(restored, now, Database) && SameAt(restored, now, Safety(application.requestId, FailedRestored));
    forall p | Live(p) ensures SameAt(restored, now, p) && SameAt(restored, now, Keep(application.requestId, p)) {
    }
    forall k ensures SameAt(restored, now, Sidecar(k)) {
    }
    forall p | !RollbackTouches(p, application.requestId) ensures SameAt(restored, now, p) {
    }
  }

  /** The database step and the sidecar steps touch different files. */
  lemma DatabaseThenSidecars(failed: Files, swapped: Files, restored: Files, application: Application)
    requires OnlySidecarsMoved(swapped, restored, application.requestId)
    requires forall p: Path ::
               p !in {Database, Safety(application.requestId, FailedRestored),
                      Safety(application.requestId, OriginalDatabase)}
               ==> SameAt(failed, swapped, p)
    requires StillThere(failed, swapped, application.requestId, Database)
    requires forall k :: StillThere(swapped, restored, application.requestId, Sidecar(k))
    ensures SameAt(swapped, restored, Database)
    ensures SameAt(swapped, restored, Safety(application.requestId, FailedRestored))
    ensures forall p :: Live(p) ==> StillThere(failed, restored, application.requestId, p)
    ensures forall k :: && SameAt(failed, swapped, Sidecar(k))
                        && SameAt(failed, swapped, Keep(application.requestId, Sidecar(k)))
    ensures forall p :: !RollbackTouches(p, application.requestId) ==> SameAt(failed, restored, p)
  {
    var request := application.requestId;
    assert SameAt(swapped, restored, Safety(request, OriginalDatabase)) && SameAt(swapped, restored, Database);
    forall p | Live(p) ensures StillThere(failed, restored, request, p) {
      if p.Sidecar? {
        assert SameAt(failed, swapped, Keep(request, p)) && StillThere(swapped, restored, request, Sidecar(p.kind));
      }
    }
    forall p | !RollbackTouches(p, request) ensures SameAt(failed, restored, p) {
      assert SameAt(failed, swapped, p) && SameAt(swapped, restored, p);
    }
  }

  /**
   The round trip. Whatever the failed start wrote, the database and every sidecar that existed
   before the restore come back; the live files come back exactly if and only if the failed start
   left no sidecar beside the database that was not there before.
   */
  lemma RestoreRoundTrip(codecs: Codecs, before: Files, installed: Files, failed: Files, after: Files,
                         application: Application)
    requires InstalledFrom(codecs, before, installed, application)
    requires forall e :: SameAt(installed, failed, Safety(application.requestId, e))
    requires Undone(failed, after, application)
    ensures SameAt(before, after, Database)
    ensures forall k :: Sidecar(k) in before ==> SameAt(before, after, Sidecar(k))
    ensures SameLive(before, after) <==> forall k :: Sidecar(k) !in before ==> Sidecar(k) !in failed
  {
    var request := application.requestId;
    assert SameAt(installed, failed, Keep(request, Database)) && Live(Database);
    forall k ensures Keep(request, Sidecar(k)) in failed <==> Sidecar(k) in before
             ensures Sidecar(k) in before ==> failed[Keep(request, Sidecar(k))] == before[Sidecar(k)]
    {
      assert SameAt(installed, failed, Keep(request, Sidecar(k))) && Live(Sidecar(k));
    }
    forall k
      ensures if Sidecar(k) in before then SameAt(before, after, Sidecar(k)) else SameAt(failed, after, Sidecar(k))
    {
      assert k in application.sidecars <==> Sidecar(k) in before;
    }
    if SameLive(before, after) {
      forall k | Sidecar(k) !in before ensures Sidecar(k) !in failed {
        assert SameAt(before, after, Sidecar(k));
      }
    }
    if forall k :: Sidecar(k) !in before ==> Sidecar(k) !in failed {
      forall p | Live(p) ensures SameAt(before, after, p) {
        if p.Sidecar? {
          assert if Sidecar(p.kind) in before then SameAt(before, after, p) else SameAt(failed, after, p);
        }
      }
    }
  }

  /** Removes what the restore consumed and reports success; the swap itself is left alone. */
  method FinalizeRestore(disk: Volume, codecs: Codecs, application: Application) returns (ok: bool)
    modifies disk
    ensures disk.clock >= old(disk.clock)
    ensures forall p :: p != PendingRestore && p != application.staged && p != RestoreStatus && p != RestoreStatusTemp
              ==> SameAt(old(disk.files), disk.files, p)
    ensures PendingRestore !in old(disk.files) ==> PendingRestore !in disk.files
    ensures ok ==> Reports(codecs, disk.files, "succeeded", application.backupId)
    ensures disk.Calm(old(disk.clock), disk.clock) ==>
              ok && PendingRestore !in disk.files && (application.staged.Other? ==> application.staged !in disk.files)
  {
    ghost var t := disk.clock;
    var removed := disk.Remove(PendingRestore);
    assert !removed && PendingRestore in disk.files ==> disk.fails(t);
    t := disk.clock;
    removed := disk.Remove(application.staged);
    assert !removed && application.staged in disk.files ==> disk.fails(t);
    ghost var cleaned := disk.files;
    ok := disk.Publish(RestoreStatus, RestoreStatusTemp, codecs.encodeStatus("succeeded", application.backupId));
    forall p | p != PendingRestore && p != application.staged && p != RestoreStatus && p != RestoreStatusTemp
      ensures SameAt(old(disk.files), disk.files, p)
    {
      assert SameAt(old(disk.files), cleaned, p) && SameAt(cleaned, disk.files, p);
    }
    assert SameAt(cleaned, disk.files, PendingRestore);
    assert application.staged.Other? ==> SameAt(cleaned, disk.files, application.staged);
  }

  // ---------------------------------------------------------------- at most once

  datatype Event = Published(marker: Bytes) | Started

  /** What one event does to the files: a marker appears, or a start applies what is pending,
      whatever fails on the way. */
  ghost predicate Happens(codecs: Codecs, before: Files, now: Files, event: Event, r: Applied, calm: bool,
                          oneFault: bool)
  {
    match event
    case Published(marker) => now == before[PendingRestore := marker] && r.NothingPending?
    case Started => RestoreOutcome(codecs, before, now, r, calm, oneFault)
  }

  /** What came of the events: `states[i + 1]` is what event `i` left, `results[i]` what a start
      reported, and `ticks[i]` when the event began. */
  datatype History = History(states: seq<Files>, events: seq<Event>, results: seq<Applied>, ticks: seq<nat>) {
    predicate Aligned() {
      |states| == |ticks| == |events| + 1 && |results| == |events|
    }

    function Until(n: nat): History
      requires Aligned() && n <= |events|
    {
      History(states[..n + 1], events[..n], results[..n], ticks[..n + 1])
    }
  }

  ghost predicate IsRestoreHistory(disk: Volume, codecs: Codecs, h: History) {
    && h.Aligned()
    && forall i {:trigger HappensAt(disk, codecs, h, i)} :: 0 <= i < |h.events| ==> HappensAt(disk, codecs, h, i)
  }

  ghost predicate HappensAt(disk: Volume, codecs: Codecs, h: History, i: nat)
    requires h.Aligned() && i < |h.events|
  {
    && h.ticks[i] <= h.ticks[i + 1]
    && Happens(codecs, h.states[i], h.states[i + 1], h.events[i], h.results[i],
               disk.Calm(h.ticks[i], h.ticks[i + 1]), disk.OneFault(h.ticks[i], h.ticks[i + 1]))
  }

  /** Runs the events, whichever operations fail and wherever processes die. */
  method RunEvents(disk: Volume, codecs: Codecs, events: seq<Event>)
    returns (results: seq<Applied>, ghost h: History)
    modifies disk
    ensures IsRestoreHistory(disk, codecs, h) && h.events == events && h.results == results
    ensures h.states[0] == old(disk.files) && h.states[|events|] == disk.files
    ensures h.ticks[0] == old(disk.clock) && h.ticks[|events|] == disk.clock
  {
    results, h := [], History([disk.files], [], [], [disk.clock]);
    for i := 0 to |events|
      invariant IsRestoreHistory(disk, codecs, h) && h.events == events[..i] && h.results == results
      invariant h.states[0] == old(disk.files) && h.states[i] == disk.files
      invariant h.ticks[0] == old(disk.clock) && h.ticks[i] == disk.clock
    {
      var r := NothingPending;
      match events[i] {
        case Published(marker) => disk.files := disk.files[PendingRestore := marker];
        case Started => r := ApplyPendingRestore(disk, codecs);
      }
      ghost var grown := History(h.states + [disk.files], h.events + [events[i]], h.results + [r],
                                 h.ticks + [disk.clock]);
      HistoryGrows(disk, codecs, h, grown);
      results, h := results + [r], grown;
    }
  }

  lemma HistoryGrows(disk: Volume, codecs: Codecs, h: History, grown: History)
    requires IsRestoreHistory(disk, codecs, h) && grown.Aligned() && |grown.events| == |h.events| + 1
    requires grown.Until(|h.events|) == h && HappensAt(disk, codecs, grown, |h.events|)
    ensures IsRestoreHistory(disk, codecs, grown)
  {
    forall i: nat | i < |grown.events| ensures HappensAt(disk, codecs, grown, i) {
      if i < |h.events| {
        assert HappensAt(disk, codecs, h, i);
        SameEvent(disk, codecs, grown, |h.events|, i);
      }
    }
  }

  lemma SameEvent(disk: Volume, codecs: Codecs, h: History, n: nat, i: nat)
    requires h.Aligned() && i < n <= |h.events|
    ensures HappensAt(disk, codecs, h.Until(n), i) <==> HappensAt(disk, codecs, h, i)
  {
  }

  /** In every history, a start in which nothing fails installs what is pending if and only if the
      marker asks for a restore that may be applied. */
  lemma CalmStartInstalls(disk: Volume, codecs: Codecs, h: History, i: nat)
    requires IsRestoreHistory(disk, codecs, h) && i < |h.events| && h.events[i].Started?
    requires Ordinary(codecs, h.states[i]) && disk.Calm(h.ticks[i], h.ticks[i + 1])
    ensures h.results[i].Installed? <==> PassesChecks(codecs, h.states[i])
    ensures h.results[i].Installed? ==>
              InstalledFrom(codecs, h.states[i], h.states[i + 1], h.results[i].application)
  {
    AcceptableIsChecked(codecs, h.states[i]);
    assert HappensAt(disk, codecs, h, i);
  }

  lemma {:induction false} NothingToInstall(disk: Volume, codecs: Codecs, h: History, i: nat, j: nat)
    requires IsRestoreHistory(disk, codecs, h) && i <= j < |h.events|
    requires PendingRestore !in h.states[i] && forall k :: i <= k < j ==> !h.events[k].Published?
    ensures PendingRestore !in h.states[j] && (h.events[j].Started? ==> !h.results[j].Installed?)
    decreases j - i
  {
    if i < j {
      NothingToInstall(disk, codecs, h, i, j - 1);
      assert HappensAt(disk, codecs, h, j - 1);
    }
    assert HappensAt(disk, codecs, h, j);
  }

  /** Between two installs a marker has been published. */
  lemma InstallsAreApart(disk: Volume, codecs: Codecs, h: History, i: nat, j: nat)
    requires IsRestoreHistory(disk, codecs, h) && i < j < |h.events|
    requires h.results[i].Installed? && h.results[j].Installed?
    ensures exists k :: i < k < j && h.events[k].Published?
  {
    assert HappensAt(disk, codecs, h, i) && HappensAt(disk, codecs, h, j);
    if forall k :: i < k < j ==> !h.events[k].Published? {
      NothingToInstall(disk, codecs, h, i + 1, j);
    }
  }

  ghost function Installs(results: seq<Applied>): nat {
    |set i | 0 <= i < |results| && results[i].Installed?|
  }

  ghost function Markers(events: seq<Event>): nat {
    |set i | 0 <= i < |events| && events[i].Published?|
  }

  lemma InstallsGrow(rs: seq<Applied>)
    requires rs != []
    ensures var n := |rs| - 1; Installs(rs) == Installs(rs[..n]) + if rs[n].Installed? then 1 else 0
  {
    var n := |rs| - 1;
    var before := set i | 0 <= i < n && rs[..n][i].Installed?;
    assert (set i | 0 <= i < |rs| && rs[i].Installed?) == before + if rs[n].Installed? then {n} else {};
  }

  lemma MarkersGrow(es: seq<Event>)
    requires es != []
    ensures var n := |es| - 1; Markers(es) == Markers(es[..n]) + if es[n].Published? then 1 else 0
  {
    var n := |es| - 1;
    var before := set i | 0 <= i < n && es[..n][i].Published?;
    assert (set i | 0 <= i < |es| && es[i].Published?) == before + if es[n].Published? then {n} else {};
  }

  /** There are never more installs than markers published or left from before. */
  lemma {:induction false} RestoreAtMostOnce(disk: Volume, codecs: Codecs, h: History)
    requires IsRestoreHistory(disk, codecs, h)
    ensures Installs(h.results) + (if PendingRestore in h.states[|h.events|] then 1 else 0)
         <= Markers(h.events) + (if PendingRestore in h.states[0] then 1 else 0)
    decreases |h.events|
  {
    if h.events != [] {
      var n := |h.events| - 1;
      forall i: nat | i < n ensures HappensAt(disk, codecs, h.Until(n), i) {
        SameEvent(disk, codecs, h, n, i);
      }
      RestoreAtMostOnce(disk, codecs, h.Until(n));
      InstallsGrow(h.results);
      MarkersGrow(h.events);
      assert HappensAt(disk, codecs, h, n);
    }
  }
}
