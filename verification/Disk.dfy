/**
 The app-data directory as the desktop shell sees it: a mutable map from paths to bytes.

 Every operation consults an oracle that may make it fail. A process that dies is one whose
 remaining operations all fail, so statements about every oracle cover death at every point.
 A write or copy that fails may leave torn contents in its target; a rename is atomic.
 */
module Disk {
  import opened Wrappers

  /** One character per byte. */
  type Bytes = string

  datatype SidecarKind = Wal | Shm | Journal

  /** What a restore keeps under restore-safety/<request>. */
  datatype SafetyEntry = ConsumedMarker | OriginalDatabase | OriginalSidecar(kind: SidecarKind) | FailedRestored

  /** What a migration rollback keeps under migration-safety/<attempt>. */
  datatype EvidenceEntry = FailedDatabase | FailedSidecar(kind: SidecarKind)

  /** The paths the shell derives, all different; `Other` is any other file under app data. */
  datatype Path =
    | Database
    | Sidecar(kind: SidecarKind)
    | RollbackTemp
    | PendingRestore
    | Quarantined(n: nat)
    | Safety(request: string, entry: SafetyEntry)
    | RestoreStatus
    | RestoreStatusTemp
    | MigrationAttempt
    | MigrationAttemptTemp
    | Evidence(attempt: string, item: EvidenceEntry)
    | Other(name: string)

  type Files = map<Path, Bytes>

  const KINDS: seq<SidecarKind> := [Wal, Shm, Journal]

  lemma KindsAreAll(k: SidecarKind)
    ensures k in KINDS
  {
  }

  /** The database and its SQLite sidecars. */
  predicate Live(p: Path) {
    p.Database? || p.Sidecar?
  }

  predicate SameAt(a: Files, b: Files, p: Path) {
    (p in a <==> p in b) && (p in a ==> a[p] == b[p])
  }

  ghost predicate SameLive(a: Files, b: Files) {
    forall p :: Live(p) ==> SameAt(a, b, p)
  }

  function Moved(files: Files, source: Path, target: Path): Files
    requires source in files
  {
    (files - {source})[target := files[source]]
  }

  class Volume {
    const fails: nat -> bool
    const torn: nat -> Option<Bytes>
    var files: Files
    var clock: nat

    constructor (files: Files, fails: nat -> bool, torn: nat -> Option<Bytes>)
      ensures this.files == files && this.fails == fails && this.torn == torn && clock == 0
    {
      this.files, this.fails, this.torn := files, fails, torn;
      clock := 0;
    }

    /** No operation from `from` on up to `to` fails by itself. */
    ghost predicate Calm(from: nat, to: nat) {
      forall k {:trigger fails(k)} :: from <= k < to ==> !fails(k)
    }

    /** At most one operation in the interval fails by itself. */
    ghost predicate OneFault(from: nat, to: nat) {
      forall j, k {:trigger fails(j), fails(k)} :: from <= j < to && from <= k < to && fails(j) && fails(k) ==> j == k
    }

    method Rename(source: Path, target: Path) returns (ok: bool)
      modifies this
      ensures clock == old(clock) + 1
      ensures ok <==> source in old(files) && !fails(old(clock))
      ensures files == if ok then Moved(old(files), source, target) else old(files)
    {
      ok := source in files && !fails(clock);
      if ok { files := Moved(files, source, target); }
      clock := clock + 1;
    }

    method Write(target: Path, bytes: Bytes) returns (ok: bool)
      modifies this
      ensures clock == old(clock) + 1
      ensures ok <==> !fails(old(clock))
      ensures ok ==> files == old(files)[target := bytes]
      ensures forall p :: p != target ==> SameAt(old(files), files, p)
    {
      ok := !fails(clock);
      if ok {
        files := files[target := bytes];
      } else if torn(clock).Some? {
        files := files[target := torn(clock).value];
      }
      clock := clock + 1;
    }

    method Copy(source: Path, target: Path) returns (ok: bool)
      modifies this
      ensures clock == old(clock) + 1
      ensures ok <==> source in old(files) && !fails(old(clock))
      ensures ok ==> files == old(files)[target := old(files)[source]]
      ensures forall p :: p != target ==> SameAt(old(files), files, p)
    {
      ok := source in files && !fails(clock);
      if ok {
        files := files[target := files[source]];
      } else if torn(clock).Some? {
        files := files[target := torn(clock).value];
      }
      clock := clock + 1;
    }

    method Remove(target: Path) returns (ok: bool)
      modifies this
      ensures clock == old(clock) + 1
      ensures ok <==> target in old(files) && !fails(old(clock))
      ensures files == if ok then old(files) - {target} else old(files)
    {
      ok := target in files && !fails(clock);
      if ok { files := files - {target}; }
      clock := clock + 1;
    }

    method Read(source: Path) returns (bytes: Option<Bytes>)
      modifies this`clock
      ensures clock == old(clock) + 1
      ensures bytes == if source in files && !fails(old(clock)) then Some(files[source]) else None
    {
      bytes := if source in files && !fails(clock) then Some(files[source]) else None;
      clock := clock + 1;
    }

    /** Directories are not represented; creating one can only fail. */
    method CreateDirectory() returns (ok: bool)
      modifies this`clock
      ensures clock == old(clock) + 1
      ensures ok <==> !fails(old(clock))
    {
      ok := !fails(clock);
      clock := clock + 1;
    }

    /** Writes beside the target and renames over it, so the target is replaced as a whole. */
    method Publish(target: Path, temporary: Path, bytes: Bytes) returns (ok: bool)
      requires target != temporary
      modifies this
      ensures clock > old(clock)
      ensures ok ==> target in files && files[target] == bytes && temporary !in files
      ensures forall p :: p != temporary && (p != target || !ok) ==> SameAt(old(files), files, p)
      ensures ok <==> Calm(old(clock), old(clock) + 2)
      ensures ok ==> clock == old(clock) + 2
      ensures !ok ==> !Calm(old(clock), clock)
    {
      ghost var start := clock;
      ok := Write(temporary, bytes);
      if !ok {
        assert fails(start);
        return;
      }
      ok := Rename(temporary, target);
      if !ok {
        assert fails(start + 1);
      }
    }
  }
}
