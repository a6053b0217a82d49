/**
 The local schema migrator (apps/api/app/db/local_migrations.py:169-377): inspecting the stored
 schema, journalling an attempt and applying a plan in one transaction with the version bump.

 The database file is an object with a committed and a working copy. Every SQL statement and
 every commit consults an oracle that lets it proceed, raise, or kill the process, so one call
 of `RunMigrations` covers every place where the process can stop. `Stage` names the durable
 states a call can leave behind.
 */
module SchemaMigrator {
  import opened Wrappers
  import opened LocalMigrations

  // ---------------------------------------------------------------- stored state

  datatype Cell = Version(n: int) | NotAnInteger

  datatype Status = InProgress | Interrupted | Completed | Failed

  datatype Row = Row(attempt: string, from: int, target: int, ids: seq<string>, startedAt: int,
                     status: Status, backup: Option<string>)

  /** `versions` holds the LOCAL_DESKTOP rows; `None` stands for a table that does not exist. */
  datatype Db<D> = Db(data: D, versions: Option<seq<Cell>>, journal: Option<seq<Row>>)

  datatype SchemaState =
    | Current
    | UpgradeRequired
    | MigrationInProgress
    | FailedMigration
    | NewerVersionUnsupported
    | UnknownOrCorrupt

  datatype SchemaInfo<!D> =
    SchemaInfo(state: SchemaState, current: Option<int>, target: int, plan: Option<seq<Migration<D>>>, message: string)

  function StoredVersion<D>(db: Db<D>): Option<int> {
    if db.versions.Some? && |db.versions.value| == 1 then
      match db.versions.value[0]
      case Version(n) => if n >= 1 then Some(n) else None
      case NotAnInteger => None
    else None
  }

  function Rows<D>(db: Db<D>): seq<Row> {
    match db.journal
    case None => []
    case Some(rows) => rows
  }

  predicate HasStatus(rows: seq<Row>, status: Status) {
    exists i :: 0 <= i < |rows| && rows[i].status == status
  }

  function Inspect<D>(db: Db<D>, ms: seq<Migration<D>>, target: int): SchemaInfo<D> {
    match StoredVersion(db)
    case None =>
      SchemaInfo(UnknownOrCorrupt, None, target, None,
                 if db.versions.None? then "Schema version table is missing."
                 else "Schema version record is missing or corrupt.")
    case Some(current) =>
      if HasStatus(Rows(db), InProgress) then
        SchemaInfo(MigrationInProgress, Some(current), target, None,
                   "A previous migration attempt is still in progress.")
      else if HasStatus(Rows(db), Failed) then
        SchemaInfo(FailedMigration, Some(current), target, None, "A previous local migration failed.")
      else if current > target then
        SchemaInfo(NewerVersionUnsupported, Some(current), target, None,
                   "The database is newer than this application supports.")
      else if current == target then SchemaInfo(Current, Some(current), target, None, "")
      else
        match PlanOf(current, target, ms)
        case NoPlan(e) => SchemaInfo(UnknownOrCorrupt, Some(current), target, None, e.message)
        case Planned(plan) => SchemaInfo(UpgradeRequired, Some(current), target, Some(plan), "")
  }

  // ---------------------------------------------------------------- one call

  datatype SafetyBackup = SafetyBackup(reference: string, identity: string, validated: bool)

  /** The integrity checks of `_validate_integrity`, as functions of the edited data. */
  datatype Checks<!D> = Checks(foreignKeysOn: bool, foreignKeysClean: D -> bool, intact: D -> bool)

  datatype Call<!D> =
    Call(migrations: seq<Migration<D>>, target: int, backup: Option<SafetyBackup>, identity: string,
         attempt: string, now: int, checks: Checks<D>)

  datatype Report = Report(attempt: string, state: SchemaState, from: int, target: int, ids: seq<string>)

  datatype Outcome = Finished(report: Report) | Raised(code: string) | Died

  function IntegrityError<D>(checks: Checks<D>, data: D): Option<string> {
    if !checks.foreignKeysOn then Some("foreign_keys_disabled")
    else if !checks.foreignKeysClean(data) then Some("foreign_key_check_failed")
    else if !checks.intact(data) then Some("integrity_check_failed")
    else None
  }

  function ApplyAll<D>(plan: seq<Migration<D>>, data: D): Option<D> {
    if plan == [] then Some(data)
    else
      match plan[0].apply(data)
      case None => None
      case Some(next) => ApplyAll(plan[1..], next)
  }

  function Ids<D>(plan: seq<Migration<D>>): seq<string> {
    seq(|plan|, i requires 0 <= i < |plan| => plan[i].id)
  }

  function Mark(rows: seq<Row>, attempt: string, status: Status): seq<Row> {
    seq(|rows|, i requires 0 <= i < |rows| =>
        if rows[i].attempt == attempt then rows[i].(status := status) else rows[i])
  }

  function Sweep(rows: seq<Row>): seq<Row> {
    seq(|rows|, i requires 0 <= i < |rows| =>
        if rows[i].status == InProgress then rows[i].(status := Interrupted) else rows[i])
  }

  predicate Known(rows: seq<Row>, attempt: string) {
    exists i :: 0 <= i < |rows| && rows[i].attempt == attempt
  }

  predicate BackupAccepted<D>(call: Call<D>, plan: seq<Migration<D>>) {
    (exists i :: 0 <= i < |plan| && plan[i].requiresBackup)
    ==> call.backup.Some? && call.backup.value.validated && call.backup.value.identity == call.identity
  }

  // ---------------------------------------------------------------- durable stages

  /** What a call leaves in the file, from nothing at all to a completed migration. */
  datatype Stage =
    | Untouched          // stopped before the journal table existed
    | JournalReady       // journal table committed
    | SweptClean         // earlier attempts marked INTERRUPTED
    | Recorded           // this attempt committed as IN_PROGRESS
    | RolledBack         // attempt FAILED, data and version as before
    | Advanced           // data and version committed, attempt still IN_PROGRESS
    | AdvancedThenFailed // an error after the version commit
    | Done               // attempt COMPLETED

  /** The stages that carry the new data and version. */
  predicate Advances(stage: Stage) {
    stage in {Advanced, AdvancedThenFailed, Done}
  }

  function Prepared<D>(db: Db<D>): Db<D> {
    db.(journal := Some(Sweep(Rows(db))))
  }

  function InfoFor<D>(db: Db<D>, call: Call<D>): SchemaInfo<D> {
    Inspect(Prepared(db), call.migrations, call.target)
  }

  function PlanFor<D>(db: Db<D>, call: Call<D>): seq<Migration<D>> {
    match InfoFor(db, call).plan
    case None => []
    case Some(plan) => plan
  }

  /** Everything the call checks before it records its attempt. */
  predicate Ready<D>(db: Db<D>, call: Call<D>) {
    && InfoFor(db, call).state == UpgradeRequired
    && BackupAccepted(call, PlanFor(db, call))
    && !Known(Rows(db), call.attempt)
  }

  /** Everything the call checks before it commits the new version. */
  predicate Sound<D>(db: Db<D>, call: Call<D>) {
    var result := ApplyAll(PlanFor(db, call), db.data);
    Ready(db, call) && result.Some? && IntegrityError(call.checks, result.value).None?
  }

  predicate Permits<D>(db: Db<D>, call: Call<D>, stage: Stage) {
    match stage
    case Untouched | JournalReady | SweptClean => true
    case Recorded | RolledBack => Ready(db, call)
    case Advanced | AdvancedThenFailed | Done => Sound(db, call)
  }

  function AttemptRow<D>(db: Db<D>, call: Call<D>, status: Status): Row
    requires Ready(db, call)
  {
    Row(call.attempt, InfoFor(db, call).current.value, call.target, Ids(PlanFor(db, call)), call.now, status,
        if call.backup.Some? then Some(call.backup.value.reference) else None)
  }

  /** The version UPDATE touches every LOCAL_DESKTOP row. */
  function Bumped<D>(db: Db<D>, call: Call<D>): Db<D> {
    match db.versions
    case None => db
    case Some(cells) => db.(versions := Some(seq(|cells|, _ => Version(call.target))))
  }

  function Journalled<D>(db: Db<D>, call: Call<D>, status: Status): Db<D>
    requires Ready(db, call)
  {
    db.(journal := Some(Sweep(Rows(db)) + [AttemptRow(db, call, status)]))
  }

  function Migrated<D>(db: Db<D>, call: Call<D>, status: Status): Db<D>
    requires Sound(db, call)
  {
    Bumped(Journalled(db, call, status), call).(data := ApplyAll(PlanFor(db, call), db.data).value)
  }

  function Durable<D>(db: Db<D>, call: Call<D>, stage: Stage): Db<D>
    requires Permits(db, call, stage)
  {
    match stage
    case Untouched => db
    case JournalReady => db.(journal := Some(Rows(db)))
    case SweptClean => Prepared(db)
    case Recorded => Journalled(db, call, InProgress)
    case RolledBack => Journalled(db, call, Failed)
    case Advanced => Migrated(db, call, InProgress)
    case AdvancedThenFailed => Migrated(db, call, Failed)
    case Done => Migrated(db, call, Completed)
  }

  /** Outcome and durable stage of a call that no statement error or death disturbs. */
  function Undisturbed<D>(db: Db<D>, call: Call<D>): (Outcome, Stage) {
    var info := InfoFor(db, call);
    if info.state == Current then
      (Finished(Report(call.attempt, Current, info.current.value, call.target, [])), SweptClean)
    else if info.state != UpgradeRequired then (Raised("schema_not_migratable"), SweptClean)
    else if !BackupAccepted(call, info.plan.value) then (Raised("safety_backup_required"), SweptClean)
    else if Known(Rows(db), call.attempt) then (Raised("sqlite_error"), SweptClean)
    else
      match ApplyAll(info.plan.value, db.data)
      case None => (Raised("migration_failed"), RolledBack)
      case Some(data) =>
        match IntegrityError(call.checks, data)
        case Some(code) => (Raised(code), RolledBack)
        case None =>
          (Finished(Report(call.attempt, Current, info.current.value, call.target, Ids(info.plan.value))), Done)
  }

  /** The plan applies and its result passes the integrity checks. */
  predicate Applies<D>(call: Call<D>, plan: seq<Migration<D>>, data: D) {
    var result := ApplyAll(plan, data);
    result.Some? && IntegrityError(call.checks, result.value).None?
  }

  function PlanError<D>(call: Call<D>, plan: seq<Migration<D>>, data: D): string
    requires !Applies(call, plan, data)
  {
    match ApplyAll(plan, data)
    case None => "migration_failed"
    case Some(result) => IntegrityError(call.checks, result).value
  }

  function Advance<D>(db: Db<D>, call: Call<D>, plan: seq<Migration<D>>): Db<D>
    requires Applies(call, plan, db.data)
  {
    Bumped(db, call).(data := ApplyAll(plan, db.data).value)
  }

  function WithStatus<D>(db: Db<D>, attempt: string, status: Status): Db<D> {
    db.(journal := Some(Mark(Rows(db), attempt, status)))
  }

  predicate EndsAttempt<D>(db: Db<D>, call: Call<D>, plan: seq<Migration<D>>, stage: Stage) {
    match stage
    case Recorded | RolledBack => true
    case Advanced | AdvancedThenFailed | Done => Applies(call, plan, db.data)
    case _ => false
  }

  /** The durable states of an attempt, as updates of the file that holds its IN_PROGRESS row. */
  function AttemptEnd<D>(db: Db<D>, call: Call<D>, plan: seq<Migration<D>>, stage: Stage): Db<D>
    requires EndsAttempt(db, call, plan, stage)
  {
    match stage
    case Recorded => db
    case RolledBack => WithStatus(db, call.attempt, Failed)
    case Advanced => Advance(db, call, plan)
    case AdvancedThenFailed => WithStatus(Advance(db, call, plan), call.attempt, Failed)
    case Done => WithStatus(Advance(db, call, plan), call.attempt, Completed)
  }

  lemma AttemptStates<D>(before: Db<D>, call: Call<D>, stage: Stage)
    requires Ready(before, call)
             && EndsAttempt(Journalled(before, call, InProgress), call, PlanFor(before, call), stage)
    ensures Permits(before, call, stage)
    ensures AttemptEnd(Journalled(before, call, InProgress), call, PlanFor(before, call), stage) ==
            Durable(before, call, stage)
  {
    SweepKeepsAttempts(Rows(before), call.attempt);
    var row := AttemptRow(before, call, InProgress);
    MarkLast(Sweep(Rows(before)), row, Failed);
    MarkLast(Sweep(Rows(before)), row, Completed);
  }

  /** How a call ends that records no attempt, once its inspection is known; the last case is the
      PRIMARY KEY of the journal. */
  function EarlyOutcome<D>(call: Call<D>, info: SchemaInfo<D>, known: bool): Option<Outcome>
    requires info.state == Current ==> info.current.Some?
    requires info.state == UpgradeRequired ==> info.plan.Some?
  {
    if info.state == Current then Some(Finished(Report(call.attempt, Current, info.current.value, call.target, [])))
    else if info.state != UpgradeRequired then Some(Raised("schema_not_migratable"))
    else if !BackupAccepted(call, info.plan.value) then Some(Raised("safety_backup_required"))
    else if known then Some(Raised("sqlite_error"))
    else None
  }

  lemma EarlyEnds<D>(db: Db<D>, call: Call<D>)
    ensures var info := InfoFor(db, call);
            && (info.state == Current ==> info.current.Some?)
            && (info.state == UpgradeRequired ==> info.plan == Some(PlanFor(db, call)) && info.current.Some?)
            && (EarlyOutcome(call, info, Known(Rows(db), call.attempt)).None? <==> Ready(db, call))
            && (!Ready(db, call) ==>
                  Undisturbed(db, call) == (EarlyOutcome(call, info, Known(Rows(db), call.attempt)).value, SweptClean))
  {
  }

  /** How a recorded attempt ends when nothing disturbs it. */
  function PlanOutcome<D>(call: Call<D>, from: int, plan: seq<Migration<D>>, data: D): (Outcome, Stage) {
    if Applies(call, plan, data) then (Finished(Report(call.attempt, Current, from, call.target, Ids(plan))), Done)
    else (Raised(PlanError(call, plan, data)), RolledBack)
  }

  lemma UndisturbedAttempt<D>(before: Db<D>, call: Call<D>)
    requires Ready(before, call)
    ensures Undisturbed(before, call) ==
            PlanOutcome(call, InfoFor(before, call).current.value, PlanFor(before, call), before.data)
  {
  }

  lemma MarkLast(rows: seq<Row>, row: Row, status: Status)
    requires !Known(rows, row.attempt)
    ensures Mark(rows + [row], row.attempt, status) == rows + [row.(status := status)]
  {
  }

  lemma SweepKeepsAttempts(rows: seq<Row>, attempt: string)
    ensures Known(Sweep(rows), attempt) == Known(rows, attempt)
  {
    assert forall i :: 0 <= i < |rows| ==> Sweep(rows)[i].attempt == rows[i].attempt;
    if Known(rows, attempt) {
      var i :| 0 <= i < |rows| && rows[i].attempt == attempt;
      assert Sweep(rows)[i].attempt == attempt;
    }
  }

  // ---------------------------------------------------------------- what a call owes its caller

  /** The one LOCAL_DESKTOP row holds a positive number. */
  ghost predicate Holds<D>(db: Db<D>, version: int) {
    db.versions.Some? && |db.versions.value| == 1 && db.versions.value[0] == Version(version) && version >= 1
  }

  ghost predicate JournalShows<D>(db: Db<D>, status: Status) {
    db.journal.Some? && exists r :: r in db.journal.value && r.status == status
  }

  ghost predicate Registered<D>(db: Db<D>, attempt: string) {
    db.journal.Some? && exists r :: r in db.journal.value && r.attempt == attempt
  }

  /** No migration of the plan needs a safety backup, or there is a validated one of this database. */
  ghost predicate Secured<D>(call: Call<D>, plan: seq<Migration<D>>) {
    (exists m :: m in plan && m.requiresBackup) ==>
      call.backup.Some? && call.backup.value.validated && call.backup.value.identity == call.identity
  }

  ghost predicate Healthy<D>(checks: Checks<D>, data: D) {
    checks.foreignKeysOn && checks.foreignKeysClean(data) && checks.intact(data)
  }

  /** Each migration of the plan edits what the one before it has left. */
  ghost predicate Edits<D>(plan: seq<Migration<D>>, before: D, states: seq<D>) {
    && |states| == |plan| + 1 && states[0] == before
    && forall i :: 0 <= i < |plan| ==> plan[i].apply(states[i]) == Some(states[i + 1])
  }

  lemma EditsOn<D>(plan: seq<Migration<D>>, data: D, states: seq<D>)
    requires plan != [] && Edits(plan, data, states)
    ensures Edits(plan[1..], states[1], states[1..])
  {
    forall i | 0 <= i < |plan| - 1 ensures plan[1..][i].apply(states[1..][i]) == Some(states[1..][i + 1]) {
      assert plan[i + 1].apply(states[i + 1]) == Some(states[i + 2]);
    }
  }

  lemma {:induction false} ApplyAllExactly<D>(plan: seq<Migration<D>>, data: D) returns (states: seq<D>)
    ensures forall other :: Edits(plan, data, other) ==> ApplyAll(plan, data) == Some(other[|plan|])
    ensures ApplyAll(plan, data).Some? ==> Edits(plan, data, states) && states[|plan|] == ApplyAll(plan, data).value
    decreases |plan|
  {
    forall other | Edits(plan, data, other) ensures ApplyAll(plan, data) == Some(other[|plan|]) {
      if plan != [] {
        assert plan[0].apply(other[0]) == Some(other[1]);
        EditsOn(plan, data, other);
        var _ := ApplyAllExactly(plan[1..], other[1]);
      }
    }
    states := [data];
    if plan != [] {
      match plan[0].apply(data)
      case None =>
      case Some(next) =>
        var rest := ApplyAllExactly(plan[1..], next);
        states := [data] + rest;
    }
  }

  lemma StoredExactly<D>(db: Db<D>, version: int)
    ensures StoredVersion(db) == Some(version) <==> Holds(db, version)
  {
  }

  /** What an inspection says about a database. */
  ghost predicate Inspected<D>(db: Db<D>, ms: seq<Migration<D>>, info: SchemaInfo<D>) {
    && (forall v :: info.current == Some(v) <==> Holds(db, v))
    && (info.state.UnknownOrCorrupt? <==>
          || info.current.None?
          || (&& !JournalShows(db, InProgress) && !JournalShows(db, Failed) && info.current.value < info.target
              && PlanOf(info.current.value, info.target, ms).NoPlan?))
    && (info.state.MigrationInProgress? <==> info.current.Some? && JournalShows(db, InProgress))
    && (info.state.FailedMigration? <==>
          info.current.Some? && !JournalShows(db, InProgress) && JournalShows(db, Failed))
    && (info.state.NewerVersionUnsupported? || info.state.Current? || info.state.UpgradeRequired? ==>
          !JournalShows(db, InProgress) && !JournalShows(db, Failed))
    && (info.state.NewerVersionUnsupported? ==> info.current.Some? && info.current.value > info.target)
    && (info.state.Current? ==> info.current == Some(info.target))
    && (info.state.UpgradeRequired? ==>
          && info.current.Some? && info.current.value < info.target && info.plan.Some?
          && PlanOf(info.current.value, info.target, ms) == Planned(info.plan.value))
    && (info.plan.Some? ==> info.state.UpgradeRequired?)
    && info.message == (match info.state
                        case Current | UpgradeRequired => ""
                        case MigrationInProgress => "A previous migration attempt is still in progress."
                        case FailedMigration => "A previous local migration failed."
                        case NewerVersionUnsupported => "The database is newer than this application supports."
                        case UnknownOrCorrupt =>
                          if info.current.Some? then PlanOf(info.current.value, info.target, ms).error.message
                          else if db.versions.None? then "Schema version table is missing."
                          else "Schema version record is missing or corrupt.")
  }

  /** There is a readable version that is the target, or from which a plan leads to it, and no
      attempt has failed. */
  ghost predicate Migratable<D>(db: Db<D>, call: Call<D>) {
    && (exists v :: Holds(db, v)) && !JournalShows(db, Failed)
    && var v := db.versions.value[0].n;
    v == call.target || (v < call.target && PlanOf(v, call.target, call.migrations).Planned?)
  }

  /** A call is refused or fails with this code; the reasons are found in this order. */
  ghost predicate Denied<D>(db: Db<D>, call: Call<D>, code: string) {
    if !Migratable(db, call) then code == "schema_not_migratable"
    else db.versions.value[0].n < call.target && MigrationDenied(db, call, code)
  }

  ghost predicate MigrationDenied<D>(db: Db<D>, call: Call<D>, code: string)
    requires Migratable(db, call) && db.versions.value[0].n < call.target
  {
    var plan := PlanOf(db.versions.value[0].n, call.target, call.migrations).plan;
    var edited := ApplyAll(plan, db.data);
    if !Secured(call, plan) then code == "safety_backup_required"
    else if Registered(db, call.attempt) then code == "sqlite_error"
    else if edited.None? then code == "migration_failed"
    else if !call.checks.foreignKeysOn then code == "foreign_keys_disabled"
    else if !call.checks.foreignKeysClean(edited.value) then code == "foreign_key_check_failed"
    else !call.checks.intact(edited.value) && code == "integrity_check_failed"
  }

  /** The database carries the whole plan from its version to the target, checked and secured. */
  ghost predicate Earned<D>(before: Db<D>, now: Db<D>, call: Call<D>) {
    && (exists v :: Holds(before, v)) && !JournalShows(before, Failed) && Holds(now, call.target)
    && var v := before.versions.value[0].n;
    && v < call.target && PlanOf(v, call.target, call.migrations).Planned?
    && var plan := PlanOf(v, call.target, call.migrations).plan;
    && Secured(call, plan) && !Registered(before, call.attempt)
    && ApplyAll(plan, before.data) == Some(now.data) && Healthy(call.checks, now.data)
  }

  /** The row of this attempt. */
  ghost predicate Records<D>(before: Db<D>, call: Call<D>, row: Row) {
    && Holds(before, row.from) && row.attempt == call.attempt && row.target == call.target && row.startedAt == call.now
    && PlanOf(row.from, call.target, call.migrations).Planned?
    && var plan := PlanOf(row.from, call.target, call.migrations).plan;
    && |row.ids| == |plan| && (forall i :: 0 <= i < |plan| ==> row.ids[i] == plan[i].id)
    && (row.backup.Some? <==> call.backup.Some?)
    && (row.backup.Some? ==> row.backup.value == call.backup.value.reference)
  }

  /** Earlier rows stay, except that open ones become INTERRUPTED; one row is added at most. */
  ghost predicate Continues<D>(before: Db<D>, now: Db<D>, call: Call<D>) {
    var earlier, rows := Rows(before), Rows(now);
    && |earlier| <= |rows| <= |earlier| + 1
    && (forall i :: 0 <= i < |earlier| ==>
          || rows[i] == earlier[i]
          || (earlier[i].status == InProgress && rows[i] == earlier[i].(status := Interrupted)))
    && (|rows| > |earlier| ==> Records(before, call, rows[|earlier|]))
  }

  /** What every call leaves, wherever it stops: the version moves only when the target was earned. */
  ghost predicate Leaves<D>(before: Db<D>, now: Db<D>, call: Call<D>) {
    && Continues(before, now, call)
    && if now.versions == before.versions then now.data == before.data else Earned(before, now, call)
  }

  /** What a call returns when nothing disturbs it, and the status of the row it has added. */
  ghost predicate Answers<D>(before: Db<D>, now: Db<D>, call: Call<D>, outcome: Outcome) {
    && !outcome.Died?
    && (forall code :: outcome == Raised(code) <==> Denied(before, call, code))
    && (outcome.Raised? ==> now.versions == before.versions)
    && (outcome.Finished? ==> Reports(before, now, call, outcome.report))
    && !JournalShows(now, InProgress)
    && (|Rows(now)| > |Rows(before)| ==>
          Rows(now)[|Rows(before)|].status == if outcome.Raised? then Failed else Completed)
    && (|Rows(now)| > |Rows(before)| <==>
          if outcome.Finished? then outcome.report.from < call.target
          else outcome.code !in {"schema_not_migratable", "safety_backup_required", "sqlite_error"})
  }

  ghost predicate Reports<D>(before: Db<D>, now: Db<D>, call: Call<D>, report: Report) {
    && report.attempt == call.attempt && report.state == Current && report.target == call.target
    && Holds(before, report.from) && Holds(now, call.target)
    && if report.from == call.target then report.ids == []
       else
         && Earned(before, now, call)
         && var plan := PlanOf(report.from, call.target, call.migrations).plan;
            |report.ids| == |plan| && forall i :: 0 <= i < |plan| ==> report.ids[i] == plan[i].id
  }

  lemma RowsSwept<D>(db: Db<D>)
    ensures JournalShows(db, Failed) <==> HasStatus(Rows(Prepared(db)), Failed)
    ensures !HasStatus(Rows(Prepared(db)), InProgress)
    ensures forall attempt :: Registered(db, attempt) <==> Known(Rows(db), attempt)
  {
    var swept := Rows(Prepared(db));
    forall i | 0 <= i < |swept| ensures swept[i].status == Failed <==> Rows(db)[i].status == Failed {
    }
    if JournalShows(db, Failed) {
      var i :| 0 <= i < |Rows(db)| && Rows(db)[i].status == Failed;
      assert swept[i].status == Failed;
    }
    forall attempt ensures Registered(db, attempt) <==> Known(Rows(db), attempt) {
      if Registered(db, attempt) {
        var i :| 0 <= i < |Rows(db)| && Rows(db)[i].attempt == attempt;
      }
    }
  }

  lemma SecuredExactly<D>(call: Call<D>, plan: seq<Migration<D>>)
    ensures BackupAccepted(call, plan) <==> Secured(call, plan)
  {
    if m :| m in plan && m.requiresBackup {
      var i :| 0 <= i < |plan| && plan[i] == m;
    }
  }

  lemma InspectExactly<D>(db: Db<D>, ms: seq<Migration<D>>, target: int)
    ensures Inspected(db, ms, Inspect(db, ms, target)) && Inspect(db, ms, target).target == target
  {
    var info := Inspect(db, ms, target);
    forall v ensures info.current == Some(v) <==> Holds(db, v) {
      StoredExactly(db, v);
    }
    ShownExactly(db, InProgress);
    ShownExactly(db, Failed);
  }

  lemma ShownExactly<D>(db: Db<D>, status: Status)
    ensures JournalShows(db, status) <==> HasStatus(Rows(db), status)
  {
    if JournalShows(db, status) {
      var i :| 0 <= i < |Rows(db)| && Rows(db)[i].status == status;
    }
  }

  /** What the inspection of a call finds, in terms of the database it was given. */
  lemma InfoExactly<D>(db: Db<D>, call: Call<D>)
    ensures var info := InfoFor(db, call);
            && (info.state in {Current, UpgradeRequired} <==> Migratable(db, call))
            && (Migratable(db, call) ==>
                  var v := db.versions.value[0].n;
                  && info.current == Some(v)
                  && (info.state == Current <==> v == call.target)
                  && (v < call.target ==> PlanOf(v, call.target, call.migrations) == Planned(PlanFor(db, call))))
  {
    RowsSwept(db);
    if StoredVersion(db).Some? {
      StoredExactly(db, StoredVersion(db).value);
    }
    if v :| Holds(db, v) {
      StoredExactly(db, v);
    }
  }

  lemma RunLeaves<D>(db: Db<D>, call: Call<D>, stage: Stage)
    requires Permits(db, call, stage)
    ensures Leaves(db, Durable(db, call, stage), call)
    ensures Durable(db, call, stage).versions != db.versions <==> Advances(stage)
  {
    RowsContinue(db, call, stage);
    if Advances(stage) {
      SoundIsEarned(db, call, stage);
    }
  }

  lemma RowsContinue<D>(db: Db<D>, call: Call<D>, stage: Stage)
    requires Permits(db, call, stage)
    ensures Continues(db, Durable(db, call, stage), call)
  {
    InfoExactly(db, call);
  }

  lemma SoundIsEarned<D>(db: Db<D>, call: Call<D>, stage: Stage)
    requires Permits(db, call, stage) && Advances(stage)
    ensures var now := Durable(db, call, stage); Earned(db, now, call) && now.versions != db.versions
  {
    InfoExactly(db, call);
    RowsSwept(db);
    SecuredExactly(call, PlanFor(db, call));
  }

  lemma DeniedExactly<D>(db: Db<D>, call: Call<D>, code: string)
    ensures Undisturbed(db, call).0 == Raised(code) <==> Denied(db, call, code)
  {
    InfoExactly(db, call);
    RowsSwept(db);
    SecuredExactly(call, PlanFor(db, call));
  }

  lemma ReportsExactly<D>(db: Db<D>, call: Call<D>)
    ensures var (outcome, stage) := Undisturbed(db, call);
            && Permits(db, call, stage) && !outcome.Died?
            && (outcome.Finished? ==> Reports(db, Durable(db, call, stage), call, outcome.report))
            && (outcome.Finished? <==> stage == Done || InfoFor(db, call).state == Current)
  {
    var (outcome, stage) := Undisturbed(db, call);
    InfoExactly(db, call);
    if stage == Done {
      RunLeaves(db, call, stage);
    }
  }

  lemma UndisturbedAnswers<D>(db: Db<D>, call: Call<D>)
    ensures var (outcome, stage) := Undisturbed(db, call);
            Permits(db, call, stage) && Answers(db, Durable(db, call, stage), call, outcome)
  {
    var (outcome, stage) := Undisturbed(db, call);
    ReportsExactly(db, call);
    RunLeaves(db, call, stage);
    forall code ensures outcome == Raised(code) <==> Denied(db, call, code) {
      DeniedExactly(db, call, code);
    }
    UndisturbedRows(db, call);
  }

  lemma RunOwes<D>(before: Db<D>, now: Db<D>, call: Call<D>, outcome: Outcome, stage: Stage, calm: bool)
    requires Permits(before, call, stage) && now == Durable(before, call, stage)
    requires calm || outcome.Finished? ==> (outcome, stage) == Undisturbed(before, call)
    requires outcome.Raised? ==> outcome.code in {"sqlite_error", "migration_failed"}
                                 || outcome == Undisturbed(before, call).0
    ensures Leaves(before, now, call)
    ensures Advances(stage) ==> Secured(call, PlanFor(before, call))
    ensures outcome.Raised? ==> outcome.code in {"sqlite_error", "migration_failed"}
                                || Denied(before, call, outcome.code)
    ensures calm ==> Answers(before, now, call, outcome)
    ensures outcome.Finished? ==> Reports(before, now, call, outcome.report)
  {
    RunLeaves(before, call, stage);
    SecuredExactly(call, PlanFor(before, call));
    UndisturbedAnswers(before, call);
    if outcome.Raised? {
      DeniedExactly(before, call, outcome.code);
    }
  }

  /** The journal after a call that nothing disturbs. */
  lemma UndisturbedRows<D>(db: Db<D>, call: Call<D>)
    requires Permits(db, call, Undisturbed(db, call).1)
    ensures var (outcome, stage) := Undisturbed(db, call);
            var now := Durable(db, call, stage);
            && !JournalShows(now, InProgress)
            && (|Rows(now)| > |Rows(db)| ==>
                  Rows(now)[|Rows(db)|].status == if outcome.Raised? then Failed else Completed)
            && (|Rows(now)| > |Rows(db)| <==> stage in {Done, RolledBack})
  {
    RowsSwept(db);
    var stage := Undisturbed(db, call).1;
    var now := Durable(db, call, stage);
    assert forall i :: 0 <= i < |Rows(db)| ==> Rows(now)[i].status != InProgress;
  }

  // ---------------------------------------------------------------- the database file

  datatype Fate = Proceeds | Raises | Dies

  class DatabaseFile<D> {
    const fate: nat -> Fate
    var clock: nat
    var alive: bool
    var committed: Db<D>
    var working: Db<D>

    constructor (db: Db<D>, fate: nat -> Fate)
      ensures committed == db && this.fate == fate && clock == 0
    {
      this.fate := fate;
      clock, alive := 0, true;
      committed, working := db, db;
    }

    /** Nothing goes wrong with any statement in the interval. */
    ghost predicate Calm(from: nat, to: nat) {
      forall k {:trigger fate(k)} :: from <= k < to ==> fate(k).Proceeds?
    }

    /** A new process opens the file: whatever was not committed is gone. */
    method Connect()
      modifies this`working, this`alive
      ensures alive && working == committed
    {
      working, alive := committed, true;
    }

    /** One statement; after death nothing has any effect. */
    method Execute(next: Db<D>) returns (f: Fate)
      modifies this`clock, this`alive, this`working
      ensures alive == (old(alive) && !f.Dies?)
      ensures working == if f.Proceeds? then next else old(working)
      ensures old(alive) ==> f == fate(old(clock)) && clock == old(clock) + 1
      ensures !old(alive) ==> f.Dies? && clock == old(clock)
    {
      if !alive {
        return Dies;
      }
      f := fate(clock);
      clock := clock + 1;
      if f.Proceeds? { working := next; }
      if f.Dies? { alive := false; }
    }

    method Commit() returns (f: Fate)
      modifies this`clock, this`alive, this`committed
      ensures alive == (old(alive) && !f.Dies?)
      ensures committed == if f.Proceeds? then working else old(committed)
      ensures old(alive) ==> f == fate(old(clock)) && clock == old(clock) + 1
      ensures !old(alive) ==> f.Dies? && clock == old(clock)
    {
      if !alive {
        return Dies;
      }
      f := fate(clock);
      clock := clock + 1;
      if f.Proceeds? { committed := working; }
      if f.Dies? { alive := false; }
    }

    /** How a statement and its commit end when the statement comes at `tick`. */
    function Pair(tick: nat): Fate {
      if fate(tick).Proceeds? then fate(tick + 1) else fate(tick)
    }

    /** One statement and its commit. */
    method ExecuteAndCommit(next: Db<D>) returns (f: Fate)
      requires alive && working == committed
      modifies this
      ensures alive == !f.Dies?
      ensures committed == if f.Proceeds? then next else old(committed)
      ensures f.Proceeds? ==> working == committed
      ensures f == Pair(old(clock))
      ensures clock == old(clock) + if fate(old(clock)).Proceeds? then 2 else 1
    {
      f := Execute(next);
      if f.Proceeds? {
        f := Commit();
      }
    }

    /** Journal table, then the sweep of earlier attempts. */
    method Prepare() returns (f: Fate, ghost stage: Stage)
      modifies this
      ensures stage in {Untouched, JournalReady, SweptClean}
      ensures f.Proceeds? <==> stage == SweptClean
      ensures stage == Untouched ==> committed == old(committed)
      ensures stage == JournalReady ==> committed == old(committed).(journal := Some(Rows(old(committed))))
      ensures stage == SweptClean ==> committed == Prepared(old(committed)) && working == committed
      ensures alive == !f.Dies?
      ensures clock >= old(clock)
      ensures f.Proceeds? <==> Calm(old(clock), old(clock) + 5)
      ensures f.Proceeds? ==> clock == old(clock) + 5
      ensures Calm(old(clock), clock) ==> f.Proceeds?
    {
      ghost var start := clock;
      stage := Untouched;
      Connect();
      f := Execute(working); // PRAGMA foreign_keys=ON
      if !f.Proceeds? { return; }
      f := ExecuteAndCommit(working.(journal := Some(Rows(working))));
      if !f.Proceeds? { return; }
      stage := JournalReady;
      f := ExecuteAndCommit(working.(journal := Some(Sweep(Rows(working)))));
      if f.Proceeds? { stage := SweptClean; }
    }

    /** Three PRAGMA statements, each followed by the check of its result. */
    method ValidateIntegrity(checks: Checks<D>) returns (f: Fate, code: string)
      requires alive
      modifies this`clock, this`alive, this`working
      ensures alive == !f.Dies? && working == old(working)
      ensures clock >= old(clock)
      ensures f.Proceeds? <==> IntegrityError(checks, working.data).None? && Calm(old(clock), old(clock) + 3)
      ensures f.Proceeds? ==> clock == old(clock) + 3 && code == "migration_failed"
      ensures f.Raises? ==> code == "migration_failed" || IntegrityError(checks, working.data) == Some(code)
      ensures Calm(old(clock), clock) ==>
                match IntegrityError(checks, working.data)
                case None => f.Proceeds?
                case Some(error) => f.Raises? && code == error
    {
      code := "migration_failed";
      f := Execute(working);
      if !f.Proceeds? { return; }
      if !checks.foreignKeysOn {
        return Raises, "foreign_keys_disabled";
      }
      f := Execute(working);
      if !f.Proceeds? { return; }
      if !checks.foreignKeysClean(working.data) {
        return Raises, "foreign_key_check_failed";
      }
      f := Execute(working);
      if !f.Proceeds? { return; }
      if !checks.intact(working.data) {
        return Raises, "integrity_check_failed";
      }
    }

    /** The body of the inner `try` up to the version UPDATE, all inside one transaction. */
    method ApplyPlan(call: Call<D>, plan: seq<Migration<D>>) returns (f: Fate, code: string)
      requires alive
      modifies this`clock, this`alive, this`working
      ensures alive == !f.Dies?
      ensures clock >= old(clock)
      ensures f.Proceeds? <==> Applies(call, plan, old(working).data) && Calm(old(clock), old(clock) + |plan| + 5)
      ensures f.Proceeds? ==> working == Advance(old(working), call, plan) && clock == old(clock) + |plan| + 5
      ensures Calm(old(clock), clock) && Applies(call, plan, old(working).data) ==> f.Proceeds?
      ensures Calm(old(clock), clock) && !Applies(call, plan, old(working).data) ==>
                f.Raises? && code == PlanError(call, plan, old(working).data)
      ensures f.Raises? ==> code == "migration_failed"
                            || (!Applies(call, plan, old(working).data)
                                && code == PlanError(call, plan, old(working).data))
    {
      code := "migration_failed";
      f := Execute(working); // BEGIN
      if !f.Proceeds? { return; }
      var i := 0;
      while i < |plan|
        invariant 0 <= i <= |plan| && alive && f.Proceeds?
        invariant clock == old(clock) + i + 1 && Calm(old(clock), clock)
        invariant working == old(working).(data := working.data)
        invariant ApplyAll(plan, old(working).data) == ApplyAll(plan[i..], working.data)
      {
        match plan[i].apply(working.data) {
          case None =>
            f := Raises;
            return;
          case Some(next) =>
            assert plan[i..][1..] == plan[i + 1..];
            f := Execute(working.(data := next));
            if !f.Proceeds? { return; }
        }
        i := i + 1;
      }
      f, code := ValidateIntegrity(call.checks);
      if !f.Proceeds? { return; }
      f := Execute(Bumped(working, call));
    }

    /** The `except` handler: roll back, then mark the attempt FAILED. */
    method MarkFailed(call: Call<D>) returns (f: Fate)
      requires alive
      modifies this
      ensures alive == !f.Dies?
      ensures committed == if f.Proceeds?
                           then WithStatus(old(committed), call.attempt, Failed) else old(committed)
      ensures clock >= old(clock)
      ensures f.Proceeds? <==> Handles(old(clock))
      ensures Calm(old(clock), clock) ==> f.Proceeds?
    {
      f := Execute(committed);
      if !f.Proceeds? { return; }
      f := ExecuteAndCommit(WithStatus(working, call.attempt, Failed));
    }

    /** The handler does its work when it starts at `tick`. */
    predicate Handles(tick: nat) {
      fate(tick).Proceeds? && fate(tick + 1).Proceeds? && fate(tick + 2).Proceeds?
    }

    /** The version and the data are committed when the attempt starts at `tick`. */
    ghost predicate Commits(call: Call<D>, plan: seq<Migration<D>>, data: D, tick: nat) {
      Applies(call, plan, data) && Calm(tick, tick + |plan| + 6)
    }

    /** From `tick` on, the completion of the journal row raises and the handler does its work. */
    predicate RaisesLate(tick: nat) {
      Pair(tick).Raises? && Handles(tick + if fate(tick).Proceeds? then 2 else 1)
    }

    /** The attempt at `tick` commits the new version, and the error comes only after that. */
    ghost predicate FailsLate(call: Call<D>, plan: seq<Migration<D>>, data: D, tick: nat) {
      Commits(call, plan, data, tick) && RaisesLate(tick + |plan| + 6)
    }

    /** The body of the inner `try`: the plan, the version commit and the COMPLETED row. */
    method RunPlan(call: Call<D>, plan: seq<Migration<D>>) returns (f: Fate, code: string, ghost advanced: bool)
      requires alive && working == committed
      modifies this
      ensures alive == !f.Dies?
      ensures advanced <==> Commits(call, plan, old(committed).data, old(clock))
      ensures f.Proceeds? ==> advanced
      ensures var db := old(committed);
              committed == if !advanced then db
                           else if f.Proceeds? then WithStatus(Advance(db, call, plan), call.attempt, Completed)
                           else Advance(db, call, plan)
      ensures clock >= old(clock)
      ensures advanced ==>
                && f == Pair(old(clock) + |plan| + 6)
                && clock == old(clock) + |plan| + 6 + if fate(old(clock) + |plan| + 6).Proceeds? then 2 else 1
      ensures advanced && f.Raises? ==> code == "migration_failed"
      ensures Calm(old(clock), clock) && Applies(call, plan, old(committed).data) ==> f.Proceeds?
      ensures Calm(old(clock), clock) && !Applies(call, plan, old(committed).data) ==>
                f.Raises? && code == PlanError(call, plan, old(committed).data)
      ensures f.Raises? ==> code == "migration_failed"
                            || (!Applies(call, plan, old(committed).data)
                                && code == PlanError(call, plan, old(committed).data))
    {
      advanced := false;
      f, code := ApplyPlan(call, plan);
      if !f.Proceeds? { return; }
      ghost var tick := clock;
      f := Commit();
      code := "migration_failed";
      assert f == fate(tick);
      if !f.Proceeds? { return; }
      advanced := true;
      f := ExecuteAndCommit(WithStatus(working, call.attempt, Completed));
    }

    /** The journalled attempt: from the version commit to the COMPLETED row, or through the handler. */
    method Attempt(call: Call<D>, from: int, plan: seq<Migration<D>>) returns (outcome: Outcome, ghost stage: Stage)
      requires alive && working == committed
      modifies this
      ensures EndsAttempt(old(committed), call, plan, stage)
              && committed == AttemptEnd(old(committed), call, plan, stage)
      ensures outcome.Finished? <==> stage == Done
      ensures outcome.Finished? ==> (outcome, stage) == PlanOutcome(call, from, plan, old(committed).data)
      ensures clock >= old(clock)
      ensures Calm(old(clock), clock) ==> (outcome, stage) == PlanOutcome(call, from, plan, old(committed).data)
      ensures stage == AdvancedThenFailed <==> FailsLate(call, plan, old(committed).data, old(clock))
      ensures stage == AdvancedThenFailed ==> outcome == Raised("migration_failed")
      ensures outcome.Raised? ==> outcome.code in {"sqlite_error", "migration_failed"}
                                  || outcome == PlanOutcome(call, from, plan, old(committed).data).0
    {
      var f, code;
      ghost var advanced;
      f, code, advanced := RunPlan(call, plan);
      if f.Proceeds? {
        return Finished(Report(call.attempt, Current, from, call.target, Ids(plan))), Done;
      }
      stage := if advanced then Advanced else Recorded;
      if f.Dies? {
        return Died, stage;
      }
      f := MarkFailed(call);
      match f {
        case Dies => outcome := Died;
        case Raises => outcome := Raised("sqlite_error");
        case Proceeds =>
          outcome := Raised(code);
          stage := if advanced then AdvancedThenFailed else RolledBack;
      }
    }

    /** Everything up to the committed IN_PROGRESS row; `early` is the outcome of a call that ends before. */
    method Admit(call: Call<D>) returns (early: Option<Outcome>, info: SchemaInfo<D>, ghost stage: Stage)
      modifies this
      ensures early.None? <==> Ready(old(committed), call) && Calm(old(clock), old(clock) + 8)
      ensures early.None? ==> alive && working == committed && committed == Journalled(old(committed), call, InProgress)
                              && info == InfoFor(old(committed), call) && clock == old(clock) + 8
      ensures early.None? ==> info.current.Some? && info.plan == Some(PlanFor(old(committed), call))
      ensures early.Some? ==> stage in {Untouched, JournalReady, SweptClean}
                              && committed == Durable(old(committed), call, stage)
      ensures early.Some? && early.value.Finished? ==> (early.value, stage) == Undisturbed(old(committed), call)
      ensures clock >= old(clock)
      ensures early.Some? && Calm(old(clock), clock) ==> (early.value, stage) == Undisturbed(old(committed), call)
      ensures early.Some? && early.value.Raised? ==>
                early.value.code == "sqlite_error" || early.value == Undisturbed(old(committed), call).0
    {
      var f;
      f, stage := Prepare();
      info := Inspect(working, call.migrations, call.target);
      if !f.Proceeds? {
        return Some(if f.Dies? then Died else Raised("sqlite_error")), info, stage;
      }
      f := Execute(working); // the SELECTs of the inspection
      if !f.Proceeds? {
        return Some(if f.Dies? then Died else Raised("sqlite_error")), info, stage;
      }
      SweepKeepsAttempts(Rows(old(committed)), call.attempt);
      EarlyEnds(old(committed), call);
      early := EarlyOutcome(call, info, Known(Rows(working), call.attempt));
      if early.Some? {
        return;
      }
      var reference := if call.backup.Some? then Some(call.backup.value.reference) else None;
      var row := Row(call.attempt, info.current.value, call.target, Ids(info.plan.value), call.now, InProgress,
                     reference);
      f := ExecuteAndCommit(working.(journal := Some(Rows(working) + [row])));
      early := if f.Proceeds? then None else Some(if f.Dies? then Died else Raised("sqlite_error"));
    }

    method RunMigrations(call: Call<D>) returns (outcome: Outcome, ghost stage: Stage)
      modifies this
      ensures Permits(old(committed), call, stage)
      ensures committed == Durable(old(committed), call, stage)
      ensures outcome.Finished? ==>
                (outcome, stage) == Undisturbed(old(committed), call) && stage in {SweptClean, Done}
      ensures stage == Done ==> outcome.Finished?
      ensures clock >= old(clock)
      ensures Calm(old(clock), clock) ==> (outcome, stage) == Undisturbed(old(committed), call)
      ensures stage == AdvancedThenFailed <==>
                && Ready(old(committed), call) && Calm(old(clock), old(clock) + 8)
                && FailsLate(call, PlanFor(old(committed), call), old(committed).data, old(clock) + 8)
      ensures stage == AdvancedThenFailed ==> outcome == Raised("migration_failed")
      ensures Leaves(old(committed), committed, call)
      ensures Advances(stage) && (exists m :: m in PlanFor(old(committed), call) && m.requiresBackup) ==>
                call.backup.Some? && call.backup.value.validated && call.backup.value.identity == call.identity
      ensures outcome.Raised? ==> outcome.code in {"sqlite_error", "migration_failed"}
                                  || Denied(old(committed), call, outcome.code)
      ensures outcome.Finished? ==> Reports(old(committed), committed, call, outcome.report)
      ensures Calm(old(clock), clock) ==> Answers(old(committed), committed, call, outcome)
    {
      var early, info;
      early, info, stage := Admit(call);
      if early.Some? {
        RunOwes(old(committed), committed, call, early.value, stage, Calm(old(clock), clock));
        return early.value, stage;
      }
      UndisturbedAttempt(old(committed), call);
      outcome, stage := Attempt(call, info.current.value, info.plan.value);
      AttemptStates(old(committed), call, stage);
      RunOwes(old(committed), committed, call, outcome, stage, Calm(old(clock), clock));
    }
  }
}
