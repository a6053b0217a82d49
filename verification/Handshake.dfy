/**
 The API's side of the migration handshake (apps/api/app/runtime/migration_contract.py:79-244)
 and what the two programs agree on: which records the shell accepts, and what each of its
 decisions says about the database.
 */
module Handshake {
  import opened Wrappers
  import opened LocalMigrations
  import opened SchemaMigrator
  import opened MigrationContract

  // ---------------------------------------------------------------- what the commands write

  /** The safety backup: taken, refused by the operating system, or failed without any output. */
  datatype Snapshot = Taken(reference: string) | Refused | Failed

  /** Everything a command finds besides the database itself. */
  datatype Site<!D> =
    Site(migrations: seq<Migration<D>>, target: int, identity: string, checks: Checks<D>,
         attempt: string, now: int, snapshot: Snapshot, pathError: Option<string>)

  function StatusOf(state: SchemaState): SchemaStatus {
    match state
    case Current => CurrentSchema
    case UpgradeRequired => UpgradeRequiredSchema
    case MigrationInProgress => InProgressSchema
    case FailedMigration => FailedSchema
    case NewerVersionUnsupported => NewerSchema
    case UnknownOrCorrupt => CorruptSchema
  }

  /** The journal row with the latest start; of several, the one inserted first. */
  function Newest(rows: seq<Row>): (newest: Option<Row>)
    ensures newest.None? <==> rows == []
    ensures newest.Some? ==> newest.value in rows && forall r :: r in rows ==> r.startedAt <= newest.value.startedAt
  {
    if rows == [] then None
    else
      var rest := Newest(rows[1..]);
      if rest.None? || rest.value.startedAt <= rows[0].startedAt then Some(rows[0]) else rest
  }

  function NewestAttempt(rows: seq<Row>): Option<string> {
    if Newest(rows).Some? then Some(Newest(rows).value.attempt) else None
  }

  /** The newest attempt neither completed nor failed. */
  predicate Unfinished(rows: seq<Row>) {
    Newest(rows).Some? && Newest(rows).value.status in {InProgress, Interrupted}
  }

  /** What the commands say about the database: the inspection and the newest attempt. */
  function InspectionContract<D>(info: SchemaInfo<D>, rows: seq<Row>, site: Site<D>, command: Command): Contract {
    Contract(CONTRACT_VERSION, command, Some(site.identity), info.current, info.target, StatusOf(info.state),
             info.state == UpgradeRequired, if info.plan.Some? then Ids(info.plan.value) else [],
             info.state == UpgradeRequired, if info.message != "" then Some(info.message) else None,
             if Unfinished(rows) then NewestAttempt(rows) else None, NewestAttempt(rows), None, None)
  }

  /** What a command writes when it ends with an exception it knows. */
  function RefusalContract<D>(site: Site<D>, command: Command, status: SchemaStatus, reason: string): Contract {
    Contract(CONTRACT_VERSION, command, None, None, site.target, status, false, [], false, Some(reason), None, None,
             None, None)
  }

  function FailedContract<D>(info: SchemaInfo<D>, rows: seq<Row>, site: Site<D>, reference: string,
                             code: string): Contract
  {
    Contract(CONTRACT_VERSION, Execute, Some(site.identity), info.current, site.target, FailedSchema,
             true, if info.plan.Some? then Ids(info.plan.value) else [], true, Some(code), NewestAttempt(rows),
             Some(site.attempt), Some(site.attempt), Some(reference))
  }

  function MigratedContract<D>(rows: seq<Row>, site: Site<D>, reference: string, report: Report): Contract {
    Contract(CONTRACT_VERSION, Execute, Some(site.identity), Some(report.target), site.target, StatusOf(report.state),
             false, report.ids, true, None, NewestAttempt(rows), Some(report.attempt), Some(site.attempt),
                 Some(reference))
  }

  /** What a migration call reports when it completes. */
  function ExpectedReport<D>(info: SchemaInfo<D>, site: Site<D>): Report
    requires Informed(info) && info.state == UpgradeRequired
  {
    Report(site.attempt, Current, info.current.value, site.target, Ids(info.plan.value))
  }

  function CallOf<D>(site: Site<D>, reference: string): Call<D> {
    Call(site.migrations, site.target, Some(SafetyBackup(reference, site.identity, true)), site.identity,
         site.attempt, site.now, site.checks)
  }

  // ---------------------------------------------------------------- agreement on the record

  /** An upgrade is required exactly when there is a plan, and then the plan has steps to take. */
  predicate Informed<D>(info: SchemaInfo<D>) {
    && (info.plan.Some? <==> info.state == UpgradeRequired)
    && (info.state == Current ==> info.current == Some(info.target))
    && (info.state == UpgradeRequired ==>
          info.plan.value != [] && info.current.Some? && info.current.value < info.target)
  }

  lemma InspectionIsInformed<D>(db: Db<D>, ms: seq<Migration<D>>, target: int)
    ensures Informed(Inspect(db, ms, target))
    ensures Inspect(db, ms, target).target == target && Inspect(db, ms, target).current == StoredVersion(db)
  {
    var info := Inspect(db, ms, target);
    if info.state == UpgradeRequired {
      PlanIsTheOnlyPath(info.current.value, target, ms, info.plan.value);
    }
  }

  /** Every record either command can write after this inspection. */
  predicate Emitted<D>(info: SchemaInfo<D>, rows: seq<Row>, site: Site<D>, c: Contract) {
    || (c.command in {Preflight, Execute} && c == InspectionContract(info, rows, site, c.command))
    || (c.reason.Some? && c == RefusalContract(site, c.command, c.status, c.reason.value)
        && c.status in {Blocked, CorruptSchema})
    || (c.reference.Some? && c.reason.Some? && info.state == UpgradeRequired
        && c == FailedContract(info, rows, site, c.reference.value, c.reason.value))
    || (c.reference.Some? && Informed(info) && info.state == UpgradeRequired
        && c == MigratedContract(rows, site, c.reference.value, ExpectedReport(info, site)))
  }

  /**
   The shell refuses a record exactly when the supported version is not a positive 32-bit number or
   the record reports a stored version above it.
   */
  lemma AcceptedExactly<D>(db: Db<D>, site: Site<D>, c: Contract)
    requires Emitted(Inspect(db, site.migrations, site.target), Rows(db), site, c)
    ensures ShellAccepts(c, c.command) <==>
              U32(site.target) && site.target > 0 && (c.current.Some? ==> c.current.value <= site.target)
  {
    InspectionIsInformed(db, site.migrations, site.target);
    StoredIsPositive(db);
    InformedIsAccepted(Inspect(db, site.migrations, site.target), Rows(db), site, c);
  }

  lemma StoredIsPositive<D>(db: Db<D>)
    ensures StoredVersion(db).Some? ==> StoredVersion(db).value >= 1
  {
  }

  lemma InformedIsAccepted<D>(info: SchemaInfo<D>, rows: seq<Row>, site: Site<D>, c: Contract)
    requires Informed(info) && info.target == site.target && (info.current.Some? ==> info.current.value >= 1)
    requires Emitted(info, rows, site, c)
    ensures ShellAccepts(c, c.command) <==>
              U32(site.target) && site.target > 0 && (c.current.Some? ==> c.current.value <= site.target)
  {
  }

  /** A newer database is never reported as such: the shell calls its record inconsistent. */
  lemma NewerDatabaseIsInconsistent<D>(db: Db<D>, site: Site<D>)
    ensures var info := Inspect(db, site.migrations, site.target);
            info.state == NewerVersionUnsupported ==>
                 !ShellAccepts(InspectionContract(info, Rows(db), site, Preflight), Preflight)
  {
  }

  // ---------------------------------------------------------------- what the records have to say

  /** The row with the latest start; of several, the one inserted first. */
  ghost predicate LatestAt(rows: seq<Row>, i: int) {
    && 0 <= i < |rows|
    && forall j :: 0 <= j < |rows| ==> rows[j].startedAt < rows[i].startedAt
                                       || (rows[j].startedAt == rows[i].startedAt && i <= j)
  }

  /** The latest attempt was left IN_PROGRESS, or swept to INTERRUPTED. */
  ghost predicate Abandoned(rows: seq<Row>) {
    exists i :: LatestAt(rows, i) && (rows[i].status.InProgress? || rows[i].status.Interrupted?)
  }

  lemma {:induction false} LatestExactly(rows: seq<Row>) returns (i: nat)
    ensures rows == [] <==> Newest(rows).None?
    ensures rows != [] ==> LatestAt(rows, i) && Newest(rows) == Some(rows[i])
  {
    i := 0;
    if rows != [] {
      var j := LatestExactly(rows[1..]);
      var rest := Newest(rows[1..]);
      i := if rest.None? || rest.value.startedAt <= rows[0].startedAt then 0 else j + 1;
      forall k | 0 <= k < |rows|
        ensures rows[k].startedAt < rows[i].startedAt || (rows[k].startedAt == rows[i].startedAt && i <= k)
      {
        assert k > 0 ==> rows[k] == rows[1..][k - 1];
      }
    }
  }

  lemma OneLatest(rows: seq<Row>, i: int, j: int)
    requires LatestAt(rows, i) && LatestAt(rows, j)
    ensures i == j
  {
    assert rows[i].startedAt <= rows[j].startedAt && rows[j].startedAt <= rows[i].startedAt;
  }

  lemma AbandonedExactly(rows: seq<Row>)
    ensures Abandoned(rows) <==> Unfinished(rows)
  {
    var i := LatestExactly(rows);
    forall k | LatestAt(rows, k) ensures k == i {
      OneLatest(rows, i, k);
    }
  }

  /** The status of a database in the record and the reason it gives, from what is stored in it. */
  ghost predicate Rates<D>(db: Db<D>, site: Site<D>, status: SchemaStatus, reason: Option<string>) {
    if !exists v :: Holds(db, v) then
      && status.CorruptSchema?
      && reason == Some(if db.versions.None? then "Schema version table is missing."
                        else "Schema version record is missing or corrupt.")
    else if JournalShows(db, InProgress) then
      status.InProgressSchema? && reason == Some("A previous migration attempt is still in progress.")
    else if JournalShows(db, SchemaMigrator.Failed) then
      status.FailedSchema? && reason == Some("A previous local migration failed.")
    else
      var v := db.versions.value[0].n;
      if v > site.target then
        status.NewerSchema? && reason == Some("The database is newer than this application supports.")
      else if v == site.target then status.CurrentSchema? && reason.None?
      else
        match PlanOf(v, site.target, site.migrations)
        case NoPlan(error) => status.CorruptSchema? && reason == Some(error.message)
        case Planned(_) => status.UpgradeRequiredSchema? && reason.None?
  }

  /** The record of an inspection tells the state of the database and of its latest attempt. */
  ghost predicate Tells<D>(db: Db<D>, site: Site<D>, command: Command, c: Contract) {
    && c.version == 1 && c.command == command && c.identity == Some(site.identity) && c.supported == site.target
    && (forall v :: c.current == Some(v) <==> Holds(db, v))
    && Rates(db, site, c.status, c.reason)
    && (c.migrationRequired <==> c.status.UpgradeRequiredSchema?)
    && (c.backupRequired <==> c.status.UpgradeRequiredSchema?)
    && (c.status.UpgradeRequiredSchema? ==> c.current.Some? && ListsPlan(c.current.value, site, c.plan))
    && (!c.status.UpgradeRequiredSchema? ==> c.plan == [])
    && (Rows(db) == [] ==> c.journalAttempt.None? && c.interrupted.None?)
    && (forall i :: LatestAt(Rows(db), i) ==>
          && c.journalAttempt == Some(Rows(db)[i].attempt)
          && c.interrupted == if Rows(db)[i].status in {InProgress, Interrupted} then c.journalAttempt else None)
    && c.attempt.None? && c.reference.None?
  }

  /** The ids of the one plan from a version to the target. */
  ghost predicate ListsPlan<D>(version: int, site: Site<D>, ids: seq<string>) {
    && PlanOf(version, site.target, site.migrations).Planned?
    && var plan := PlanOf(version, site.target, site.migrations).plan;
    && |ids| == |plan| && forall i :: 0 <= i < |plan| ==> ids[i] == plan[i].id
  }

  lemma InspectionRates<D>(db: Db<D>, site: Site<D>)
    ensures var info := Inspect(db, site.migrations, site.target);
            Rates(db, site, StatusOf(info.state), if info.message != "" then Some(info.message) else None)
  {
    InspectExactly(db, site.migrations, site.target);
    var info := Inspect(db, site.migrations, site.target);
    if info.current.Some? {
      assert Holds(db, info.current.value);
      RefusalCodes(info.current.value, site.target, site.migrations);
    }
  }

  lemma InspectionPlans<D>(db: Db<D>, site: Site<D>)
    ensures var info := Inspect(db, site.migrations, site.target);
            && info.target == site.target
            && (forall v :: info.current == Some(v) <==> Holds(db, v))
            && (info.plan.Some? <==> info.state == UpgradeRequired)
            && (info.plan.Some? ==> info.current.Some? && ListsPlan(info.current.value, site, Ids(info.plan.value)))
  {
    InspectExactly(db, site.migrations, site.target);
  }

  lemma InspectionTells<D>(db: Db<D>, site: Site<D>, command: Command)
    ensures Tells(db, site, command, InspectionOf(db, site, command))
  {
    InspectionPlans(db, site);
    InspectionRates(db, site);
    LatestIsNamed(Rows(db));
    AbandonedExactly(Rows(db));
  }

  /** An upgrade leads from the stored version to the supported one, and no attempt is in its way. */
  ghost predicate Upgradable<D>(db: Db<D>, site: Site<D>) {
    && (exists v :: Holds(db, v)) && !JournalShows(db, InProgress) && !JournalShows(db, SchemaMigrator.Failed)
    && var v := db.versions.value[0].n;
    v < site.target && PlanOf(v, site.target, site.migrations).Planned?
  }

  /** The data after the plan; `None` when a migration raises. */
  ghost function Edited<D>(db: Db<D>, site: Site<D>): Option<D>
    requires Upgradable(db, site)
  {
    ApplyAll(PlanOf(db.versions.value[0].n, site.target, site.migrations).plan, db.data)
  }

  /** The attempt's id is new, the plan applies, and its result passes the integrity checks. */
  ghost predicate Works<D>(db: Db<D>, site: Site<D>)
    requires Upgradable(db, site)
  {
    !Registered(db, site.attempt) && Edited(db, site).Some? && Healthy(site.checks, Edited(db, site).value)
  }

  /** Why an upgrade with a new attempt does not work. */
  ghost predicate FailsWith<D>(db: Db<D>, site: Site<D>, code: string)
    requires Upgradable(db, site)
  {
    if Edited(db, site).None? then code == "migration_failed"
    else if !site.checks.foreignKeysOn then code == "foreign_keys_disabled"
    else if !site.checks.foreignKeysClean(Edited(db, site).value) then code == "foreign_key_check_failed"
    else !site.checks.intact(Edited(db, site).value) && code == "integrity_check_failed"
  }

  /** The record of an upgrade that was tried: it says CURRENT only when the database is at the target
      with the edited data, and otherwise why it is not or may not be. */
  ghost predicate Accounts<D>(before: Db<D>, now: Db<D>, site: Site<D>, reference: string, c: Contract)
    requires Upgradable(before, site)
  {
    && c.version == 1 && c.command == Execute && c.identity == Some(site.identity) && c.supported == site.target
    && c.backupRequired && c.attempt == Some(site.attempt) && c.journalAttempt == c.attempt
    && c.reference == Some(reference) && ListsPlan(before.versions.value[0].n, site, c.plan)
    && (Rows(before) == [] ==> c.interrupted.None?)
    && (forall i :: LatestAt(Rows(before), i) ==> c.interrupted == Some(Rows(before)[i].attempt))
    && if c.status.CurrentSchema? then
         && c.current == Some(site.target) && !c.migrationRequired && c.reason.None?
         && Works(before, site) && Holds(now, site.target) && Some(now.data) == Edited(before, site)
       else
         && c.status.FailedSchema? && c.current == Some(before.versions.value[0].n) && c.migrationRequired
         && c.reason.Some? && (c.reason.value == "migration_failed" || FailsWith(before, site, c.reason.value))
  }

  /** What `execute` writes about an upgrade when nothing disturbs it. */
  ghost predicate CalmAccount<D>(before: Db<D>, now: Db<D>, site: Site<D>, reference: string, output: Option<Contract>)
    requires Upgradable(before, site)
  {
    && output.Some?
    && if Registered(before, site.attempt) then Says(site, Execute, output.value, CorruptSchema, "OperationalError")
       else
         && Accounts(before, now, site, reference, output.value)
         && (output.value.status.CurrentSchema? <==> Works(before, site))
         && (output.value.reason.Some? ==> FailsWith(before, site, output.value.reason.value))
  }

  /** The inspection and the migration call, in these terms. */
  lemma UpgradableExactly<D>(db: Db<D>, site: Site<D>, reference: string)
    ensures Upgradable(db, site) <==> Inspect(db, site.migrations, site.target).state == UpgradeRequired
    ensures Upgradable(db, site) ==>
              && Inspect(db, site.migrations, site.target).current == Some(db.versions.value[0].n)
              && Inspect(db, site.migrations, site.target).plan ==
                 Some(PlanOf(db.versions.value[0].n, site.target, site.migrations).plan)
              && (forall code :: Denied(db, CallOf(site, reference), code) <==>
                    if Registered(db, site.attempt) then code == "sqlite_error" else FailsWith(db, site, code))
              && (Sound(db, CallOf(site, reference)) <==> Works(db, site))
  {
    InspectExactly(db, site.migrations, site.target);
    if Upgradable(db, site) {
      SameInspection(db, site, reference);
      InfoExactly(db, CallOf(site, reference));
      RowsSwept(db);
      SecuredExactly(CallOf(site, reference), PlanFor(db, CallOf(site, reference)));
    }
  }

  // ---------------------------------------------------------------- the two commands

  predicate Refuses<D>(c: Contract, site: Site<D>, command: Command) {
    c.reason.Some? && c.status in {Blocked, CorruptSchema}
      && c == RefusalContract(site, command, c.status, c.reason.value)
  }

  /** A command that could not look at the database says why, and nothing about the database. */
  ghost predicate Declines<D>(site: Site<D>, command: Command, c: Contract) {
    if site.pathError.Some? then Says(site, command, c, Blocked, site.pathError.value)
    else Says(site, command, c, CorruptSchema, "OperationalError") || Says(site, command, c, CorruptSchema, "OSError")
  }

  ghost predicate Says<D>(site: Site<D>, command: Command, c: Contract, status: SchemaStatus, reason: string) {
    c == Contract(1, command, None, None, site.target, status, false, [], false, Some(reason), None, None, None, None)
  }

  /** What a command writes, if it writes anything, is one of the records it can write. */
  predicate Writes<D>(db: Db<D>, site: Site<D>, command: Command, output: Option<Contract>) {
    output.Some? ==>
      && output.value.command == command
      && Emitted(Inspect(db, site.migrations, site.target), Rows(db), site, output.value)
  }

  method RunPreflight<D>(file: DatabaseFile<D>, site: Site<D>, command: Command) returns (output: Option<Contract>)
    modifies file
    ensures file.committed == old(file.committed) && file.clock >= old(file.clock)
    ensures output.Some? ==>
              output.value == InspectionOf(file.committed, site, command) || Refuses(output.value, site, command)
    ensures file.Calm(old(file.clock), file.clock) && site.pathError.None? ==>
              output == Some(InspectionOf(file.committed, site, command))
    ensures command in {Preflight, Execute} ==> Writes(old(file.committed), site, command, output)
    ensures output.Some? ==> Tells(file.committed, site, command, output.value) || Declines(site, command, output.value)
    ensures file.Calm(old(file.clock), file.clock) && site.pathError.None? ==>
              output.Some? && Tells(file.committed, site, command, output.value)
  {
    InspectionTells(file.committed, site, command);
    if site.pathError.Some? {
      return Some(RefusalContract(site, command, Blocked, site.pathError.value));
    }
    file.Connect();
    var f := file.Execute(file.working);
    match f {
      case Dies => output := None;
      case Raises => output := Some(RefusalContract(site, command, CorruptSchema, "OperationalError"));
      case Proceeds =>
        output := Some(InspectionContract(Inspect(file.working, site.migrations, site.target), Rows(file.working),
                                          site, command));
    }
  }

  function InspectionOf<D>(db: Db<D>, site: Site<D>, command: Command): Contract {
    InspectionContract(Inspect(db, site.migrations, site.target), Rows(db), site, command)
  }

  /** What `execute` leaves in the database is what one migration call leaves. */
  ghost predicate Executed<D>(before: Db<D>, now: Db<D>, site: Site<D>, reference: string, stage: Stage) {
    var call := CallOf(site, reference);
    Permits(before, call, stage) && now == Durable(before, call, stage)
  }

  /** With an upgrade required, no earlier attempt needs sweeping and the call inspects the same state. */
  lemma SameInspection<D>(db: Db<D>, site: Site<D>, reference: string)
    requires Inspect(db, site.migrations, site.target).state == UpgradeRequired
    ensures InfoFor(db, CallOf(site, reference)) == Inspect(db, site.migrations, site.target)
  {
  }

  lemma CompletedReport<D>(db: Db<D>, site: Site<D>, reference: string, info: SchemaInfo<D>)
    requires info == Inspect(db, site.migrations, site.target) && info.state == UpgradeRequired && Informed(info)
    ensures var (outcome, stage) := Undisturbed(db, CallOf(site, reference));
            && (outcome.Finished? ==> outcome.report == ExpectedReport(info, site) && stage == Done)
            && (outcome.Finished? <==> Sound(db, CallOf(site, reference)))
            && (Advances(stage) <==> outcome.Finished?)
            && (outcome.Raised? && outcome.code == "sqlite_error" <==> Known(Rows(db), site.attempt))
            && !outcome.Died?
  {
    SameInspection(db, site, reference);
  }

  /** The record of a migration call that ran to completion or raised. */
  predicate Concludes<D>(info: SchemaInfo<D>, rows: seq<Row>, site: Site<D>, reference: string, stage: Stage,
                         c: Contract)
  {
    || (stage == Done && Informed(info) && info.state == UpgradeRequired
        && c == MigratedContract(rows, site, reference, ExpectedReport(info, site)))
    || (c.reason.Some? && c == FailedContract(info, rows, site, reference, c.reason.value))
  }

  /** The record of a call that nothing disturbs: CURRENT when the migration is sound, and naming its
      backup unless the attempt's id was taken. */
  predicate Completes(output: Option<Contract>, sound: bool, known: bool) {
    && output.Some? && (output.value.status.CurrentSchema? <==> sound)
    && (output.value.reference.Some? <==> !known)
  }

  /** The upgrade itself: one migration call bound to the safety backup. */
  method RunUpgrade<D>(file: DatabaseFile<D>, site: Site<D>, info: SchemaInfo<D>, rows: seq<Row>, reference: string)
    returns (output: Option<Contract>, ghost stage: Stage)
    requires info == Inspect(file.committed, site.migrations, site.target) && rows == Rows(file.committed)
    requires info.state == UpgradeRequired && Informed(info)
    modifies file
    ensures Executed(old(file.committed), file.committed, site, reference, stage) && file.clock >= old(file.clock)
    ensures file.Calm(old(file.clock), file.clock) ==>
              (Advances(stage) <==> Sound(old(file.committed), CallOf(site, reference)))
    ensures output.Some? ==>
              Refuses(output.value, site, Execute) || Concludes(info, rows, site, reference, stage, output.value)
    ensures file.Calm(old(file.clock), file.clock) ==>
              Completes(output, Sound(old(file.committed), CallOf(site, reference)), Known(rows, site.attempt))
    ensures Upgradable(old(file.committed), site)
    ensures output.Some? ==>
              || Says(site, Execute, output.value, CorruptSchema, "OperationalError")
              || Accounts(old(file.committed), file.committed, site, reference, output.value)
    ensures file.Calm(old(file.clock), file.clock) ==>
              CalmAccount(old(file.committed), file.committed, site, reference, output)
  {
    CompletedReport(file.committed, site, reference, info);
    var outcome;
    outcome, stage := file.RunMigrations(CallOf(site, reference));
    match outcome {
      case Died => output := None;
      case Raised(code) =>
        output := Some(if code == "sqlite_error" then RefusalContract(site, Execute, CorruptSchema, "OperationalError")
                       else FailedContract(info, rows, site, reference, code));
      case Finished(report) => output := Some(MigratedContract(rows, site, reference, report));
    }
    RecordAccounts(old(file.committed), file.committed, site, info, reference, outcome, output,
                   file.Calm(old(file.clock), file.clock));
  }

  /** The record made of the outcome of the migration call. */
  lemma RecordAccounts<D>(before: Db<D>, now: Db<D>, site: Site<D>, info: SchemaInfo<D>, reference: string,
                          outcome: Outcome, output: Option<Contract>, calm: bool)
    requires info == Inspect(before, site.migrations, site.target) && info.state == UpgradeRequired
    requires calm ==> Answers(before, now, CallOf(site, reference), outcome)
    requires outcome.Raised? ==> outcome.code in {"sqlite_error", "migration_failed"}
                                 || Denied(before, CallOf(site, reference), outcome.code)
    requires outcome.Finished? ==> SchemaMigrator.Reports(before, now, CallOf(site, reference), outcome.report)
    requires output == match outcome
                       case Died => None
                       case Raised(code) =>
                         Some(if code == "sqlite_error"
                              then RefusalContract(site, Execute, CorruptSchema, "OperationalError")
                              else FailedContract(info, Rows(before), site, reference, code))
                       case Finished(report) => Some(MigratedContract(Rows(before), site, reference, report))
    ensures Upgradable(before, site)
    ensures output.Some? ==>
              || Says(site, Execute, output.value, CorruptSchema, "OperationalError")
              || Accounts(before, now, site, reference, output.value)
    ensures calm ==> CalmAccount(before, now, site, reference, output)
  {
    UpgradableExactly(before, site, reference);
    if outcome.Finished? {
      FinishedAccounts(before, now, site, reference, outcome.report);
    } else if outcome.Raised? && outcome.code != "sqlite_error" {
      FailedAccounts(before, now, site, info, reference, outcome.code);
    }
  }

  lemma FinishedAccounts<D>(before: Db<D>, now: Db<D>, site: Site<D>, reference: string, report: Report)
    requires Upgradable(before, site) && SchemaMigrator.Reports(before, now, CallOf(site, reference), report)
    ensures var c := MigratedContract(Rows(before), site, reference, report);
            Accounts(before, now, site, reference, c) && c.status.CurrentSchema? && c.reason.None?
  {
    LatestIsNamed(Rows(before));
  }

  lemma FailedAccounts<D>(before: Db<D>, now: Db<D>, site: Site<D>, info: SchemaInfo<D>, reference: string,
                          code: string)
    requires info == Inspect(before, site.migrations, site.target) && Upgradable(before, site)
    requires code == "migration_failed" || FailsWith(before, site, code)
    ensures var c := FailedContract(info, Rows(before), site, reference, code);
            Accounts(before, now, site, reference, c) && c.status.FailedSchema? && c.reason == Some(code)
  {
    UpgradableExactly(before, site, reference);
    LatestIsNamed(Rows(before));
  }

  lemma LatestIsNamed(rows: seq<Row>)
    ensures rows == [] ==> NewestAttempt(rows).None?
    ensures forall i :: LatestAt(rows, i) ==> NewestAttempt(rows) == Some(rows[i].attempt)
  {
    var i := LatestExactly(rows);
    forall k | LatestAt(rows, k) ensures k == i {
      OneLatest(rows, i, k);
    }
  }

  /** The result of `execute`: nothing done, or one migration call bound to the safety backup. */
  ghost predicate ExecuteOutcome<D>(before: Db<D>, now: Db<D>, site: Site<D>, output: Option<Contract>, stage: Stage) {
    var info := Inspect(before, site.migrations, site.target);
    && (stage.Untouched? ==> now == before)
    && (!stage.Untouched? ==> info.state == UpgradeRequired && site.snapshot.Taken?
                              && Executed(before, now, site, site.snapshot.reference, stage))
    && ExecuteOutput(info, Rows(before), site, output, stage)
  }

  predicate PreflightOutput<D>(info: SchemaInfo<D>, rows: seq<Row>, site: Site<D>, output: Option<Contract>) {
    output.Some? ==>
      output.value == InspectionContract(info, rows, site, Preflight) || Refuses(output.value, site, Preflight)
  }

  predicate ExecuteOutput<D>(info: SchemaInfo<D>, rows: seq<Row>, site: Site<D>, output: Option<Contract>, stage: Stage)
  {
    output.Some? ==>
      || Refuses(output.value, site, Execute)
      || (info.state != UpgradeRequired && output.value == InspectionContract(info, rows, site, Execute))
      || (info.state == UpgradeRequired && site.snapshot.Taken?
          && Concludes(info, rows, site, site.snapshot.reference, stage, output.value))
  }

  /** What `execute` says about the database it found and leaves. */
  ghost predicate ExecuteSays<D>(before: Db<D>, now: Db<D>, site: Site<D>, output: Option<Contract>) {
    output.Some? ==>
      || Declines(site, Execute, output.value)
      || (if Upgradable(before, site)
          then site.snapshot.Taken? && Accounts(before, now, site, site.snapshot.reference, output.value)
          else now == before && Tells(before, site, Execute, output.value))
  }

  /** The same when nothing disturbs it. */
  ghost predicate CalmExecuteSays<D>(before: Db<D>, now: Db<D>, site: Site<D>, output: Option<Contract>) {
    if !Upgradable(before, site) then output.Some? && Tells(before, site, Execute, output.value)
    else
      match site.snapshot
      case Taken(reference) => CalmAccount(before, now, site, reference, output)
      case Refused => output.Some? && Says(site, Execute, output.value, CorruptSchema, "OSError")
      case Failed => output.None?
  }

  method RunExecute<D>(file: DatabaseFile<D>, site: Site<D>) returns (output: Option<Contract>, ghost stage: Stage)
    modifies file
    ensures ExecuteOutcome(old(file.committed), file.committed, site, output, stage) && file.clock >= old(file.clock)
    ensures file.Calm(old(file.clock), file.clock) && site.pathError.None? && site.snapshot.Taken?
            && Inspect(old(file.committed), site.migrations, site.target).state == UpgradeRequired ==>
              && Completes(output, Sound(old(file.committed), CallOf(site, site.snapshot.reference)),
                           Known(Rows(old(file.committed)), site.attempt))
              && (Advances(stage) <==> Sound(old(file.committed), CallOf(site, site.snapshot.reference)))
    ensures Writes(old(file.committed), site, Execute, output)
    ensures ExecuteSays(old(file.committed), file.committed, site, output)
    ensures file.Calm(old(file.clock), file.clock) && site.pathError.None? ==>
              CalmExecuteSays(old(file.committed), file.committed, site, output)
  {
    UpgradableExactly(file.committed, site, "");
    stage := Untouched;
    if site.pathError.Some? {
      return Some(RefusalContract(site, Execute, Blocked, site.pathError.value)), stage;
    }
    file.Connect();
    var f := file.Execute(file.working);
    if f.Dies? {
      return None, stage;
    }
    if f.Raises? {
      return Some(RefusalContract(site, Execute, CorruptSchema, "OperationalError")), stage;
    }
    InspectionIsInformed(file.committed, site.migrations, site.target);
    var info, rows := Inspect(file.working, site.migrations, site.target), Rows(file.working);
    if info.state != UpgradeRequired {
      output := RunPreflight(file, site, Execute);
      return output, stage;
    }
    match site.snapshot {
      case Refused => output := Some(RefusalContract(site, Execute, CorruptSchema, "OSError"));
      case Failed => output := None;
      case Taken(reference) => output, stage := RunUpgrade(file, site, info, rows, reference);
    }
  }

  // ---------------------------------------------------------------- what the shell's decision means

  /** The database the API is started on after a migration. */
  ghost predicate MigratedUnder<D>(before: Db<D>, now: Db<D>, site: Site<D>, m: Marker) {
    var info := Inspect(before, site.migrations, site.target);
    && info.state == UpgradeRequired && Informed(info)
    && m.reference.Some? && site.snapshot == Taken(m.reference.value)
    && ApplyAll(info.plan.value, before.data) == Some(now.data)
    && StoredVersion(now) == Some(site.target)
    && Rows(now) == Rows(before) + [Row(m.attempt, info.current.value, site.target, Ids(info.plan.value),
                                        site.now, Completed, m.reference)]
  }

  lemma DoneIsMigrated<D>(before: Db<D>, now: Db<D>, site: Site<D>, m: Marker)
    requires m.reference.Some? && site.snapshot == Taken(m.reference.value) && m.attempt == site.attempt
             && site.target > 0
    requires Inspect(before, site.migrations, site.target).state == UpgradeRequired
    requires Executed(before, now, site, m.reference.value, Done)
    ensures MigratedUnder(before, now, site, m)
  {
    InspectionIsInformed(before, site.migrations, site.target);
    SameInspection(before, site, m.reference.value);
    assert Sweep(Rows(before)) == Rows(before) by {
      forall i | 0 <= i < |Rows(before)| ensures Sweep(Rows(before))[i] == Rows(before)[i] {
        assert !HasStatus(Rows(before), InProgress);
      }
    }
  }

  /** A marker names this attempt, this database and the backup taken for the attempt. */
  predicate Bound<D>(site: Site<D>, m: Marker) {
    && m.reference.Some? && site.snapshot == Taken(m.reference.value)
    && m.attempt == site.attempt && m.identity == site.identity
  }

  /** What each decision says about the inspection, whatever went wrong in the commands. */
  lemma DecisionMeans<D>(info: SchemaInfo<D>, rows: seq<Row>, site: Site<D>, identity: string,
                         preflight: Option<Contract>, executed: Option<Contract>, stage: Stage)
    requires PreflightOutput(info, rows, site, preflight) && info.target == site.target
    requires AsksForUpgrade(preflight) ==> ExecuteOutput(info, rows, site, executed, stage)
    ensures AsksForUpgrade(preflight) ==> info.state == UpgradeRequired && !Unfinished(rows)
    ensures var d := Decide(true, identity, preflight, executed);
            && (d.Start? ==> info.state == Current)
            && (!d.Stop? || AsksForUpgrade(preflight) ==> U32(site.target))
            && (d.StartMigrated? || d.RollBack? ==> AsksForUpgrade(preflight) && Bound(site, d.marker))
            && (d.StartMigrated? ==> site.target > 0 && stage == Done && d.marker.identity == identity
                                     && d.marker.status.MigratedBeforeReadiness?)
            && (d.RollBack? ==> d.marker.status.MigrationFailed?)
  {
  }

  /** Without errors the decision is determined by the inspection and the migration. */
  lemma CalmDecision<D>(info: SchemaInfo<D>, rows: seq<Row>, site: Site<D>, identity: string, preflight: Contract,
                        executed: Option<Contract>, stage: Stage)
    requires Informed(info) && info.target == site.target && (info.current.Some? ==> info.current.value >= 1)
    requires U32(site.target) && site.target > 0
    requires preflight == InspectionContract(info, rows, site, Preflight)
    requires AsksForUpgrade(Some(preflight)) ==> ExecuteOutput(info, rows, site, executed, stage)
    ensures AsksForUpgrade(Some(preflight)) <==> info.state == UpgradeRequired && !Unfinished(rows)
    ensures Decide(true, identity, Some(preflight), executed).Start? <==> info.state == Current
    ensures Decide(true, identity, Some(preflight), executed).StartMigrated? <==>
              && info.state == UpgradeRequired && !Unfinished(rows)
              && executed.Some? && executed.value.status.CurrentSchema? && identity == site.identity
    ensures Decide(true, identity, Some(preflight), executed).RollBack? <==>
              && info.state == UpgradeRequired && !Unfinished(rows)
              && executed.Some? && !executed.value.status.CurrentSchema? && executed.value.reference.Some?
  {
  }

  /** What a start without a marker does to the database and what its decision says about it. */
  ghost predicate StartOutcome<D>(before: Db<D>, now: Db<D>, site: Site<D>, present: bool, identity: string,
                                  d: Decision, preflight: Option<Contract>, stage: Stage)
  {
    var state := Inspect(before, site.migrations, site.target).state;
    && (!present ==> d.Start? && now == before)
    && (stage.Untouched? ==> now == before)
    && (!stage.Untouched? ==> site.snapshot.Taken? && AsksForUpgrade(preflight) && U32(site.target)
                              && Executed(before, now, site, site.snapshot.reference, stage))
    && (d.Start? ==> now == before && (present ==> state == Current))
    && (present && !d.Stop? ==> U32(site.target))
    && (d.StartMigrated? ==> d.marker.identity == identity && Bound(site, d.marker) && stage == Done
                             && MigratedUnder(before, now, site, d.marker))
    && (d.RollBack? ==> Bound(site, d.marker) && d.marker.status.MigrationFailed? && state == UpgradeRequired)
    && (Unfinished(Rows(before)) || state != UpgradeRequired ==>
          !d.RollBack? && !d.StartMigrated? && now == before)
  }

  /** An upgrade the shell may ask for: the latest attempt is not an abandoned one. */
  ghost predicate MayUpgrade<D>(db: Db<D>, site: Site<D>) {
    Upgradable(db, site) && !Abandoned(Rows(db))
  }

  /** The marker of this site's attempt, bound to its safety backup. */
  ghost predicate Marks<D>(site: Site<D>, m: Marker, status: MarkerStatus) {
    site.snapshot.Taken? && m == Marker(1, site.attempt, status, site.identity, Some(site.snapshot.reference))
  }

  /** What a start on an existing database may decide and do, whatever goes wrong in its commands. */
  ghost predicate Justified<D>(before: Db<D>, now: Db<D>, site: Site<D>, identity: string, d: Decision) {
    && (now != before || d.StartMigrated? || d.RollBack? ==> MayUpgrade(before, site))
    && (d.Start? ==> Holds(before, site.target) && !JournalShows(before, InProgress)
                     && !JournalShows(before, SchemaMigrator.Failed))
    && (d.StartMigrated? ==>
          && Works(before, site) && Holds(now, site.target) && Some(now.data) == Edited(before, site)
          && identity == site.identity && Marks(site, d.marker, MigratedBeforeReadiness))
    && (d.RollBack? ==> Marks(site, d.marker, MigrationFailed))
  }

  /** What it decides when nothing fails. */
  ghost predicate Right<D>(before: Db<D>, site: Site<D>, identity: string, d: Decision) {
    && (d.Start? <==> Holds(before, site.target) && !JournalShows(before, InProgress)
                      && !JournalShows(before, SchemaMigrator.Failed))
    && (d.StartMigrated? <==>
          site.snapshot.Taken? && MayUpgrade(before, site) && Works(before, site) && identity == site.identity)
    && (d.RollBack? <==>
          && site.snapshot.Taken? && MayUpgrade(before, site) && !Works(before, site)
          && !Registered(before, site.attempt))
  }

  lemma StartJustified<D>(before: Db<D>, now: Db<D>, site: Site<D>, identity: string, d: Decision,
                          preflight: Option<Contract>, executed: Option<Contract>, stage: Stage)
    requires StartOutcome(before, now, site, true, identity, d, preflight, stage)
    requires d == Decide(true, identity, preflight, executed)
    ensures Justified(before, now, site, identity, d)
  {
    var reference := if site.snapshot.Taken? then site.snapshot.reference else "";
    UpgradableExactly(before, site, reference);
    InspectExactly(before, site.migrations, site.target);
    AbandonedExactly(Rows(before));
    if d.StartMigrated? {
      StoredExactly(now, site.target);
    }
  }

  lemma CalmIsRight<D>(before: Db<D>, site: Site<D>, identity: string, d: Decision, stage: Stage)
    requires CalmOutcome(before, site, identity, d, stage)
    requires !site.snapshot.Taken? ==> !d.StartMigrated? && !d.RollBack?
    ensures Right(before, site, identity, d)
  {
    UpgradableExactly(before, site, if site.snapshot.Taken? then site.snapshot.reference else "");
    InspectExactly(before, site.migrations, site.target);
    AbandonedExactly(Rows(before));
    RowsSwept(before);
  }

  /** Preflight, and execute when the preflight asks for it. */
  method RunCommands<D>(file: DatabaseFile<D>, site: Site<D>)
    returns (preflight: Option<Contract>, executed: Option<Contract>, ghost stage: Stage)
    modifies file
    ensures file.clock >= old(file.clock)
    ensures var db := old(file.committed);
            var info := Inspect(db, site.migrations, site.target);
            && PreflightOutput(info, Rows(db), site, preflight)
            && (AsksForUpgrade(preflight) ==> ExecuteOutcome(db, file.committed, site, executed, stage))
            && (!AsksForUpgrade(preflight) ==> stage == Untouched && executed.None? && file.committed == db)
    ensures file.Calm(old(file.clock), file.clock) && site.pathError.None? ==>
              && preflight == Some(InspectionOf(old(file.committed), site, Preflight))
              && (AsksForUpgrade(preflight) && site.snapshot.Taken?
                  && Inspect(old(file.committed), site.migrations, site.target).state == UpgradeRequired ==>
                    && Completes(executed, Sound(old(file.committed), CallOf(site, site.snapshot.reference)),
                                 Known(Rows(old(file.committed)), site.attempt))
                    && (Advances(stage) <==> Sound(old(file.committed), CallOf(site, site.snapshot.reference))))
  {
    stage, executed := Untouched, None;
    preflight := RunPreflight(file, site, Preflight);
    if AsksForUpgrade(preflight) {
      executed, stage := RunExecute(file, site);
    }
  }

  /**
   One start without a marker: preflight, and execute when the preflight asks for it. Statement
   errors and death in either command included, the shell starts the API only on a current
   database or on one it has just migrated under a marker bound to its safety backup.
   */
  method PrepareDatabase<D>(file: DatabaseFile<D>, site: Site<D>, present: bool, identity: string)
    returns (d: Decision, preflight: Option<Contract>, executed: Option<Contract>, ghost stage: Stage)
    modifies file
    ensures file.clock >= old(file.clock)
    ensures d == Decide(present, identity, preflight, executed)
    ensures StartOutcome(old(file.committed), file.committed, site, present, identity, d, preflight, stage)
    ensures (file.Calm(old(file.clock), file.clock) && present && site.pathError.None?
             && U32(site.target) && site.target > 0) ==>
              CalmOutcome(old(file.committed), site, identity, d, stage)
    ensures present ==> Justified(old(file.committed), file.committed, site, identity, d)
    ensures (file.Calm(old(file.clock), file.clock) && present && site.pathError.None?
             && U32(site.target) && site.target > 0) ==>
              Right(old(file.committed), site, identity, d)
  {
    stage, preflight, executed := Untouched, None, None;
    if !present {
      d := Start;
      return;
    }
    ghost var before, info := file.committed, Inspect(file.committed, site.migrations, site.target);
    preflight, executed, stage := RunCommands(file, site);
    d := Decide(present, identity, preflight, executed);
    InspectionIsInformed(before, site.migrations, site.target);
    DecisionMeans(info, Rows(before), site, identity, preflight, executed, stage);
    if d.StartMigrated? {
      DoneIsMigrated(before, file.committed, site, d.marker);
    }
    if file.Calm(old(file.clock), file.clock) && site.pathError.None? && U32(site.target) && site.target > 0 {
      CalmDecision(info, Rows(before), site, identity, preflight.value, executed, stage);
      CalmIsRight(before, site, identity, d, stage);
    }
    StartJustified(before, file.committed, site, identity, d, preflight, executed, stage);
  }

  /** The decision when nothing fails. A failed migration is rolled back unless its attempt's id was
      taken, and a migrated database is left behind without a marker exactly when the shell knows the
      database under another identity than the API. */
  ghost predicate CalmOutcome<D>(before: Db<D>, site: Site<D>, identity: string, d: Decision, stage: Stage) {
    var info := Inspect(before, site.migrations, site.target);
    && (d.Start? <==> info.state == Current)
    && (site.snapshot.Taken? ==>
          var asked := info.state == UpgradeRequired && !Unfinished(Rows(before));
          var sound := asked && Sound(before, CallOf(site, site.snapshot.reference));
          && (d.StartMigrated? <==> sound && identity == site.identity)
          && (d.RollBack? <==> asked && !sound && !Known(Rows(before), site.attempt))
          && (d.Stop? && Advances(stage) <==> sound && identity != site.identity))
  }

  // ---------------------------------------------------------------- attempts that never end

  /** An attempt is IN_PROGRESS or FAILED. */
  predicate Stuck<D>(db: Db<D>) {
    HasStatus(Rows(db), InProgress) || HasStatus(Rows(db), SchemaMigrator.Failed)
  }

  lemma UnfinishedBlocks<D>(db: Db<D>, ms: seq<Migration<D>>, target: int)
    requires Stuck(db)
    ensures Inspect(db, ms, target).state !in {Current, UpgradeRequired}
  {
  }

  /** No application can be started on this database: an attempt never ended, the version cannot be
      read, or it is too large for the shell. */
  predicate Unstartable<D>(db: Db<D>) {
    Stuck(db) || StoredVersion(db).None? || !U32(StoredVersion(db).value)
  }

  /** Unless a version the shell can read makes it current, with any declared migrations: these are
      exactly the databases on which no version of the application starts or migrates anything. */
  lemma BlockedExactly<D>(db: Db<D>, ms: seq<Migration<D>>)
    ensures Unstartable(db) <==> forall target :: U32(target) ==> Inspect(db, ms, target).state != Current
    ensures Unstartable(db) ==>
              forall target :: U32(target) ==> Inspect(db, ms, target).state !in {Current, UpgradeRequired}
  {
    if Unstartable(db) {
      forall target | U32(target) ensures Inspect(db, ms, target).state !in {Current, UpgradeRequired} {
        InspectionIsInformed(db, ms, target);
      }
    } else {
      assert Inspect(db, ms, StoredVersion(db).value).state == Current;
    }
  }

  lemma DeathLeavesInProgress<D>(before: Db<D>, now: Db<D>, site: Site<D>, reference: string, stage: Stage)
    requires Executed(before, now, site, reference, stage) && stage in {Recorded, Advanced}
    ensures HasStatus(Rows(now), InProgress)
  {
    var rows := Rows(now);
    assert rows[|rows| - 1].status == InProgress;
  }

  /** One start of a database that is there, and the ticks of its statements. */
  datatype Launch<!D> =
    Launch(site: Site<D>, decision: Decision, preflight: Option<Contract>, stage: Stage, from: nat, to: nat)

  ghost predicate Launches<D>(file: DatabaseFile<D>, before: Db<D>, now: Db<D>, identity: string, launch: Launch<D>) {
    var site := launch.site;
    && StartOutcome(before, now, site, true, identity, launch.decision, launch.preflight, launch.stage)
    && launch.from <= launch.to
    && (file.Calm(launch.from, launch.to) && site.pathError.None? && U32(site.target) && site.target > 0 ==>
          CalmOutcome(before, site, identity, launch.decision, launch.stage))
  }

  /** `dbs[i + 1]` is what start `i` left, and the next start goes on where its statements ended. */
  ghost predicate IsLaunchHistory<D>(file: DatabaseFile<D>, identity: string, dbs: seq<Db<D>>,
                                     launches: seq<Launch<D>>)
  {
    && |dbs| == |launches| + 1
    && (forall i {:trigger LaunchAt(file, identity, dbs, launches, i)} :: 0 <= i < |launches| ==>
          LaunchAt(file, identity, dbs, launches, i))
    && forall i :: 0 < i < |launches| ==> launches[i - 1].to == launches[i].from
  }

  ghost predicate LaunchAt<D>(file: DatabaseFile<D>, identity: string, dbs: seq<Db<D>>,
                              launches: seq<Launch<D>>, i: nat)
    requires |dbs| == |launches| + 1 && i < |launches|
  {
    Launches(file, dbs[i], dbs[i + 1], identity, launches[i])
  }

  lemma LaunchesGrow<D>(file: DatabaseFile<D>, identity: string, dbs: seq<Db<D>>, launches: seq<Launch<D>>, now: Db<D>,
                        launch: Launch<D>)
    requires IsLaunchHistory(file, identity, dbs, launches)
    requires Launches(file, dbs[|launches|], now, identity, launch)
    requires launches != [] ==> launches[|launches| - 1].to == launch.from
    ensures IsLaunchHistory(file, identity, dbs + [now], launches + [launch])
  {
    var ds, ls := dbs + [now], launches + [launch];
    forall i: nat | i < |ls| ensures LaunchAt(file, identity, ds, ls, i) {
      assert i < |launches| ==> LaunchAt(file, identity, dbs, launches, i);
    }
  }

  /** Any number of starts, with statement errors and death in any command. */
  method RunStarts<D>(file: DatabaseFile<D>, sites: seq<Site<D>>, identity: string)
    returns (decisions: seq<Decision>, ghost dbs: seq<Db<D>>, ghost launches: seq<Launch<D>>)
    modifies file
    ensures IsLaunchHistory(file, identity, dbs, launches) && |decisions| == |launches| == |sites|
    ensures dbs[0] == old(file.committed) && dbs[|sites|] == file.committed
    ensures sites != [] ==> launches[0].from == old(file.clock) && launches[|sites| - 1].to == file.clock
    ensures forall i :: 0 <= i < |sites| ==> launches[i].site == sites[i] && launches[i].decision == decisions[i]
  {
    decisions, dbs, launches := [], [file.committed], [];
    for i := 0 to |sites|
      invariant |launches| == |decisions| == i && IsLaunchHistory(file, identity, dbs, launches)
      invariant dbs[0] == old(file.committed) && dbs[i] == file.committed
      invariant if i == 0 then file.clock == old(file.clock)
                else launches[0].from == old(file.clock) && launches[i - 1].to == file.clock
      invariant forall k :: 0 <= k < i ==> launches[k].site == sites[k] && launches[k].decision == decisions[k]
    {
      ghost var from := file.clock;
      var d, preflight, executed;
      ghost var stage;
      d, preflight, executed, stage := PrepareDatabase(file, sites[i], true, identity);
      ghost var launch := Launch(sites[i], d, preflight, stage, from, file.clock);
      LaunchesGrow(file, identity, dbs, launches, file.committed, launch);
      decisions, dbs, launches := decisions + [d], dbs + [file.committed], launches + [launch];
    }
  }

  /**
   An attempt left IN_PROGRESS by a command that died, or marked FAILED, or a version the shell
   cannot use, blocks every later start, and nothing in the database changes any more: the shell
   never reaches the migration call whose sweep would clear the attempt.
   */
  lemma {:induction false} BlockedStarts<D>(file: DatabaseFile<D>, identity: string, dbs: seq<Db<D>>,
                                            launches: seq<Launch<D>>, k: nat)
    requires IsLaunchHistory(file, identity, dbs, launches) && Unstartable(dbs[0]) && k < |dbs|
    ensures dbs[k] == dbs[0]
    ensures k < |launches| ==> launches[k].decision == Stop
  {
    if k > 0 {
      BlockedStarts(file, identity, dbs, launches, k - 1);
      StuckStops(file, identity, dbs, launches, k - 1);
    }
    if k < |launches| {
      StuckStops(file, identity, dbs, launches, k);
    }
  }

  lemma StuckStops<D>(file: DatabaseFile<D>, identity: string, dbs: seq<Db<D>>, launches: seq<Launch<D>>, i: nat)
    requires IsLaunchHistory(file, identity, dbs, launches) && i < |launches| && Unstartable(dbs[i])
    ensures launches[i].decision == Stop && dbs[i + 1] == dbs[i]
  {
    assert LaunchAt(file, identity, dbs, launches, i);
    BlockedExactly(dbs[i], launches[i].site.migrations);
  }
}
