/**
 The record two programs exchange before the API starts, and what the desktop shell makes of it
 (desktop-shell/src-tauri/src/main.rs:46-70, 876-893, 976-1062).
 */
module MigrationContract {
  import opened Wrappers

  /** The strings the two programs compare, by name; any other string is `Unlisted`. */
  datatype Command = Preflight | Execute | UnlistedCommand(name: string)

  datatype SchemaStatus =
    | CurrentSchema
    | UpgradeRequiredSchema
    | InProgressSchema
    | FailedSchema
    | NewerSchema
    | CorruptSchema
    | Blocked
    | UnlistedStatus(name: string)

  datatype MarkerStatus = MigrationFailed | MigratedBeforeReadiness | RolledBack | UnlistedMarkerStatus(name: string)

  /** One line of JSON from the migration command. */
  datatype Contract =
    Contract(version: int, command: Command, identity: Option<string>, current: Option<int>, supported: int,
             status: SchemaStatus, migrationRequired: bool, plan: seq<string>, backupRequired: bool,
             reason: Option<string>, interrupted: Option<string>, journalAttempt: Option<string>,
             attempt: Option<string>, reference: Option<string>)

  /** The file that makes the next start undo a migration that never became ready. */
  datatype Marker =
    Marker(version: int, attempt: string, status: MarkerStatus, identity: string, reference: Option<string>)

  const CONTRACT_VERSION := 1

  /** The shell reads versions as 32-bit unsigned numbers; anything else is malformed JSON to it. */
  predicate U32(v: int) {
    0 <= v < 0x1_0000_0000
  }

  predicate Parses(c: Contract) {
    U32(c.version) && U32(c.supported) && (c.current.Some? ==> U32(c.current.value))
  }

  predicate Consistent(c: Contract) {
    && c.supported != 0
    && !(c.current.Some? && c.current.value > c.supported)
    && !(c.migrationRequired && c.plan == [])
    && !(c.status.UpgradeRequiredSchema? && !c.backupRequired)
  }

  predicate ShellAccepts(c: Contract, command: Command) {
    Parses(c) && c.version == CONTRACT_VERSION && c.command == command && Consistent(c)
  }

  datatype Decision =
    | Start
    | StartMigrated(marker: Marker)
    | RollBack(marker: Marker)
    | Stop

  /** The shell goes on to `execute` after this preflight. */
  predicate AsksForUpgrade(preflight: Option<Contract>) {
    && preflight.Some? && ShellAccepts(preflight.value, Preflight)
    && preflight.value.status.UpgradeRequiredSchema? && preflight.value.migrationRequired
    && preflight.value.interrupted.None?
  }

  /** What the shell does without a marker on disk, given what the two commands wrote. */
  function Decide(present: bool, identity: string, preflight: Option<Contract>, executed: Option<Contract>): Decision {
    if !present then Start
    else if preflight.Some? && ShellAccepts(preflight.value, Preflight)
      && preflight.value.status.CurrentSchema? then Start
    else if !AsksForUpgrade(preflight) || executed.None? || !ShellAccepts(executed.value, Execute) then Stop
    else
      var c := executed.value;
      var attempt := if c.attempt.Some? then c.attempt else c.journalAttempt;
      if !c.status.CurrentSchema? then
        if attempt.Some? && c.identity.Some? && c.reference.Some?
        then RollBack(Marker(1, attempt.value, MigrationFailed, c.identity.value, c.reference))
        else Stop
      else if c.reference.None? || attempt.None? || c.identity.None? || c.identity.value != identity then Stop
      else StartMigrated(Marker(1, attempt.value, MigratedBeforeReadiness, c.identity.value, c.reference))
  }

  /** A record of this command and contract version that does not contradict itself, with versions the
      shell can read. */
  ghost predicate Trustworthy(c: Contract, command: Command) {
    && c.version == 1 && c.command == command
    && 0 < c.supported < 0x1_0000_0000
    && (c.current.Some? ==> 0 <= c.current.value <= c.supported)
    && (c.migrationRequired ==> c.plan != [])
    && (c.status.UpgradeRequiredSchema? ==> c.backupRequired)
  }

  /** Both commands have spoken, and nothing in the first record forbids the second command. */
  ghost predicate Ran(preflight: Option<Contract>, executed: Option<Contract>) {
    && preflight.Some? && Trustworthy(preflight.value, Preflight)
    && preflight.value.status.UpgradeRequiredSchema? && preflight.value.migrationRequired
    && preflight.value.interrupted.None?
    && executed.Some? && Trustworthy(executed.value, Execute)
  }

  /** The marker an executed record calls for. */
  ghost predicate CallsFor(c: Contract, status: MarkerStatus, m: Marker) {
    && m.version == 1 && m.status == status && Some(m.identity) == c.identity
    && m.reference == c.reference && m.reference.Some?
    && Some(m.attempt) == (if c.attempt.Some? then c.attempt else c.journalAttempt)
  }

  /** What the shell decides on any two records, well formed or not. */
  lemma DecideExactly(present: bool, identity: string, preflight: Option<Contract>, executed: Option<Contract>)
    ensures var d := Decide(present, identity, preflight, executed);
            && (d.Start? <==>
                  || !present
                  || (preflight.Some? && Trustworthy(preflight.value, Preflight)
                      && preflight.value.status.CurrentSchema?))
            && (forall m :: d == StartMigrated(m) <==>
                  && present && Ran(preflight, executed) && executed.value.status.CurrentSchema?
                  && CallsFor(executed.value, MigratedBeforeReadiness, m) && m.identity == identity)
            && (forall m :: d == RollBack(m) <==>
                  && present && Ran(preflight, executed) && !executed.value.status.CurrentSchema?
                  && CallsFor(executed.value, MigrationFailed, m))
  {
  }
}
