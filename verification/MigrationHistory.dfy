/**
 Properties of `run_migrations` over whole histories: any number of calls, with any declared
 lists and targets, each stopped by an error or by process death between any two statements
 (apps/api/app/db/local_migrations.py:258-377).
 */
module MigrationHistory {
  import opened Wrappers
  import opened LocalMigrations
  import opened SchemaMigrator

  datatype Run<!D> = Run(call: Call<D>, stage: Stage)

  /** `dbs[i + 1]` is what run `i` left in the file; `DatabaseFile.RunMigrations` guarantees each link. */
  ghost predicate IsHistory<D>(dbs: seq<Db<D>>, runs: seq<Run<D>>) {
    |dbs| == |runs| + 1 && forall i {:trigger Leads(dbs, runs, i)} :: 0 <= i < |runs| ==> Leads(dbs, runs, i)
  }

  ghost predicate Leads<D>(dbs: seq<Db<D>>, runs: seq<Run<D>>, i: nat)
    requires |dbs| == |runs| + 1 && i < |runs|
  {
    Permits(dbs[i], runs[i].call, runs[i].stage) && dbs[i + 1] == Durable(dbs[i], runs[i].call, runs[i].stage)
  }

  lemma HistoryGrows<D>(dbs: seq<Db<D>>, runs: seq<Run<D>>, run: Run<D>)
    requires IsHistory(dbs, runs) && Permits(dbs[|runs|], run.call, run.stage)
    ensures IsHistory(dbs + [Durable(dbs[|runs|], run.call, run.stage)], runs + [run])
  {
    var dbs', runs' := dbs + [Durable(dbs[|runs|], run.call, run.stage)], runs + [run];
    forall i: nat | i < |runs'| ensures Leads(dbs', runs', i) {
      if i < |runs| {
        assert Leads(dbs, runs, i);
      }
    }
  }

  lemma HistoryTail<D>(dbs: seq<Db<D>>, runs: seq<Run<D>>)
    requires IsHistory(dbs, runs) && runs != []
    ensures Leads(dbs, runs, 0) && IsHistory(dbs[1..], runs[1..])
  {
    assert Leads(dbs, runs, 0);
    forall i: nat | i < |runs| - 1 ensures Leads(dbs[1..], runs[1..], i) {
      assert Leads(dbs, runs, i + 1);
    }
  }

  /** A call whose statements all proceed, from one tick to the next, ends as it does undisturbed. */
  ghost predicate TimedRun<D>(file: DatabaseFile<D>, db: Db<D>, run: Run<D>, outcome: Outcome, from: nat, to: nat) {
    from <= to && (file.Calm(from, to) ==> (outcome, run.stage) == Undisturbed(db, run.call))
  }

  /** One call, as the next link of a history. */
  method RunOne<D>(file: DatabaseFile<D>, call: Call<D>) returns (outcome: Outcome, ghost run: Run<D>)
    modifies file
    ensures run.call == call && Permits(old(file.committed), call, run.stage)
    ensures file.committed == Durable(old(file.committed), call, run.stage)
    ensures TimedRun(file, old(file.committed), run, outcome, old(file.clock), file.clock)
  {
    ghost var stage;
    outcome, stage := file.RunMigrations(call);
    run := Run(call, stage);
  }

  /** Runs the calls one after the other, a fresh process for each; call `i` starts at `ticks[i]`. */
  method RunAll<D>(file: DatabaseFile<D>, calls: seq<Call<D>>)
    returns (outcomes: seq<Outcome>, ghost dbs: seq<Db<D>>, ghost runs: seq<Run<D>>, ghost ticks: seq<nat>)
    modifies file
    ensures IsHistory(dbs, runs) && |runs| == |calls| == |outcomes|
    ensures dbs[0] == old(file.committed) && dbs[|calls|] == file.committed
    ensures forall i :: 0 <= i < |calls| ==> runs[i].call == calls[i]
    ensures |ticks| == |calls| + 1 && ticks[0] == old(file.clock) && ticks[|calls|] == file.clock
    ensures forall i :: 0 <= i < |calls| ==> TimedRun(file, dbs[i], runs[i], outcomes[i], ticks[i], ticks[i + 1])
  {
    outcomes, dbs, runs, ticks := [], [file.committed], [], [file.clock];
    for i := 0 to |calls|
      invariant |runs| == |outcomes| == i && IsHistory(dbs, runs)
      invariant dbs[0] == old(file.committed) && dbs[i] == file.committed
      invariant forall k :: 0 <= k < i ==> runs[k].call == calls[k]
      invariant |ticks| == i + 1 && ticks[0] == old(file.clock) && ticks[i] == file.clock
      invariant forall k :: 0 <= k < i ==> TimedRun(file, dbs[k], runs[k], outcomes[k], ticks[k], ticks[k + 1])
    {
      var outcome, run := RunOne(file, calls[i]);
      HistoryGrows(dbs, runs, run);
      outcomes, ticks := outcomes + [outcome], ticks + [file.clock];
      dbs, runs := dbs + [file.committed], runs + [run];
    }
  }

  // ---------------------------------------------------------------- exactly once

  /** The migrations whose effects were committed, in order. */
  ghost function Committed<D>(dbs: seq<Db<D>>, runs: seq<Run<D>>): seq<Migration<D>>
    requires |dbs| == |runs| + 1
  {
    if runs == [] then []
    else
      (if Advances(runs[0].stage) then PlanFor(dbs[0], runs[0].call) else []) + Committed(dbs[1..], runs[1..])
  }

  lemma {:induction false} ChainsAppend<D>(p: seq<Migration<D>>, q: seq<Migration<D>>, u: int, v: int, w: int)
    requires Chains(p, u, v) && Chains(q, v, w)
    ensures Chains(p + q, u, w)
    decreases |p|
  {
    if p == [] {
      assert p + q == q;
    } else {
      ChainsAppend(p[1..], q, p[0].to, v, w);
      assert (p + q)[1..] == p[1..] + q;
    }
  }

  lemma {:induction false} ApplyAppend<D>(p: seq<Migration<D>>, q: seq<Migration<D>>, data: D)
    ensures ApplyAll(p + q, data) ==
            (match ApplyAll(p, data)
             case None => None
             case Some(mid) => ApplyAll(q, mid))
    decreases |p|
  {
    if p == [] {
      assert p + q == q;
    } else {
      assert (p + q)[1..] == p[1..] + q;
      match p[0].apply(data)
      case None =>
      case Some(next) => ApplyAppend(p[1..], q, next);
    }
  }

  /** One run either leaves data and version alone or carries both along its whole plan. */
  lemma RunIsAtomic<D>(db: Db<D>, call: Call<D>, stage: Stage)
    requires Permits(db, call, stage)
    ensures var after := Durable(db, call, stage);
            if Advances(stage) then
              && StoredVersion(db).Some?
              && StoredVersion(after) == Some(call.target)
              && IsPath(call.migrations, PlanFor(db, call), StoredVersion(db).value, call.target)
              && ApplyAll(PlanFor(db, call), db.data) == Some(after.data)
              && IntegrityError(call.checks, after.data).None?
            else StoredVersion(after) == StoredVersion(db) && after.data == db.data
  {
    if Ready(db, call) {
      PlanIsTheOnlyPath(StoredVersion(db).value, call.target, call.migrations, PlanFor(db, call));
    }
  }

  /** `after` holds the data and version that `chain` makes of those in `before`. */
  ghost predicate Carried<D>(chain: seq<Migration<D>>, before: Db<D>, after: Db<D>) {
    && StoredVersion(before).Some? && StoredVersion(after).Some?
    && Chains(chain, StoredVersion(before).value, StoredVersion(after).value)
    && ApplyAll(chain, before.data) == Some(after.data)
  }

  lemma CarriedOn<D>(p: seq<Migration<D>>, q: seq<Migration<D>>, a: Db<D>, b: Db<D>, c: Db<D>)
    requires Carried(p, a, b) && Carried(q, b, c)
    ensures Carried(p + q, a, c)
  {
    ChainsAppend(p, q, StoredVersion(a).value, StoredVersion(b).value, StoredVersion(c).value);
    ApplyAppend(p, q, a.data);
  }

  lemma RunCarries<D>(db: Db<D>, call: Call<D>, stage: Stage)
    requires Permits(db, call, stage) && StoredVersion(db).Some?
    ensures Carried(if Advances(stage) then PlanFor(db, call) else [], db, Durable(db, call, stage))
  {
    RunIsAtomic(db, call, stage);
  }

  /** The committed data is the initial data put through one contiguous chain of migrations
      from the initial version to the stored version; no migration in it is skipped or repeated. */
  lemma {:induction false} ExactlyOnce<D>(dbs: seq<Db<D>>, runs: seq<Run<D>>)
    requires IsHistory(dbs, runs) && StoredVersion(dbs[0]).Some?
    ensures Carried(Committed(dbs, runs), dbs[0], dbs[|runs|])
    ensures var chain := Committed(dbs, runs);
            forall i, j :: 0 <= i < j < |chain| ==> chain[i].to <= chain[j].from && chain[i] != chain[j]
    decreases |runs|
  {
    if runs != [] {
      HistoryTail(dbs, runs);
      RunCarries(dbs[0], runs[0].call, runs[0].stage);
      ExactlyOnce(dbs[1..], runs[1..]);
      CarriedOn(if Advances(runs[0].stage) then PlanFor(dbs[0], runs[0].call) else [], Committed(dbs[1..], runs[1..]),
                dbs[0], dbs[1], dbs[|runs|]);
    }
    ChainsClimb(Committed(dbs, runs), StoredVersion(dbs[0]).value, StoredVersion(dbs[|runs|]).value);
  }

  /** Every version the file ever holds is the initial one or the target of a call: a version
      inside a plan is never committed. */
  lemma {:induction false} OnlyTargetsAreCommitted<D>(dbs: seq<Db<D>>, runs: seq<Run<D>>, i: nat)
    requires IsHistory(dbs, runs) && i < |dbs|
    ensures || StoredVersion(dbs[i]) == StoredVersion(dbs[0])
            || exists j :: 0 <= j < i && Advances(runs[j].stage) && StoredVersion(dbs[i]) == Some(runs[j].call.target)
  {
    if i > 0 {
      assert Leads(dbs, runs, i - 1);
      RunIsAtomic(dbs[i - 1], runs[i - 1].call, runs[i - 1].stage);
      OnlyTargetsAreCommitted(dbs, runs, i - 1);
    }
  }

  // ---------------------------------------------------------------- the journal

  /** What a row says about the version that was stored after it. */
  predicate Explains(row: Row, version: int) {
    version == row.target || (version == row.from && row.status != Completed)
  }

  /** The version stored right after row `i`: the next row starts from it. */
  function VersionAfter<D>(db: Db<D>, i: nat): int
    requires StoredVersion(db).Some? && i < |Rows(db)|
  {
    if i + 1 < |Rows(db)| then Rows(db)[i + 1].from else StoredVersion(db).value
  }

  ghost predicate JournalInv<D>(db: Db<D>) {
    var rows := Rows(db);
    && StoredVersion(db).Some?
    && (forall i, j :: 0 <= i < j < |rows| ==> rows[i].attempt != rows[j].attempt)
    && (forall i :: 0 <= i < |rows| - 1 ==> rows[i].status != InProgress && rows[i].status != Failed)
    && (forall i :: 0 <= i < |rows| ==> rows[i].from < rows[i].target)
    && (forall i {:trigger VersionAfter(db, i)} :: 0 <= i < |rows| ==> Explains(rows[i], VersionAfter(db, i)))
  }

  lemma SweepKeepsJournal<D>(db: Db<D>)
    requires JournalInv(db)
    ensures JournalInv(Prepared(db))
  {
    var rows, swept := Rows(db), Rows(Prepared(db));
    forall i | 0 <= i < |swept|
      ensures swept[i].from < swept[i].target && Explains(swept[i], VersionAfter(Prepared(db), i))
    {
      assert Explains(rows[i], VersionAfter(db, i));
    }
    forall i, j | 0 <= i < j < |swept| ensures swept[i].attempt != swept[j].attempt {
      assert rows[i].attempt != rows[j].attempt;
    }
  }

  /** Appending the row of an attempt that starts at the stored version. */
  lemma AttemptKeepsJournal<D>(db: Db<D>, after: Db<D>, row: Row)
    requires JournalInv(db) && !Known(Rows(db), row.attempt)
    requires !HasStatus(Rows(db), InProgress) && !HasStatus(Rows(db), Failed)
    requires row.from == StoredVersion(db).value < row.target
    requires after.journal == Some(Rows(db) + [row])
    requires StoredVersion(after).Some? && Explains(row, StoredVersion(after).value)
    ensures JournalInv(after)
  {
    var rows, rows' := Rows(db), Rows(after);
    forall i | 0 <= i < |rows'| ensures rows'[i].from < rows'[i].target && Explains(rows'[i], VersionAfter(after, i)) {
      if i < |rows| {
        assert VersionAfter(after, i) == VersionAfter(db, i);
      }
    }
  }

  lemma PreparedIsSettled<D>(db: Db<D>, call: Call<D>)
    requires JournalInv(db) && Ready(db, call)
    ensures JournalInv(Prepared(db)) && !Known(Rows(Prepared(db)), call.attempt)
    ensures !HasStatus(Rows(Prepared(db)), InProgress) && !HasStatus(Rows(Prepared(db)), Failed)
    ensures InfoFor(db, call).current == StoredVersion(db) && StoredVersion(db).value < call.target
  {
    SweepKeepsJournal(db);
    SweepKeepsAttempts(Rows(db), call.attempt);
  }

  lemma AttemptRowKeepsJournal<D>(db: Db<D>, call: Call<D>, after: Db<D>, status: Status)
    requires JournalInv(db) && Ready(db, call)
    requires after.journal == Journalled(db, call, status).journal
    requires || StoredVersion(after) == Some(call.target)
             || (StoredVersion(after) == StoredVersion(db) && status != Completed)
    ensures JournalInv(after)
  {
    PreparedIsSettled(db, call);
    AttemptKeepsJournal(Prepared(db), after, AttemptRow(db, call, status));
  }

  lemma RunKeepsJournal<D>(db: Db<D>, call: Call<D>, stage: Stage)
    requires JournalInv(db) && Permits(db, call, stage)
    ensures JournalInv(Durable(db, call, stage))
  {
    RunIsAtomic(db, call, stage);
    var after := Durable(db, call, stage);
    match stage
    case Untouched | JournalReady =>
    case SweptClean => SweepKeepsJournal(db);
    case Recorded => AttemptRowKeepsJournal(db, call, after, InProgress);
    case RolledBack => AttemptRowKeepsJournal(db, call, after, Failed);
    case Advanced => AttemptRowKeepsJournal(db, call, after, InProgress);
    case AdvancedThenFailed => AttemptRowKeepsJournal(db, call, after, Failed);
    case Done => AttemptRowKeepsJournal(db, call, after, Completed);
  }

  lemma {:induction false} JournalOverHistory<D>(dbs: seq<Db<D>>, runs: seq<Run<D>>, i: nat)
    requires IsHistory(dbs, runs) && JournalInv(dbs[0]) && i < |dbs|
    ensures JournalInv(dbs[i])
  {
    if i > 0 {
      JournalOverHistory(dbs, runs, i - 1);
      assert Leads(dbs, runs, i - 1);
      RunKeepsJournal(dbs[i - 1], runs[i - 1].call, runs[i - 1].stage);
    }
  }

  /** The versions named by the journal only climb. */
  lemma {:induction false} JournalClimbs<D>(db: Db<D>, i: nat)
    requires JournalInv(db) && i < |Rows(db)|
    ensures VersionAfter(db, i) <= StoredVersion(db).value
    decreases |Rows(db)| - i
  {
    if i + 1 < |Rows(db)| {
      assert Explains(Rows(db)[i + 1], VersionAfter(db, i + 1));
      JournalClimbs(db, i + 1);
    }
  }

  /** In every reachable file: one row at most is IN_PROGRESS, one at most FAILED and then it is
      the last one inserted, and a COMPLETED row's target never exceeds the stored version. */
  lemma JournalMeaning<D>(db: Db<D>)
    requires JournalInv(db)
    ensures var rows := Rows(db);
            && (forall i, j :: 0 <= i < j < |rows| ==> rows[i].status != InProgress || rows[j].status != InProgress)
            && (forall i :: 0 <= i < |rows| && rows[i].status == Failed ==> i == |rows| - 1)
            && (forall i :: 0 <= i < |rows| && rows[i].status == Completed ==>
                  rows[i].target <= StoredVersion(db).value)
  {
    var rows := Rows(db);
    forall i | 0 <= i < |rows| && rows[i].status == Completed ensures rows[i].target <= StoredVersion(db).value {
      assert Explains(rows[i], VersionAfter(db, i));
      JournalClimbs(db, i);
    }
  }

  lemma SweepLeavesSettled(rows: seq<Row>)
    requires !HasStatus(rows, InProgress)
    ensures Sweep(rows) == rows
  {
  }

  lemma SweepSettles(rows: seq<Row>)
    ensures !HasStatus(Sweep(rows), InProgress)
    ensures HasStatus(Sweep(rows), Failed) == HasStatus(rows, Failed)
  {
    if HasStatus(rows, Failed) {
      var i :| 0 <= i < |rows| && rows[i].status == Failed;
      assert Sweep(rows)[i].status == Failed;
    }
  }

  /** Once a FAILED row exists a run changes nothing at all and cannot report success. */
  lemma FailedBlocks<D>(db: Db<D>, call: Call<D>, stage: Stage)
    requires JournalInv(db) && HasStatus(Rows(db), Failed) && Permits(db, call, stage)
    ensures Durable(db, call, stage) == db
    ensures Undisturbed(db, call) == (Raised("schema_not_migratable"), SweptClean)
  {
    SweepLeavesSettled(Rows(db));
    SweepSettles(Rows(db));
  }

  lemma FailedBlocksNext<D>(dbs: seq<Db<D>>, runs: seq<Run<D>>, k: nat)
    requires IsHistory(dbs, runs) && JournalInv(dbs[0]) && k < |runs| && HasStatus(Rows(dbs[k]), Failed)
    ensures dbs[k + 1] == dbs[k]
  {
    assert Leads(dbs, runs, k);
    JournalOverHistory(dbs, runs, k);
    FailedBlocks(dbs[k], runs[k].call, runs[k].stage);
  }

  lemma {:induction false} FailedBlocksForever<D>(dbs: seq<Db<D>>, runs: seq<Run<D>>, i: nat, k: nat)
    requires IsHistory(dbs, runs) && JournalInv(dbs[0])
    requires i <= k < |dbs| && HasStatus(Rows(dbs[i]), Failed)
    ensures dbs[k] == dbs[i]
    decreases k - i
  {
    if i < k {
      FailedBlocksForever(dbs, runs, i, k - 1);
      FailedBlocksNext(dbs, runs, k - 1);
    }
  }

  /** The journal says that the attempt of this call failed. */
  predicate AttemptFailed<D>(db: Db<D>, call: Call<D>) {
    exists i :: 0 <= i < |Rows(db)| && Rows(db)[i].attempt == call.attempt && Rows(db)[i].status == Failed
  }

  lemma AttemptFailedStages<D>(db: Db<D>, call: Call<D>, stage: Stage)
    requires Permits(db, call, stage) && !Known(Rows(db), call.attempt)
    ensures AttemptFailed(Durable(db, call, stage), call) <==> stage in {RolledBack, AdvancedThenFailed}
  {
    SweepKeepsAttempts(Rows(db), call.attempt);
    var rows, earlier := Rows(Durable(db, call, stage)), Rows(db);
    if stage in {RolledBack, AdvancedThenFailed} {
      assert rows[|rows| - 1].attempt == call.attempt && rows[|rows| - 1].status == Failed;
    } else {
      forall i | 0 <= i < |rows| ensures rows[i].attempt != call.attempt || rows[i].status != Failed {
        assert i < |earlier| ==> rows[i].attempt == earlier[i].attempt;
        assert Known(Sweep(earlier), call.attempt) == Known(earlier, call.attempt);
      }
    }
  }

  /**
   The failure message claims the version did not move. For an attempt recorded as FAILED that is
   false exactly when every statement up to the version commit went through for a plan that applies,
   one of the two statements that complete the journal row raised, and the handler's did not:
   `FailsLate` at the tick after the eight statements that admit the attempt.
   */
  method FailedCall<D>(file: DatabaseFile<D>, call: Call<D>) returns (outcome: Outcome)
    modifies file
    ensures !Known(Rows(old(file.committed)), call.attempt) && AttemptFailed(file.committed, call) ==>
              (StoredVersion(file.committed) != StoredVersion(old(file.committed)) <==>
                 && Ready(old(file.committed), call) && file.Calm(old(file.clock), old(file.clock) + 8)
                 && file.FailsLate(call, PlanFor(old(file.committed), call), old(file.committed).data,
                                   old(file.clock) + 8))
    ensures Ready(old(file.committed), call) && file.Calm(old(file.clock), old(file.clock) + 8)
            && file.FailsLate(call, PlanFor(old(file.committed), call), old(file.committed).data,
                              old(file.clock) + 8) ==>
              && AttemptFailed(file.committed, call) && outcome == Raised("migration_failed")
              && StoredVersion(file.committed) == Some(call.target)
  {
    ghost var before, stage := file.committed, Untouched;
    outcome, stage := file.RunMigrations(call);
    if !Known(Rows(before), call.attempt) {
      AttemptFailedStages(before, call, stage);
    }
    RunIsAtomic(before, call, stage);
    if stage == AdvancedThenFailed {
      VersionMoved(before, call);
    }
  }

  lemma VersionMoved<D>(db: Db<D>, call: Call<D>)
    requires Sound(db, call)
    ensures StoredVersion(db) != Some(call.target)
  {
  }

  /** Every call with a sound plan can end that way: an error in the statement after the version commit. */
  method LateFailure<D>(db: Db<D>, call: Call<D>) returns (file: DatabaseFile<D>, outcome: Outcome)
    requires Sound(db, call)
    ensures fresh(file) && outcome == Raised("migration_failed")
    ensures AttemptFailed(file.committed, call)
    ensures StoredVersion(file.committed) == Some(call.target) != StoredVersion(db)
  {
    var late := 14 + |PlanFor(db, call)|;
    file := new DatabaseFile(db, k => if k == late then Raises else Proceeds);
    assert file.Commits(call, PlanFor(db, call), db.data, 8) && file.RaisesLate(late);
    outcome := FailedCall(file, call);
    VersionMoved(db, call);
  }

  // ---------------------------------------------------------------- recovery

  /** The database is not above the target and, if it is below, nothing stands in the way. */
  ghost predicate CanRecover<D>(db: Db<D>, call: Call<D>)
    requires StoredVersion(db).Some?
  {
    var v := StoredVersion(db).value;
    && !HasStatus(Rows(db), Failed)
    && v <= call.target
    && (v < call.target ==>
          var plan := PlanOf(v, call.target, call.migrations);
          && plan.Planned?
          && BackupAccepted(call, plan.plan)
          && !Known(Rows(db), call.attempt)
          && ApplyAll(plan.plan, db.data).Some?
          && IntegrityError(call.checks, ApplyAll(plan.plan, db.data).value).None?)
  }

  lemma RecoveryOutcome<D>(db: Db<D>, call: Call<D>)
    requires JournalInv(db) && CanRecover(db, call)
    ensures var (outcome, stage) := Undisturbed(db, call);
            && outcome.Finished? && outcome.report.state == Current
            && stage == (if StoredVersion(db).value == call.target then SweptClean else Done)
            && Permits(db, call, stage)
  {
    SweepSettles(Rows(db));
  }

  lemma DoneIsSettled<D>(db: Db<D>, call: Call<D>)
    requires !HasStatus(Rows(db), Failed) && Permits(db, call, Done)
    ensures var rows := Rows(Durable(db, call, Done)); !HasStatus(rows, InProgress) && !HasStatus(rows, Failed)
  {
    SweepSettles(Rows(db));
    assert forall i :: 0 <= i < |Rows(db)| ==> Sweep(Rows(db))[i].status != InProgress;
    assert forall i :: 0 <= i < |Rows(db)| ==> Sweep(Rows(db))[i].status != Failed;
  }

  /** From any file death can leave behind, an undisturbed call with a plan ends CURRENT. */
  lemma Recovery<D>(db: Db<D>, call: Call<D>)
    requires JournalInv(db) && CanRecover(db, call)
    ensures var (outcome, stage) := Undisturbed(db, call);
            && outcome.Finished? && outcome.report.state == Current
            && Permits(db, call, stage)
            && Inspect(Durable(db, call, stage), call.migrations, call.target).state == Current
  {
    RecoveryOutcome(db, call);
    var (outcome, stage) := Undisturbed(db, call);
    RunIsAtomic(db, call, stage);
    if stage == Done {
      DoneIsSettled(db, call);
    } else {
      SweepSettles(Rows(db));
    }
  }

  /** If the process died after the version commit, the next undisturbed call only settles the
      journal: it reports CURRENT, applies nothing and leaves data and version as they are. */
  lemma DeathAfterVersionCommit<D>(db: Db<D>, call: Call<D>, next: Call<D>)
    requires Permits(db, call, Advanced) && next.target == call.target
    ensures var died := Durable(db, call, Advanced);
            var (outcome, stage) := Undisturbed(died, next);
            && outcome == Finished(Report(next.attempt, Current, call.target, call.target, []))
            && stage == SweptClean
            && Durable(died, next, stage).data == died.data
            && Durable(died, next, stage).versions == died.versions
  {
    var died := Durable(db, call, Advanced);
    RunIsAtomic(db, call, Advanced);
    SweepSettles(Rows(died));
    assert !HasStatus(Rows(died), Failed) by {
      SweepSettles(Rows(db));
      assert forall i :: 0 <= i < |Sweep(Rows(db))| ==> Sweep(Rows(db))[i].status != Failed;
    }
  }

  /** After any calls at all, stopped anywhere, a call whose statements all proceed and that nothing
      stands in the way of ends CURRENT. */
  lemma RecoverAfter<D>(file: DatabaseFile<D>, dbs: seq<Db<D>>, runs: seq<Run<D>>, outcome: Outcome,
                        ticks: seq<nat>, i: nat)
    requires IsHistory(dbs, runs) && JournalInv(dbs[0]) && i < |runs| < |ticks|
    requires TimedRun(file, dbs[i], runs[i], outcome, ticks[i], ticks[i + 1]) && file.Calm(ticks[i], ticks[i + 1])
    requires StoredVersion(dbs[i]).Some? && CanRecover(dbs[i], runs[i].call)
    ensures outcome.Finished? && outcome.report.state == Current
    ensures Inspect(dbs[i + 1], runs[i].call.migrations, runs[i].call.target).state == Current
  {
    assert Leads(dbs, runs, i);
    JournalOverHistory(dbs, runs, i);
    Recovery(dbs[i], runs[i].call);
  }
}
