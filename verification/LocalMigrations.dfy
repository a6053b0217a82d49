/**
 The declared migrations and the plan that carries a database from its stored schema
 version to the one the application supports
 (apps/api/app/db/local_migrations.py:125-166).

 `Follow` is the specification of the planning loop; what the source promises of a plan
 (the only path, in declared order, of bounded length) is proved about it.
 */
module LocalMigrations {
  import opened Wrappers

  /** One declared upgrade; `apply` edits the data or raises (`None`). */
  datatype Migration<!D> =
    Migration(id: string, from: int, to: int, apply: D -> Option<D>, requiresBackup: bool)

  datatype MigrationError = MigrationError(code: string, message: string)

  datatype Planned<!D> = Planned(plan: seq<Migration<D>>) | NoPlan(error: MigrationError)

  const ORDER_INVALID := MigrationError("migration_order_invalid", "Local migrations must be declared in order.")
  const ID_DUPLICATE := MigrationError("migration_id_duplicate", "Local migration IDs must be unique.")
  const DEFINITION_INVALID :=
    MigrationError("migration_definition_invalid", "Local migrations must be single-direction upgrades.")
  const DOWNGRADE := MigrationError("downgrade_unsupported", "Local schema downgrade is not supported.")
  const PATH_MISSING := MigrationError("migration_path_missing", "No unique migration path.")

  // ---------------------------------------------------------------- declared order

  predicate Sorted<D>(ms: seq<Migration<D>>) {
    forall i, j :: 0 <= i < j < |ms| ==> ms[i].from <= ms[j].from
  }

  predicate DefinitionOk<D>(m: Migration<D>) {
    m.id != "" && m.id != "pending" && m.from < m.to
  }

  predicate Upgrades<D>(ms: seq<Migration<D>>) {
    forall i :: 0 <= i < |ms| ==> ms[i].from < ms[i].to
  }

  /** The error the scan over the declared list reports first, if any. */
  function ScanError<D>(ms: seq<Migration<D>>, seen: set<string>): Option<MigrationError> {
    if ms == [] then None
    else if ms[0].id in seen then Some(ID_DUPLICATE)
    else if !DefinitionOk(ms[0]) then Some(DEFINITION_INVALID)
    else ScanError(ms[1..], seen + {ms[0].id})
  }

  function OrderError<D>(ms: seq<Migration<D>>): Option<MigrationError> {
    if !Sorted(ms) then Some(ORDER_INVALID) else ScanError(ms, {})
  }

  /** A list is accepted exactly when it is in order, well defined and free of duplicate ids. */
  ghost predicate WellDeclared<D>(ms: seq<Migration<D>>) {
    && Sorted(ms)
    && (forall i :: 0 <= i < |ms| ==> DefinitionOk(ms[i]))
    && (forall i, j :: 0 <= i < j < |ms| ==> ms[i].id != ms[j].id)
  }

  lemma {:induction false} ScanAccepts<D>(ms: seq<Migration<D>>, seen: set<string>)
    ensures ScanError(ms, seen).None? <==>
            && (forall i :: 0 <= i < |ms| ==> DefinitionOk(ms[i]) && ms[i].id !in seen)
            && (forall i, j :: 0 <= i < j < |ms| ==> ms[i].id != ms[j].id)
  {
    if ms != [] {
      ScanAccepts(ms[1..], seen + {ms[0].id});
      assert ms == [ms[0]] + ms[1..];
    }
  }

  lemma OrderErrorIsExact<D>(ms: seq<Migration<D>>)
    ensures OrderError(ms).None? <==> WellDeclared(ms)
    ensures OrderError(ms).None? <==>
            && (forall i, j :: 0 <= i < j < |ms| ==> ms[i].from <= ms[j].from)
            && (forall i :: 0 <= i < |ms| ==> Usable(ms[i]))
            && (forall i :: 0 <= i < |ms| ==> !Repeats(ms, i))
  {
    ScanAccepts(ms, {});
    if OrderError(ms).None? {
      forall i | 0 <= i < |ms| ensures Usable(ms[i]) && !Repeats(ms, i) {
        assert DefinitionOk(ms[i]);
      }
    } else if forall i :: 0 <= i < |ms| ==> Usable(ms[i]) && !Repeats(ms, i) {
      assert forall i :: 0 <= i < |ms| ==> Usable(ms[i]) ==> DefinitionOk(ms[i]);
      forall i, j | 0 <= i < j < |ms| ensures ms[i].id != ms[j].id {
        assert !Repeats(ms, j);
      }
    }
  }

  /** An upgrade with an id that may be declared. */
  ghost predicate Usable<D>(m: Migration<D>) {
    m.id != "" && m.id != "pending" && m.from < m.to
  }

  /** An earlier migration of the list has the same id. */
  ghost predicate Repeats<D>(ms: seq<Migration<D>>, i: nat)
    requires i < |ms|
  {
    exists h :: 0 <= h < i && ms[h].id == ms[i].id
  }

  lemma {:induction false} ScanStops<D>(ms: seq<Migration<D>>, seen: set<string>, i: nat)
    requires i < |ms|
    requires forall h :: 0 <= h < i ==> Usable(ms[h]) && ms[h].id !in seen && !Repeats(ms, h)
    requires !Usable(ms[i]) || ms[i].id in seen || Repeats(ms, i)
    ensures ScanError(ms, seen) == Some(if ms[i].id in seen || Repeats(ms, i) then ID_DUPLICATE else DEFINITION_INVALID)
    decreases i
  {
    if i > 0 {
      var tail, more := ms[1..], seen + {ms[0].id};
      assert Usable(ms[0]);
      forall h | 0 <= h < i ensures Repeats(tail, h) || tail[h].id in more <==> Repeats(ms, h + 1) || tail[h].id in seen
      {
        if Repeats(tail, h) {
          var g :| 0 <= g < h && tail[g].id == tail[h].id;
          assert ms[g + 1].id == ms[h + 1].id;
        }
        if Repeats(ms, h + 1) && ms[0].id != ms[h + 1].id {
          var g :| 0 <= g < h + 1 && ms[g].id == ms[h + 1].id;
          assert tail[g - 1].id == tail[h].id;
        }
      }
      forall h | 0 <= h < i - 1 ensures Usable(tail[h]) && tail[h].id !in more && !Repeats(tail, h) {
        assert Usable(ms[h + 1]) && !Repeats(ms, h + 1);
      }
      ScanStops(tail, more, i - 1);
    }
  }

  /** A list that is not in order is refused as such; otherwise the first migration that repeats an id
      or is ill defined decides, and the repetition is noticed first. */
  lemma FirstErrorDecides<D>(ms: seq<Migration<D>>, i: nat)
    requires i < |ms|
    requires forall h :: 0 <= h < i ==> Usable(ms[h]) && !Repeats(ms, h)
    requires !Usable(ms[i]) || Repeats(ms, i)
    ensures OrderError(ms) == Some(
              if exists g, h :: 0 <= g < h < |ms| && ms[g].from > ms[h].from
              then MigrationError("migration_order_invalid", "Local migrations must be declared in order.")
              else if Repeats(ms, i)
              then MigrationError("migration_id_duplicate", "Local migration IDs must be unique.")
              else MigrationError("migration_definition_invalid",
                                  "Local migrations must be single-direction upgrades."))
  {
    if forall g, h :: 0 <= g < h < |ms| ==> ms[g].from <= ms[h].from {
      ScanStops(ms, {}, i);
    }
  }

  method OrderedMigrations<D>(ms: seq<Migration<D>>) returns (error: Option<MigrationError>)
    ensures error == OrderError(ms)
    ensures error.None? <==> WellDeclared(ms)
  {
    OrderErrorIsExact(ms);
    if !Sorted(ms) {
      return Some(ORDER_INVALID);
    }
    var seen: set<string> := {};
    var i := 0;
    while i < |ms|
      invariant 0 <= i <= |ms|
      invariant ScanError(ms, {}) == ScanError(ms[i..], seen)
    {
      if ms[i].id in seen {
        return Some(ID_DUPLICATE);
      }
      if !DefinitionOk(ms[i]) {
        return Some(DEFINITION_INVALID);
      }
      seen := seen + {ms[i].id};
      assert ms[i..][1..] == ms[i + 1..];
      i := i + 1;
    }
    error := None;
  }

  // ---------------------------------------------------------------- the planning loop

  function Candidates<D>(ms: seq<Migration<D>>, version: int): (cs: seq<Migration<D>>)
    ensures forall i :: 0 <= i < |cs| ==> cs[i].from == version
    ensures Upgrades(ms) ==> forall i :: 0 <= i < |cs| ==> version < cs[i].to
  {
    if ms == [] then []
    else (if ms[0].from == version then [ms[0]] else []) + Candidates(ms[1..], version)
  }

  /** What the loop selects from `version` on; `None` when it raises. */
  function Follow<D>(ms: seq<Migration<D>>, version: int, target: int): Option<seq<Migration<D>>>
    requires Upgrades(ms)
    decreases target - version
  {
    if version > target then None
    else if version == target then Some([])
    else
      var cs := Candidates(ms, version);
      if |cs| != 1 then None
      else
        match Follow(ms, cs[0].to, target)
        case None => None
        case Some(rest) => Some([cs[0]] + rest)
  }

  function PlanOf<D>(current: int, target: int, ms: seq<Migration<D>>): Planned<D> {
    match OrderError(ms)
    case Some(e) => NoPlan(e)
    case None =>
      OrderErrorIsExact(ms);
      if current > target then NoPlan(DOWNGRADE)
      else
        match Follow(ms, current, target)
        case None => NoPlan(PATH_MISSING)
        case Some(plan) => Planned(plan)
  }

  method BuildMigrationPlan<D>(current: int, target: int, ms: seq<Migration<D>>) returns (r: Planned<D>)
    ensures r == PlanOf(current, target, ms)
  {
    var error := OrderedMigrations(ms);
    if error.Some? {
      return NoPlan(error.value);
    }
    if current > target {
      return NoPlan(DOWNGRADE);
    }
    var version := current;
    var selected: seq<Migration<D>> := [];
    if Follow(ms, current, target).Some? {
      assert selected + Follow(ms, current, target).value == Follow(ms, current, target).value;
    }
    while version < target
      invariant Follow(ms, current, target) ==
                (match Follow(ms, version, target)
                 case None => None
                 case Some(rest) => Some(selected + rest))
      decreases target - version
    {
      var candidates := Candidates(ms, version);
      if |candidates| != 1 {
        return NoPlan(PATH_MISSING);
      }
      var migration := candidates[0];
      ghost var before := selected;
      selected := selected + [migration];
      if Follow(ms, migration.to, target).Some? {
        ghost var rest := Follow(ms, migration.to, target).value;
        assert before + ([migration] + rest) == selected + rest;
      }
      version := migration.to;
    }
    if version != target {
      return NoPlan(PATH_MISSING);
    }
    assert selected + [] == selected;
    r := Planned(selected);
  }

  // ---------------------------------------------------------------- what a plan is

  /** `p` leads from `v` to `t`: each migration starts where the previous one ended. */
  ghost predicate Chains<D>(p: seq<Migration<D>>, v: int, t: int)
    decreases |p|
  {
    if p == [] then v == t else p[0].from == v && v < p[0].to && Chains(p[1..], p[0].to, t)
  }

  ghost predicate IsPath<D>(ms: seq<Migration<D>>, p: seq<Migration<D>>, v: int, t: int) {
    Chains(p, v, t) && forall i :: 0 <= i < |p| ==> p[i] in ms
  }

  /** `m` is the one declared migration that leaves its version. */
  ghost predicate OnlyFrom<D>(ms: seq<Migration<D>>, m: Migration<D>) {
    Candidates(ms, m.from) == [m]
  }

  lemma {:induction false} CandidatesMembers<D>(ms: seq<Migration<D>>, v: int, m: Migration<D>)
    ensures m in Candidates(ms, v) <==> m in ms && m.from == v
  {
    if ms != [] {
      CandidatesMembers(ms[1..], v, m);
      assert ms == [ms[0]] + ms[1..];
    }
  }

  /** Whatever is declared from the version of an unrivalled migration is that migration. */
  lemma OnlyFromIsOnly<D>(ms: seq<Migration<D>>, m: Migration<D>, n: Migration<D>)
    requires OnlyFrom(ms, m) && n in ms && n.from == m.from
    ensures n == m
  {
    CandidatesMembers(ms, m.from, n);
  }

  /** With distinct from-versions every declared migration is unrivalled. */
  lemma {:induction false} DistinctIsOnly<D>(ms: seq<Migration<D>>, m: Migration<D>)
    requires forall i, j :: 0 <= i < j < |ms| ==> ms[i].from != ms[j].from
    requires m in ms
    ensures OnlyFrom(ms, m)
  {
    var tail := ms[1..];
    assert ms == [ms[0]] + tail;
    if ms[0] == m {
      if Candidates(tail, m.from) != [] {
        CandidatesMembers(tail, m.from, Candidates(tail, m.from)[0]);
      }
    } else {
      DistinctIsOnly(tail, m);
    }
  }

  /** A path none of whose steps has an alternative. */
  ghost predicate IsOnlyPath<D>(ms: seq<Migration<D>>, p: seq<Migration<D>>, v: int, t: int) {
    IsPath(ms, p, v, t) && forall i :: 0 <= i < |p| ==> OnlyFrom(ms, p[i])
  }

  lemma OnlyPathUnfolds<D>(ms: seq<Migration<D>>, p: seq<Migration<D>>, v: int, t: int)
    requires p != []
    ensures IsOnlyPath(ms, p, v, t) <==>
            p[0].from == v && v < p[0].to && p[0] in ms && OnlyFrom(ms, p[0]) && IsOnlyPath(ms, p[1..], p[0].to, t)
  {
  }

  /** The loop returns `p` exactly when `p` is a path with no alternative at any of its steps. */
  lemma {:induction false} FollowIsExact<D>(ms: seq<Migration<D>>, v: int, t: int, p: seq<Migration<D>>)
    requires Upgrades(ms)
    ensures Follow(ms, v, t) == Some(p) <==> IsOnlyPath(ms, p, v, t)
    decreases |p|
  {
    if p != [] {
      var m, rest := p[0], p[1..];
      OnlyPathUnfolds(ms, p, v, t);
      CandidatesMembers(ms, v, m);
      FollowIsExact(ms, m.to, t, rest);
      if IsOnlyPath(ms, p, v, t) {
        ChainsClimb(p, v, t);
        assert p == [m] + rest;
      } else if Follow(ms, v, t) == Some(p) {
        FollowSplits(ms, v, t, p);
      }
    }
  }

  /** What the loop returned starts with the only candidate and goes on from there. */
  lemma FollowSplits<D>(ms: seq<Migration<D>>, v: int, t: int, p: seq<Migration<D>>)
    requires Upgrades(ms) && p != [] && Follow(ms, v, t) == Some(p)
    ensures Candidates(ms, v) == [p[0]] && v < p[0].to && Follow(ms, p[0].to, t) == Some(p[1..])
  {
  }

  /** A chain never goes down, and takes at most one migration per version it climbs. */
  lemma {:induction false} ChainsClimb<D>(p: seq<Migration<D>>, v: int, t: int)
    requires Chains(p, v, t)
    ensures v + |p| <= t
    ensures forall i :: 0 <= i < |p| ==> v <= p[i].from < p[i].to <= t
    ensures forall i, j :: 0 <= i < j < |p| ==> p[i].to <= p[j].from
  {
    if p != [] {
      ChainsClimb(p[1..], p[0].to, t);
      assert p == [p[0]] + p[1..];
    }
  }

  /** Under an unambiguous declaration any two paths between the same versions agree. */
  lemma {:induction false} OnlyPath<D>(ms: seq<Migration<D>>, v: int, t: int, p: seq<Migration<D>>,
                                       q: seq<Migration<D>>)
    requires IsPath(ms, p, v, t) && IsPath(ms, q, v, t)
    requires forall i :: 0 <= i < |p| ==> OnlyFrom(ms, p[i])
    ensures p == q
    decreases |p|
  {
    ChainsClimb(p, v, t);
    ChainsClimb(q, v, t);
    if p == [] || q == [] {
    } else {
      OnlyFromIsOnly(ms, p[0], q[0]);
      assert forall i :: 0 <= i < |p| - 1 ==> p[1..][i] == p[i + 1];
      assert forall i :: 0 <= i < |q| - 1 ==> q[1..][i] == q[i + 1];
      OnlyPath(ms, p[0].to, t, p[1..], q[1..]);
      assert p == [p[0]] + p[1..] && q == [q[0]] + q[1..];
    }
  }

  /** `at` places the plan inside the declared list, in declared order. */
  ghost predicate PlacedAt<D>(p: seq<Migration<D>>, ms: seq<Migration<D>>, at: seq<nat>) {
    && |at| == |p|
    && (forall i :: 0 <= i < |p| ==> at[i] < |ms| && ms[at[i]] == p[i])
    && (forall i, j :: 0 <= i < j < |p| ==> at[i] < at[j])
  }

  lemma {:induction false} PathIsSubsequence<D>(ms: seq<Migration<D>>, p: seq<Migration<D>>, v: int, t: int)
    returns (at: seq<nat>)
    requires Sorted(ms) && IsPath(ms, p, v, t)
    ensures PlacedAt(p, ms, at)
  {
    ChainsClimb(p, v, t);
    at := [];
    while |at| < |p|
      invariant |at| <= |p|
      invariant forall i :: 0 <= i < |at| ==> at[i] < |ms| && ms[at[i]] == p[i]
    {
      var k :| 0 <= k < |ms| && ms[k] == p[|at|];
      at := at + [k];
    }
    forall i, j | 0 <= i < j < |p| ensures at[i] < at[j] {
      assert ms[at[i]].from < ms[at[j]].from;
    }
  }

  /** Everything a caller may rely on when planning succeeds. */
  lemma PlanIsTheOnlyPath<D>(current: int, target: int, ms: seq<Migration<D>>, plan: seq<Migration<D>>)
    requires PlanOf(current, target, ms) == Planned(plan)
    ensures IsPath(ms, plan, current, target)
    ensures forall q :: IsPath(ms, q, current, target) ==> q == plan
    ensures |plan| <= target - current
    ensures exists at :: PlacedAt(plan, ms, at)
    ensures current < target ==> plan != []
  {
    OrderErrorIsExact(ms);
    FollowIsExact(ms, current, target, plan);
    ChainsClimb(plan, current, target);
    forall q | IsPath(ms, q, current, target) ensures q == plan {
      OnlyPath(ms, current, target, plan, q);
    }
    var at := PathIsSubsequence(ms, plan, current, target);
  }

  /** The code of every refusal to plan. */
  lemma RefusalCodes<D>(current: int, target: int, ms: seq<Migration<D>>)
    ensures OrderError(ms).Some? ==> PlanOf(current, target, ms) == NoPlan(OrderError(ms).value)
    ensures OrderError(ms).None? && current > target ==>
              PlanOf(current, target, ms) ==
              NoPlan(MigrationError("downgrade_unsupported", "Local schema downgrade is not supported."))
    ensures OrderError(ms).None? && current <= target && PlanOf(current, target, ms).NoPlan? ==>
              PlanOf(current, target, ms) ==
              NoPlan(MigrationError("migration_path_missing", "No unique migration path."))
    ensures PlanOf(current, target, ms).NoPlan? ==> PlanOf(current, target, ms).error.message != ""
  {
    ScanMessage(ms, {});
  }

  lemma {:induction false} ScanMessage<D>(ms: seq<Migration<D>>, seen: set<string>)
    ensures ScanError(ms, seen).Some? ==> ScanError(ms, seen).value.message != ""
  {
    if ms != [] {
      ScanMessage(ms[1..], seen + {ms[0].id});
    }
  }

  /** Planning fails exactly when the list is ill declared, the request is a downgrade, or no
      path is free of alternatives. */
  lemma PlanFailsExactly<D>(current: int, target: int, ms: seq<Migration<D>>)
    ensures PlanOf(current, target, ms).NoPlan? <==>
            || !WellDeclared(ms)
            || current > target
            || !exists p :: IsOnlyPath(ms, p, current, target)
  {
    OrderErrorIsExact(ms);
    if WellDeclared(ms) && current <= target {
      if p :| IsOnlyPath(ms, p, current, target) {
        FollowIsExact(ms, current, target, p);
      }
      if Follow(ms, current, target).Some? {
        FollowIsExact(ms, current, target, Follow(ms, current, target).value);
      }
    }
  }

  /** With distinct from-versions, planning fails exactly when there is no path at all. */
  lemma PlanFailsWithoutPath<D>(current: int, target: int, ms: seq<Migration<D>>)
    requires WellDeclared(ms) && current <= target
    requires forall i, j :: 0 <= i < j < |ms| ==> ms[i].from != ms[j].from
    ensures PlanOf(current, target, ms).NoPlan? <==> !exists p :: IsPath(ms, p, current, target)
  {
    PlanFailsExactly(current, target, ms);
    forall p: seq<Migration<D>> | IsPath(ms, p, current, target) ensures IsOnlyPath(ms, p, current, target) {
      forall i | 0 <= i < |p| ensures OnlyFrom(ms, p[i]) {
        DistinctIsOnly(ms, p[i]);
      }
    }
  }
}
