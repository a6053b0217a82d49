/**
 Which process the desktop shell trusts as its API runtime
 (desktop-shell/src-tauri/src/main.rs:340-474).

 `LineageReaches` is the bounded parent walk with its list of visited pids; `Reaches` is the
 plain ancestor specification without it. Path canonicalisation is an arbitrary function.
 */
module ProcessLineage {
  import opened Wrappers

  type Path = string

  datatype Process = Process(pid: nat, executable: Option<Path>, parent: Option<nat>, created: Option<nat>)

  /** `None` when the path cannot be resolved. */
  type Canon = Path -> Option<Path>

  const MAX_PROCESS_ANCESTRY_DEPTH: nat := 16
  const LAUNCH_CLOCK_TOLERANCE_100NS: nat := 20_000_000

  function Resolved(canon: Canon, path: Option<Path>): Option<Path> {
    match path
    case None => None
    case Some(p) => canon(p)
  }

  predicate SameIdentity(canon: Canon, expected: Process, actual: Process) {
    && expected.pid == actual.pid
    && expected.created.Some?
    && expected.created == actual.created
    && Resolved(canon, expected.executable) == Resolved(canon, actual.executable)
  }

  /** The first graph entry with this pid. */
  function Find(graph: seq<Process>, pid: nat): (r: Option<Process>)
    ensures r.Some? ==> r.value in graph && r.value.pid == pid
    ensures r.None? <==> forall p :: p in graph ==> p.pid != pid
  {
    if graph == [] then None
    else if graph[0].pid == pid then Some(graph[0])
    else Find(graph[1..], pid)
  }

  /** The entry reached by following first-match parent lookups `k` times. */
  function Ancestor(graph: seq<Process>, p: Process, k: nat): Option<Process>
    decreases k
  {
    if k == 0 then Some(p)
    else
      match Ancestor(graph, p, k - 1)
      case None => None
      case Some(a) => if a.parent.None? then None else Find(graph, a.parent.value)
  }

  /** Following parents from `p` first meets the target's pid after `k` steps, at that identity. */
  predicate FirstHit(canon: Canon, graph: seq<Process>, p: Process, target: Process, k: nat) {
    && k >= 1
    && Ancestor(graph, p, k).Some? && SameIdentity(canon, target, Ancestor(graph, p, k).value)
    && forall j :: 1 <= j < k ==> Ancestor(graph, p, j).Some? && Ancestor(graph, p, j).value.pid != target.pid
  }

  predicate Reaches(canon: Canon, graph: seq<Process>, p: Process, target: Process) {
    exists k: nat :: k <= MAX_PROCESS_ANCESTRY_DEPTH && FirstHit(canon, graph, p, target, k)
  }

  /** No pid occurs twice on the way from `p` to its `k`-th ancestor. */
  ghost predicate NoRepeat(graph: seq<Process>, p: Process, k: nat) {
    forall i, j {:trigger Ancestor(graph, p, i), Ancestor(graph, p, j)} :: 0 <= i < j <= k ==>
      Ancestor(graph, p, i).Some? && Ancestor(graph, p, j).Some? &&
      Ancestor(graph, p, i).value.pid != Ancestor(graph, p, j).value.pid
  }

  lemma {:induction false} AncestorStops(graph: seq<Process>, p: Process, i: nat, j: nat)
    requires i <= j && Ancestor(graph, p, i).None?
    ensures Ancestor(graph, p, j).None?
    decreases j
  {
    if i < j { AncestorStops(graph, p, i, j - 1); }
  }

  lemma {:induction false} AncestorAdd(graph: seq<Process>, p: Process, a: Process, i: nat, m: nat)
    requires Ancestor(graph, p, i) == Some(a)
    ensures Ancestor(graph, p, i + m) == Ancestor(graph, a, m)
    decreases m
  {
    if m > 0 {
      AncestorAdd(graph, p, a, i, m - 1);
    }
  }

  lemma AncestorIsFirst(graph: seq<Process>, p: Process, k: nat)
    requires Find(graph, p.pid) == Some(p) && Ancestor(graph, p, k).Some?
    ensures Find(graph, Ancestor(graph, p, k).value.pid) == Ancestor(graph, p, k)
  {
  }

  lemma SamePidSameFuture(graph: seq<Process>, p: Process, i: nat, j: nat, m: nat)
    requires Find(graph, p.pid) == Some(p)
    requires Ancestor(graph, p, i).Some? && Ancestor(graph, p, j).Some?
    requires Ancestor(graph, p, i).value.pid == Ancestor(graph, p, j).value.pid
    ensures Ancestor(graph, p, i + m) == Ancestor(graph, p, j + m)
  {
    AncestorIsFirst(graph, p, i);
    AncestorIsFirst(graph, p, j);
    AncestorAdd(graph, p, Ancestor(graph, p, i).value, i, m);
    AncestorAdd(graph, p, Ancestor(graph, p, i).value, j, m);
  }

  /** A repeated pid means the chain has entered a cycle, so it would have met the target before:
      the visited list can never be what stops a walk that would have reached its target. */
  lemma HitWithoutRepeat(canon: Canon, graph: seq<Process>, p: Process, target: Process, k: nat)
    requires Find(graph, p.pid) == Some(p) && p.pid != target.pid
    requires FirstHit(canon, graph, p, target, k)
    ensures NoRepeat(graph, p, k)
  {
    forall i: nat, j: nat | i < j <= k
      ensures Ancestor(graph, p, i).Some? && Ancestor(graph, p, j).Some?
      ensures Ancestor(graph, p, i).value.pid != Ancestor(graph, p, j).value.pid
    {
      var a, b := Ancestor(graph, p, i).value, Ancestor(graph, p, j).value;
      if a.pid == b.pid {
        SamePidSameFuture(graph, p, i, j, k - j);
      }
    }
  }

  lemma FirstHitIsUnique(canon: Canon, graph: seq<Process>, p: Process, target: Process, j: nat, k: nat)
    requires FirstHit(canon, graph, p, target, j) && FirstHit(canon, graph, p, target, k)
    ensures j == k
  {
  }

  /** What the walk with its visited list looks for. */
  ghost predicate CleanHit(canon: Canon, graph: seq<Process>, p: Process, target: Process) {
    exists k: nat :: k <= MAX_PROCESS_ANCESTRY_DEPTH && FirstHit(canon, graph, p, target, k) && NoRepeat(graph, p, k)
  }

  /** The pids of `p` and its first `step` ancestors, all different, none but `p`'s the target's. */
  ghost predicate Walked(graph: seq<Process>, p: Process, target: Process, step: nat, visited: seq<nat>) {
    && |visited| == step + 1
    && (forall j :: 0 <= j <= step ==> Ancestor(graph, p, j).Some? && visited[j] == Ancestor(graph, p, j).value.pid)
    && (forall i, j :: 0 <= i < j <= step ==> visited[i] != visited[j])
    && (forall j :: 1 <= j <= step ==> visited[j] != target.pid)
  }

  /** No clean hit when the next parent is missing or already visited, or the steps are used up. */
  lemma DeadEnd(canon: Canon, graph: seq<Process>, p: Process, target: Process, step: nat, visited: seq<nat>)
    requires Walked(graph, p, target, step, visited)
    requires || step >= MAX_PROCESS_ANCESTRY_DEPTH
             || Ancestor(graph, p, step + 1).None?
             || Ancestor(graph, p, step + 1).value.pid in visited
    ensures !CleanHit(canon, graph, p, target)
  {
  }

  /** When the next parent has the target's pid, its identity decides. */
  lemma HitNow(canon: Canon, graph: seq<Process>, p: Process, target: Process, step: nat, visited: seq<nat>)
    requires Walked(graph, p, target, step, visited) && step < MAX_PROCESS_ANCESTRY_DEPTH
    requires Ancestor(graph, p, step + 1).Some? && Ancestor(graph, p, step + 1).value.pid == target.pid
    requires target.pid !in visited
    ensures CleanHit(canon, graph, p, target) <==> SameIdentity(canon, target, Ancestor(graph, p, step + 1).value)
  {
    forall k: nat | FirstHit(canon, graph, p, target, k) ensures k == step + 1 {
      assert Ancestor(graph, p, k).value.pid == target.pid;
      assert k > step;
    }
    if SameIdentity(canon, target, Ancestor(graph, p, step + 1).value) {
      assert FirstHit(canon, graph, p, target, step + 1) by {
        assert forall j :: 1 <= j <= step ==>
             Ancestor(graph, p, j).Some? && Ancestor(graph, p, j).value.pid == visited[j];
      }
      assert NoRepeat(graph, p, step + 1);
    }
  }

  ghost function ResolvedExecutable(canon: Canon, p: Process): Option<Path> {
    if p.executable.Some? then canon(p.executable.value) else None
  }

  /** The chain of parents first meets the target's pid within 16 steps, and the process found there
      was created when the target was, from the same executable. */
  ghost predicate DescendsFrom(canon: Canon, graph: seq<Process>, p: Process, target: Process) {
    exists k: nat :: 1 <= k <= 16 && MeetsAt(canon, graph, p, target, k)
  }

  ghost predicate MeetsAt(canon: Canon, graph: seq<Process>, p: Process, target: Process, k: nat) {
    && Ancestor(graph, p, k).Some?
    && var a := Ancestor(graph, p, k).value;
    && a.pid == target.pid && a.created.Some? && a.created == target.created
    && ResolvedExecutable(canon, a) == ResolvedExecutable(canon, target)
    && forall j :: 1 <= j < k ==> Ancestor(graph, p, j).Some? && Ancestor(graph, p, j).value.pid != target.pid
  }

  lemma DescentIsReach(canon: Canon, graph: seq<Process>, p: Process, target: Process)
    ensures DescendsFrom(canon, graph, p, target) <==> Reaches(canon, graph, p, target)
  {
    forall k: nat
      ensures k >= 1 && MeetsAt(canon, graph, p, target, k) <==> FirstHit(canon, graph, p, target, k)
    {
    }
  }

  method LineageReaches(canon: Canon, candidate: Process, target: Process, graph: seq<Process>) returns (r: bool)
    ensures r <==> CleanHit(canon, graph, candidate, target)
    ensures Find(graph, candidate.pid) == Some(candidate) ==>
              (r <==> candidate.pid != target.pid && Reaches(canon, graph, candidate, target))
    ensures Find(graph, candidate.pid) == Some(candidate) ==>
              (r <==> candidate.pid != target.pid && DescendsFrom(canon, graph, candidate, target))
  {
    DescentIsReach(canon, graph, candidate, target);
    VisitedListIsIrrelevant(canon, candidate, target, graph);
    var current := candidate;
    var visited := [current.pid];
    for step := 0 to MAX_PROCESS_ANCESTRY_DEPTH
      invariant Walked(graph, candidate, target, step, visited)
      invariant Ancestor(graph, candidate, step) == Some(current)
    {
      if current.parent.None? {
        DeadEnd(canon, graph, candidate, target, step, visited);
        return false;
      }
      var parentPid := current.parent.value;
      var parent := Find(graph, parentPid);
      assert Ancestor(graph, candidate, step + 1) == parent;
      if parentPid in visited {
        DeadEnd(canon, graph, candidate, target, step, visited);
        return false;
      }
      if parentPid == target.pid {
        if parent.None? {
          DeadEnd(canon, graph, candidate, target, step, visited);
          return false;
        }
        HitNow(canon, graph, candidate, target, step, visited);
        return SameIdentity(canon, target, parent.value);
      }
      if parent.None? {
        DeadEnd(canon, graph, candidate, target, step, visited);
        return false;
      }
      current := parent.value;
      visited := visited + [current.pid];
    }
    DeadEnd(canon, graph, candidate, target, MAX_PROCESS_ANCESTRY_DEPTH, visited);
    return false;
  }

  /** For the first graph entry with its pid, the visited list only adds that the candidate is
      not the target itself, even on cyclic graphs. */
  lemma VisitedListIsIrrelevant(canon: Canon, candidate: Process, target: Process, graph: seq<Process>)
    ensures Find(graph, candidate.pid) == Some(candidate) ==>
              (CleanHit(canon, graph, candidate, target)
               <==> candidate.pid != target.pid && Reaches(canon, graph, candidate, target))
  {
    if Find(graph, candidate.pid) == Some(candidate) {
      forall k: nat | FirstHit(canon, graph, candidate, target, k)
        ensures NoRepeat(graph, candidate, k) <==> candidate.pid != target.pid
      {
        if candidate.pid != target.pid {
          HitWithoutRepeat(canon, graph, candidate, target, k);
        } else {
          assert Ancestor(graph, candidate, 0).value.pid == Ancestor(graph, candidate, k).value.pid;
        }
      }
    }
  }

  /** For an arbitrary record the visited list makes a walk that would hit its target fail exactly
      when the walk passes an entry with the record's own pid. */
  lemma VisitedListExactly(canon: Canon, graph: seq<Process>, p: Process, target: Process, k: nat)
    requires FirstHit(canon, graph, p, target, k)
    ensures NoRepeat(graph, p, k) <==> PassesNoNamesake(graph, p, k)
  {
    assert forall j :: 1 <= j <= k ==> Ancestor(graph, p, j).Some?;
    if NoRepeat(graph, p, k) {
      forall j | 1 <= j <= k ensures Ancestor(graph, p, j).Some? && Ancestor(graph, p, j).value.pid != p.pid {
        assert Ancestor(graph, p, 0) == Some(p);
      }
    }
    if PassesNoNamesake(graph, p, k) {
      forall i: nat, j: nat | i < j <= k
        ensures Ancestor(graph, p, i).Some? && Ancestor(graph, p, j).Some?
        ensures Ancestor(graph, p, i).value.pid != Ancestor(graph, p, j).value.pid
      {
        if i > 0 {
          LaterPidsDiffer(canon, graph, p, target, k, i, j);
        }
      }
    }
  }

  predicate PassesNoNamesake(graph: seq<Process>, p: Process, k: nat) {
    forall j :: 1 <= j <= k ==> Ancestor(graph, p, j).Some? && Ancestor(graph, p, j).value.pid != p.pid
  }

  lemma LaterPidsDiffer(canon: Canon, graph: seq<Process>, p: Process, target: Process, k: nat, i: nat, j: nat)
    requires FirstHit(canon, graph, p, target, k) && 0 < i < j <= k
    ensures Ancestor(graph, p, i).Some? && Ancestor(graph, p, j).Some?
    ensures Ancestor(graph, p, i).value.pid != Ancestor(graph, p, j).value.pid
  {
    var a, b := Ancestor(graph, p, i).value, Ancestor(graph, p, j).value;
    AncestorIsFound(graph, p, i);
    AncestorIsFound(graph, p, j);
    if a.pid == b.pid {
      AncestorAdd(graph, p, a, i, k - j);
      AncestorAdd(graph, p, b, j, k - j);
    }
  }

  lemma AncestorIsFound(graph: seq<Process>, p: Process, k: nat)
    requires k > 0 && Ancestor(graph, p, k).Some?
    ensures Find(graph, Ancestor(graph, p, k).value.pid) == Ancestor(graph, p, k)
  {
  }

  /** Such a record exists; the trust decision never passes one, because it looks its candidate up in
      the graph by pid. The walk would pass the first entry of its own pid on the way to the target. */
  lemma VisitedListMattersForShadowedRecord(canon: Canon)
    ensures var target := Process(1, None, None, Some(7));
            var first := Process(2, None, Some(1), Some(8));
            var shadowed := Process(2, None, Some(2), Some(9));
            var graph := [target, first, shadowed];
            Reaches(canon, graph, shadowed, target) && !CleanHit(canon, graph, shadowed, target)
  {
    var target := Process(1, None, None, Some(7));
    var first := Process(2, None, Some(1), Some(8));
    var shadowed := Process(2, None, Some(2), Some(9));
    var graph := [target, first, shadowed];
    assert Find(graph, 1) == Some(target);
    assert graph[1..] == [first, shadowed];
    assert Find(graph, 2) == Some(first);
    assert Ancestor(graph, shadowed, 0) == Some(shadowed);
    assert Ancestor(graph, shadowed, 1) == Some(first);
    assert Ancestor(graph, shadowed, 2) == Some(target);
    assert FirstHit(canon, graph, shadowed, target, 2);
    forall k: nat | FirstHit(canon, graph, shadowed, target, k) ensures !NoRepeat(graph, shadowed, k) {
      FirstHitIsUnique(canon, graph, shadowed, target, 2, k);
    }
  }

  // ---------------------------------------------------------------- the trust decision

  datatype Mode = SameProcess | SpawnDescendant | TauriHandoff

  datatype Trusted = Trusted(process: Process, instanceId: string, mode: Mode)

  datatype Question =
    Question(spawnRoot: Process, tauri: Process, candidatePid: nat, executable: Path,
             expectedInstance: string, observedInstance: string, launchStartedAt: nat, readinessDeadline: nat)

  predicate IsExact(canon: Canon, p: Process, expected: Path) {
    Resolved(canon, p.executable).Some? && Resolved(canon, p.executable) == canon(expected)
  }

  function SaturatingSub(a: nat, b: nat): nat {
    if a < b then 0 else a - b
  }

  predicate InLaunchWindow(created: Option<nat>, startedAt: nat, deadline: nat) {
    created.Some? && SaturatingSub(startedAt, LAUNCH_CLOCK_TOLERANCE_100NS) <= created.value <= deadline
  }

  /** The process that may be trusted at all. */
  predicate Admissible(canon: Canon, q: Question, candidate: Process) {
    && q.observedInstance == q.expectedInstance
    && IsExact(canon, candidate, q.executable)
    && InLaunchWindow(candidate.created, q.launchStartedAt, q.readinessDeadline)
  }

  /** The first mode that applies. */
  function OwnershipMode(canon: Canon, q: Question, candidate: Process, graph: seq<Process>): Option<Mode> {
    if candidate.pid == q.spawnRoot.pid then
      if SameIdentity(canon, q.spawnRoot, candidate) then Some(SameProcess) else None
    else if Reaches(canon, graph, candidate, q.spawnRoot) then Some(SpawnDescendant)
    else if candidate.pid != q.tauri.pid && Reaches(canon, graph, candidate, q.tauri) then Some(TauriHandoff)
    else None
  }

  function Trust(canon: Canon, q: Question, graph: seq<Process>): Option<Trusted> {
    match Find(graph, q.candidatePid)
    case None => None
    case Some(candidate) =>
      if !Admissible(canon, q, candidate) then None
      else
        match OwnershipMode(canon, q, candidate, graph)
        case None => None
        case Some(mode) => Some(Trusted(candidate, q.expectedInstance, mode))
  }

  // ---------------------------------------------------------------- who deserves trust

  /** What a candidate must be to be trusted in a mode. */
  ghost predicate Deserves(canon: Canon, q: Question, graph: seq<Process>, p: Process, mode: Mode) {
    && q.observedInstance == q.expectedInstance
    && ResolvedExecutable(canon, p).Some? && ResolvedExecutable(canon, p) == canon(q.executable)
    && p.created.Some? && p.created.value <= q.readinessDeadline
    && q.launchStartedAt <= p.created.value + 20_000_000
    && match mode
       case SameProcess =>
         && p.pid == q.spawnRoot.pid && p.created == q.spawnRoot.created
         && ResolvedExecutable(canon, p) == ResolvedExecutable(canon, q.spawnRoot)
       case SpawnDescendant => p.pid != q.spawnRoot.pid && DescendsFrom(canon, graph, p, q.spawnRoot)
       case TauriHandoff =>
         && p.pid != q.spawnRoot.pid && !DescendsFrom(canon, graph, p, q.spawnRoot)
         && p.pid != q.tauri.pid && DescendsFrom(canon, graph, p, q.tauri)
  }

  /** Trust is given in a mode if and only if the first entry with the candidate's pid deserves it. */
  lemma TrustExactly(canon: Canon, q: Question, graph: seq<Process>, mode: Mode)
    ensures Trust(canon, q, graph).Some? && Trust(canon, q, graph).value.mode == mode <==>
            && Find(graph, q.candidatePid).Some?
            && Deserves(canon, q, graph, Find(graph, q.candidatePid).value, mode)
    ensures Trust(canon, q, graph).Some? ==>
              && Some(Trust(canon, q, graph).value.process) == Find(graph, q.candidatePid)
              && Trust(canon, q, graph).value.instanceId == q.expectedInstance
  {
    if Find(graph, q.candidatePid).Some? {
      DescentIsReach(canon, graph, Find(graph, q.candidatePid).value, q.spawnRoot);
      DescentIsReach(canon, graph, Find(graph, q.candidatePid).value, q.tauri);
    }
  }

  method TrustedRuntimeFromGraph(canon: Canon, q: Question, graph: seq<Process>) returns (r: Option<Trusted>)
    ensures r == Trust(canon, q, graph)
    ensures forall mode ::
              r.Some? && r.value.mode == mode <==>
              && Find(graph, q.candidatePid).Some?
              && Deserves(canon, q, graph, Find(graph, q.candidatePid).value, mode)
    ensures r.Some? ==> Some(r.value.process) == Find(graph, q.candidatePid) && r.value.instanceId == q.expectedInstance
  {
    forall mode {
      TrustExactly(canon, q, graph, mode);
    }
    if q.observedInstance != q.expectedInstance {
      return None;
    }
    var found := Find(graph, q.candidatePid);
    if found.None? {
      return None;
    }
    var candidate := found.value;
    if !IsExact(canon, candidate, q.executable)
       || !InLaunchWindow(candidate.created, q.launchStartedAt, q.readinessDeadline) {
      return None;
    }
    if candidate.pid == q.spawnRoot.pid {
      return if SameIdentity(canon, q.spawnRoot, candidate)
             then Some(Trusted(candidate, q.expectedInstance, SameProcess)) else None;
    }
    var descends := LineageReaches(canon, candidate, q.spawnRoot, graph);
    if descends {
      return Some(Trusted(candidate, q.expectedInstance, SpawnDescendant));
    }
    var handedOff := LineageReaches(canon, candidate, q.tauri, graph);
    if handedOff {
      return Some(Trusted(candidate, q.expectedInstance, TauriHandoff));
    }
    return None;
  }

  /** What a trusted result guarantees, mode by mode. */
  lemma TrustMeans(canon: Canon, q: Question, graph: seq<Process>)
    requires Trust(canon, q, graph).Some?
    ensures var t := Trust(canon, q, graph).value;
            && t.instanceId == q.expectedInstance == q.observedInstance
            && t.process in graph && t.process.pid == q.candidatePid
            && Resolved(canon, t.process.executable) == canon(q.executable) && canon(q.executable).Some?
            && t.process.created.Some?
            && t.process.created.value <= q.readinessDeadline
            && t.process.created.value + LAUNCH_CLOCK_TOLERANCE_100NS >= q.launchStartedAt
            && match t.mode
               case SameProcess => t.process.created == q.spawnRoot.created && t.process.pid == q.spawnRoot.pid
               case SpawnDescendant =>
                 exists k: nat :: 1 <= k <= 16 && Ancestor(graph, t.process, k).Some?
                                  && SameIdentity(canon, q.spawnRoot, Ancestor(graph, t.process, k).value)
               case TauriHandoff =>
                 && !Reaches(canon, graph, t.process, q.spawnRoot)
                 && exists k: nat :: 1 <= k <= 16 && Ancestor(graph, t.process, k).Some?
                                     && SameIdentity(canon, q.tauri, Ancestor(graph, t.process, k).value)
  {
  }

  /** A process that reuses the spawn root's pid is trusted in no mode. */
  lemma ReusedPidIsNeverTrusted(canon: Canon, q: Question, graph: seq<Process>)
    requires q.candidatePid == q.spawnRoot.pid
    requires Find(graph, q.candidatePid).Some? ==> Find(graph, q.candidatePid).value.created != q.spawnRoot.created
    ensures Trust(canon, q, graph).None?
  {
  }

  lemma {:induction false} FindIsStable(graph: seq<Process>, more: seq<Process>, pid: nat)
    requires Find(graph, pid).Some?
    ensures Find(graph + more, pid) == Find(graph, pid)
  {
    if graph[0].pid != pid {
      FindIsStable(graph[1..], more, pid);
      assert (graph + more)[1..] == graph[1..] + more;
    }
  }

  lemma {:induction false} AncestorIsStable(graph: seq<Process>, more: seq<Process>, p: Process, k: nat)
    requires Ancestor(graph, p, k).Some?
    ensures Ancestor(graph + more, p, k) == Ancestor(graph, p, k)
    decreases k
  {
    if k > 0 {
      AncestorIsStable(graph, more, p, k - 1);
      FindIsStable(graph, more, Ancestor(graph, p, k - 1).value.parent.value);
    }
  }

  lemma ReachesIsStable(canon: Canon, graph: seq<Process>, more: seq<Process>, p: Process, target: Process)
    requires Reaches(canon, graph, p, target)
    ensures Reaches(canon, graph + more, p, target)
  {
    var k: nat :| k <= MAX_PROCESS_ANCESTRY_DEPTH && FirstHit(canon, graph, p, target, k);
    forall j: nat | 1 <= j <= k ensures Ancestor(graph + more, p, j) == Ancestor(graph, p, j) {
      AncestorIsStable(graph, more, p, j);
    }
    assert FirstHit(canon, graph + more, p, target, k);
  }

  /** More process information never withdraws trust; only a handoff may turn into a descent. */
  lemma AppendingKeepsTrust(canon: Canon, q: Question, graph: seq<Process>, more: seq<Process>)
    requires Trust(canon, q, graph).Some?
    ensures Trust(canon, q, graph + more).Some?
    ensures var before, after := Trust(canon, q, graph).value, Trust(canon, q, graph + more).value;
            && after.process == before.process
            && (after.mode == before.mode || (before.mode == TauriHandoff && after.mode == SpawnDescendant))
  {
    FindIsStable(graph, more, q.candidatePid);
    var p := Trust(canon, q, graph).value.process;
    if Reaches(canon, graph, p, q.spawnRoot) {
      ReachesIsStable(canon, graph, more, p, q.spawnRoot);
    }
    if Reaches(canon, graph, p, q.tauri) {
      ReachesIsStable(canon, graph, more, p, q.tauri);
    }
  }
}
