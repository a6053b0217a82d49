/**
 Publishing the runtime manifest under a lock file (apps/api/app/runtime/discovery.py:75-136,
 apps/api/app/run.py:50-56), as an interleaving of any number of publishers.

 Each publisher is a program counter; one step performs one file-system operation of one of them.
 The lock is a file with a creation time. A manifest may be withdrawn without the lock at any
 moment. The one assumption about time is `Timely`: nobody stays in the critical section for more
 than 30 seconds, which also excludes dying inside it.
 */
module RuntimeManifest {
  import opened Wrappers

  const PROTOCOL_VERSION := 1
  const LOCK_SECONDS := 30

  datatype Manifest = Manifest(protocol: int, instance: string, pid: int, ready: bool)

  /** What the operating system says about the process and the port of a manifest. */
  predicate Stale(m: Manifest, alive: bool, reachable: bool) {
    m.protocol != PROTOCOL_VERSION || !alive || (m.ready && !reachable)
  }

  datatype Lock = Lock(created: int, owner: int)

  /** The next operation of a publisher; `since` is when it entered the critical section. */
  datatype Phase =
    | Trying
    | Collided
    | Timed(asked: int)
    | TakingOver
    | Reopening
    | Entered(since: int)
    | HasRead(since: int, seen: Option<Manifest>, readable: bool)
    | Cleared(since: int, seen: Option<Manifest>, readable: bool, alive: bool, reachable: bool)
    | Leaving(since: int)
    | Unlinking(since: int)
    | Ended

  predicate Inside(phase: Phase) {
    phase.Entered? || phase.HasRead? || phase.Cleared? || phase.Leaving? || phase.Unlinking?
  }

  datatype Publisher = Publisher(manifest: Manifest, phase: Phase)

  /** One replacement of the manifest: what its writer had read in its critical section, and what the
      operating system told it about that. */
  datatype Publication =
    Publication(manifest: Manifest, seen: Option<Manifest>, readable: bool, alive: bool, reachable: bool,
                withdrawn: bool)

  /** `withdrawn` holds from a withdrawal to the next publication; `log` is never read by anyone. */
  datatype State =
    State(now: int, lock: Option<Lock>, file: Option<Manifest>, withdrawn: bool, publishers: map<int, Publisher>,
          initial: Option<Manifest>, log: seq<Publication>)

  /** `works` is whether an operation that may fail by itself succeeds. */
  datatype Step =
    | Tick(seconds: nat)
    | Begin(who: int, manifest: Manifest)
    | Advance(who: int, alive: bool, reachable: bool, works: bool)
    | Withdraw

  function At(s: State, who: int, phase: Phase): State
    requires who in s.publishers
  {
    s.(publishers := s.publishers[who := s.publishers[who].(phase := phase)])
  }

  /** Opening the lock file exclusively. */
  function Opened(s: State, who: int, otherwise: Phase): State
    requires who in s.publishers
  {
    if s.lock.Some? then At(s, who, otherwise) else At(s, who, Entered(s.now)).(lock := Some(Lock(s.now, who)))
  }

  function Published(s: State, who: int, phase: Phase): State
    requires who in s.publishers && phase.Cleared?
  {
    var m := s.publishers[who].manifest;
    At(s, who, Leaving(phase.since)).(
      file := Some(m), withdrawn := false,
      log := s.log + [Publication(m, phase.seen, phase.readable, phase.alive, phase.reachable, s.withdrawn)])
  }

  /** The next operation of one publisher. */
  function Advanced(s: State, who: int, alive: bool, reachable: bool, works: bool): State
    requires who in s.publishers
  {
    var self := s.publishers[who];
    match self.phase
    case Trying => Opened(s, who, Collided)
    case Collided => At(s, who, Timed(s.now))
    case Timed(asked) =>
      At(s, who, if s.lock.Some? && asked - s.lock.value.created > LOCK_SECONDS then TakingOver else Ended)
    case TakingOver => if s.lock.None? then At(s, who, Ended) else At(s, who, Reopening).(lock := None)
    case Reopening => Opened(s, who, Ended)
    case Entered(since) => At(s, who, HasRead(since, if works then s.file else None, works))
    case HasRead(since, seen, readable) =>
      var stale := seen.Some? && Stale(seen.value, alive, reachable);
      At(s, who, if seen.Some? && !stale && seen.value.instance != self.manifest.instance then Leaving(since)
                 else Cleared(since, seen, readable, alive, reachable))
    case Cleared(since, _, _, _, _) => if works then Published(s, who, self.phase) else At(s, who, Leaving(since))
    case Leaving(since) => At(s, who, if s.lock.Some? then Unlinking(since) else Ended)
    case Unlinking(since) => At(s, who, Ended).(lock := None)
    case Ended => s
  }

  function Apply(s: State, step: Step): State {
    match step
    case Tick(seconds) => s.(now := s.now + seconds)
    case Begin(who, m) => if who in s.publishers then s else s.(publishers := s.publishers[who := Publisher(m, Trying)])
    case Advance(who, alive, reachable, works) =>
      if who in s.publishers then Advanced(s, who, alive, reachable, works) else s
    case Withdraw => s.(file := None, withdrawn := true)
  }

  function Run(s: State, steps: seq<Step>): State
    decreases |steps|
  {
    if steps == [] then s else Run(Apply(s, steps[0]), steps[1..])
  }

  // ---------------------------------------------------------------- what every timely run keeps

  /** Nobody has been in the critical section for more than 30 seconds. */
  ghost predicate Timely(s: State) {
    forall p {:trigger s.publishers[p]} :: p in s.publishers && Inside(s.publishers[p].phase) ==>
      s.now - s.publishers[p].phase.since <= 30
  }

  ghost predicate TimelyRun(s: State, steps: seq<Step>)
    decreases |steps|
  {
    Timely(s) && (steps != [] ==> TimelyRun(Apply(s, steps[0]), steps[1..]))
  }

  function Latest(s: State): Option<Manifest> {
    Predecessor(s.initial, s.log, |s.log|)
  }

  /** What may be read as the manifest: the latest one, or nothing once it is withdrawn. */
  predicate Readable(s: State, seen: Option<Manifest>) {
    seen == Latest(s) || (seen.None? && s.withdrawn)
  }

  /** One publisher: in the critical section it holds the lock, elsewhere it never takes it over. */
  ghost predicate Consistent(s: State, who: int)
    requires who in s.publishers
  {
    var phase := s.publishers[who].phase;
    && !phase.TakingOver? && !phase.Reopening?
    && (phase.Timed? ==> phase.asked <= s.now)
    && (Inside(phase) ==> s.lock == Some(Lock(phase.since, who)))
    && (phase.HasRead? || phase.Cleared? ==> Readable(s, phase.seen) || (phase.seen.None? && !phase.readable))
    && (phase.Cleared? && phase.seen.Some? ==>
          Replaceable(phase.seen.value, phase.alive, phase.reachable, s.publishers[who].manifest.instance))
  }

  /** A manifest another instance may replace: of a foreign protocol, of a dead process, or of one that
      claims to be ready and is not reachable. Its own instance always may. */
  ghost predicate Replaceable(m: Manifest, alive: bool, reachable: bool, instance: string) {
    m.instance == instance || m.protocol != 1 || !alive || (m.ready && !reachable)
  }

  /** A publication was entitled to replace `previous`. */
  ghost predicate Entitled(previous: Option<Manifest>, next: Publication) {
    || previous.None?
    || (next.seen.None? && (next.withdrawn || !next.readable))
    || (next.seen == previous && Replaceable(previous.value, next.alive, next.reachable, next.manifest.instance))
  }

  function Predecessor(initial: Option<Manifest>, log: seq<Publication>, i: nat): Option<Manifest>
    requires i <= |log|
  {
    if i == 0 then initial else Some(log[i - 1].manifest)
  }

  ghost predicate Succession(initial: Option<Manifest>, log: seq<Publication>) {
    forall i {:trigger Succeeds(initial, log, i)} :: 0 <= i < |log| ==> Succeeds(initial, log, i)
  }

  ghost predicate Succeeds(initial: Option<Manifest>, log: seq<Publication>, i: nat)
    requires i < |log|
  {
    Entitled(Predecessor(initial, log, i), log[i])
  }

  ghost predicate Invariant(s: State) {
    && (forall p :: p in s.publishers ==> Consistent(s, p))
    && (s.lock.Some? ==> s.lock.value.owner in s.publishers && Inside(s.publishers[s.lock.value.owner].phase))
    && Readable(s, s.file)
    && Succession(s.initial, s.log)
  }

  /** A step that changes nothing but one program counter. */
  lemma AtKeepsInvariant(s: State, who: int, phase: Phase)
    requires Invariant(s) && who in s.publishers && Consistent(At(s, who, phase), who)
    requires Inside(s.publishers[who].phase) ==> Inside(phase)
    ensures Invariant(At(s, who, phase))
  {
  }

  lemma OpenKeepsInvariant(s: State, who: int)
    requires Invariant(s) && who in s.publishers && s.lock.None?
    ensures Invariant(At(s, who, Entered(s.now)).(lock := Some(Lock(s.now, who))))
  {
  }

  lemma UnlinkKeepsInvariant(s: State, who: int)
    requires Invariant(s) && who in s.publishers && Inside(s.publishers[who].phase)
    ensures Invariant(At(s, who, Ended).(lock := None))
  {
  }

  lemma PublishKeepsInvariant(s: State, who: int, phase: Phase)
    requires Invariant(s) && who in s.publishers && s.publishers[who].phase == phase && phase.Cleared?
    ensures Invariant(Published(s, who, phase))
  {
    var now := Published(s, who, phase);
    assert Consistent(s, who);
    forall p | p in now.publishers ensures Consistent(now, p) {
      assert Consistent(s, p);
    }
    SuccessionGrows(s.initial, s.log, now.log[|s.log|]);
  }

  lemma SuccessionGrows(initial: Option<Manifest>, log: seq<Publication>, entry: Publication)
    requires Succession(initial, log) && Entitled(Predecessor(initial, log, |log|), entry)
    ensures Succession(initial, log + [entry])
  {
    var grown := log + [entry];
    forall i | 0 <= i < |grown| ensures Succeeds(initial, grown, i) {
      assert Predecessor(initial, grown, i) == Predecessor(initial, log, i);
      assert i < |log| ==> Succeeds(initial, log, i) && grown[i] == log[i];
    }
  }

  lemma WithdrawKeepsInvariant(s: State)
    requires Invariant(s)
    ensures Invariant(s.(file := None, withdrawn := true))
  {
  }

  lemma TickOrBeginKeepsInvariant(s: State, step: Step)
    requires Invariant(s) && (step.Tick? || step.Begin?)
    ensures Invariant(Apply(s, step))
  {
  }

  /** No publisher ever finds a lock it may take over: its owner entered at most 30 seconds ago. */
  lemma NoTakeover(s: State, who: int)
    requires Invariant(s) && Timely(s) && who in s.publishers && s.publishers[who].phase.Timed? && s.lock.Some?
    ensures s.publishers[who].phase.asked - s.lock.value.created <= 30
  {
  }

  lemma AdvanceKeepsInvariant(s: State, who: int, alive: bool, reachable: bool, works: bool)
    requires Invariant(s) && Timely(s) && who in s.publishers
    ensures Invariant(Advanced(s, who, alive, reachable, works))
  {
    var phase := s.publishers[who].phase;
    assert Consistent(s, who);
    match phase
    case Trying =>
      if s.lock.Some? { AtKeepsInvariant(s, who, Collided); } else { OpenKeepsInvariant(s, who); }
    case Collided => AtKeepsInvariant(s, who, Timed(s.now));
    case Timed(_) =>
      if s.lock.Some? { NoTakeover(s, who); }
      AtKeepsInvariant(s, who, Ended);
    case Entered(since) => AtKeepsInvariant(s, who, HasRead(since, if works then s.file else None, works));
    case HasRead(since, seen, readable) =>
      var stale := seen.Some? && Stale(seen.value, alive, reachable);
      if seen.Some? && !stale && seen.value.instance != s.publishers[who].manifest.instance {
        AtKeepsInvariant(s, who, Leaving(since));
      } else {
        AtKeepsInvariant(s, who, Cleared(since, seen, readable, alive, reachable));
      }
    case Cleared(since, _, _, _, _) =>
      if works { PublishKeepsInvariant(s, who, phase); } else { AtKeepsInvariant(s, who, Leaving(since)); }
    case Leaving(since) => AtKeepsInvariant(s, who, Unlinking(since));
    case Unlinking(_) => UnlinkKeepsInvariant(s, who);
    case _ =>
  }

  lemma StepKeepsInvariant(s: State, step: Step)
    requires Invariant(s) && Timely(s)
    ensures Invariant(Apply(s, step))
  {
    match step
    case Advance(who, alive, reachable, works) =>
      if who in s.publishers { AdvanceKeepsInvariant(s, who, alive, reachable, works); }
    case Withdraw => WithdrawKeepsInvariant(s);
    case _ => TickOrBeginKeepsInvariant(s, step);
  }

  /** Every state of a timely run satisfies the invariant. */
  lemma {:induction false} RunKeepsInvariant(s: State, steps: seq<Step>)
    requires Invariant(s) && TimelyRun(s, steps)
    ensures Invariant(Run(s, steps))
    decreases |steps|
  {
    if steps != [] {
      StepKeepsInvariant(s, steps[0]);
      RunKeepsInvariant(Apply(s, steps[0]), steps[1..]);
    }
  }

  // ---------------------------------------------------------------- who owns the manifest

  ghost predicate AtMostOneInside(s: State) {
    forall p, q {:trigger s.publishers[p], s.publishers[q]} ::
      (p in s.publishers && q in s.publishers
       && Inside(s.publishers[p].phase) && Inside(s.publishers[q].phase)) ==> p == q
  }

  predicate Starting(s: State) {
    s.lock.None? && s.publishers == map[] && s.log == [] && (s.file == s.initial || (s.file.None? && s.withdrawn))
  }

  /**
   For any number of publishers in any order: each manifest that replaces another shares its
   instance id, or its writer had judged that very manifest stale in its own critical section, or
   the earlier manifest was withdrawn or could not be read; and never are two publishers in the
   critical section.
   */
  lemma OwnershipPasses(s: State, steps: seq<Step>)
    requires Starting(s) && TimelyRun(s, steps)
    ensures var end := Run(s, steps);
            && Succession(s.initial, end.log)
            && AtMostOneInside(end)
  {
    RunKeepsInvariant(s, steps);
    InitialStays(s, steps);
    InvariantExcludes(Run(s, steps));
  }

  lemma {:induction false} InitialStays(s: State, steps: seq<Step>)
    ensures Run(s, steps).initial == s.initial
    decreases |steps|
  {
    if steps != [] {
      assert Apply(s, steps[0]).initial == s.initial;
      InitialStays(Apply(s, steps[0]), steps[1..]);
    }
  }

  /** Has judged the manifest, and will replace it with its next operation. */
  predicate MayPublish(s: State, who: int) {
    who in s.publishers && s.publishers[who].phase.Cleared?
  }

  /** What it has judged is the manifest it will replace, unless that was withdrawn or unreadable. */
  predicate Judged(s: State, phase: Phase)
    requires phase.Cleared?
  {
    phase.seen == Latest(s) || (phase.seen.None? && (s.withdrawn || !phase.readable))
  }

  /** In every timely run at most one publisher at a time has passed the check, and nothing has been
      published since it read what it checked: no two writers pass it against the same predecessor. */
  lemma OneClearedAtATime(s: State, steps: seq<Step>, p: int)
    requires Starting(s) && TimelyRun(s, steps) && MayPublish(Run(s, steps), p)
    ensures var end := Run(s, steps);
            && Judged(end, end.publishers[p].phase)
            && forall q :: MayPublish(end, q) ==> q == p
  {
    RunKeepsInvariant(s, steps);
    var end := Run(s, steps);
    assert Consistent(end, p);
    forall q | MayPublish(end, q) ensures q == p {
      assert Consistent(end, q);
    }
  }

  // ---------------------------------------------------------------- one publisher by itself

  lemma {:induction false} Unrolled(s: State, steps: seq<Step>, states: seq<State>)
    requires |states| == |steps| + 1 && states[0] == s
    requires forall i :: 0 <= i < |steps| ==> states[i + 1] == Apply(states[i], steps[i])
    ensures Run(s, steps) == states[|steps|]
    decreases |steps|
  {
    if steps != [] {
      assert states[0 + 1] == Apply(states[0], steps[0]);
      forall i | 0 <= i < |steps[1..]| ensures states[1..][i + 1] == Apply(states[1..][i], steps[1..][i]) {
        assert states[(i + 1) + 1] == Apply(states[i + 1], steps[i + 1]);
      }
      Unrolled(Apply(s, steps[0]), steps[1..], states[1..]);
    }
  }

  /** Begins, and carries out all its operations, of which at most the reading fails. */
  function Publishing(who: int, m: Manifest, alive: bool, reachable: bool, readable: bool): seq<Step> {
    var go := Advance(who, alive, reachable, true);
    [Begin(who, m), go, Advance(who, alive, reachable, readable), go, go, go, go]
  }

  /** A publisher holds the lock it has just opened. */
  function Holding(s: State, who: int, m: Manifest, phase: Phase): State {
    s.(publishers := s.publishers[who := Publisher(m, phase)], lock := Some(Lock(s.now, who)))
  }

  lemma LoneEnters(s: State, who: int, m: Manifest, alive: bool, reachable: bool, readable: bool)
    requires s.lock.None? && who !in s.publishers
    ensures Apply(Apply(Apply(s, Begin(who, m)), Advance(who, alive, reachable, true)),
                  Advance(who, alive, reachable, readable))
         == Holding(s, who, m, HasRead(s.now, if readable then s.file else None, readable))
  {
    var entered := Apply(Apply(s, Begin(who, m)), Advance(who, alive, reachable, true));
    assert entered == Holding(s, who, m, Entered(s.now));
  }

  lemma LoneLeaves(s: State, who: int)
    requires who in s.publishers && s.publishers[who].phase.Leaving? && s.lock.Some?
    ensures forall alive, reachable ::
              var go := Advance(who, alive, reachable, true);
              Apply(Apply(s, go), go) == At(s, who, Ended).(lock := None)
  {
  }

  /** With the lock free and nobody else at work, a publisher writes its manifest if and only if there
      is none, it cannot be read, or it may be replaced, and the lock is never left behind. */
  lemma LonePublisher(s: State, who: int, m: Manifest, alive: bool, reachable: bool, readable: bool)
    requires s.lock.None? && who !in s.publishers
    ensures var end := Run(s, Publishing(who, m, alive, reachable, readable));
            && end.lock.None? && who in end.publishers && end.publishers[who].phase == Ended
            && end.file == if s.file.None? || !readable || Replaceable(s.file.value, alive, reachable, m.instance)
                           then Some(m) else s.file
  {
    var steps, go := Publishing(who, m, alive, reachable, readable), Advance(who, alive, reachable, true);
    var s1 := Apply(s, Begin(who, m));
    var s2 := Apply(s1, go);
    var s3 := Apply(s2, Advance(who, alive, reachable, readable));
    LoneEnters(s, who, m, alive, reachable, readable);
    var s4 := Apply(s3, go);
    var s5 := Apply(s4, go);
    var s6 := Apply(s5, go);
    var s7 := Apply(s6, go);
    Unrolled(s, steps, [s, s1, s2, s3, s4, s5, s6, s7]);
    if s4.publishers[who].phase.Leaving? {
      LoneLeaves(s4, who);
    } else {
      LoneLeaves(s5, who);
    }
  }

  // ---------------------------------------------------------------- the exact condition

  ghost predicate TickFree(steps: seq<Step>) {
    forall i :: 0 <= i < |steps| ==> !steps[i].Tick?
  }

  /** No matter who does what at this moment, never are two publishers inside. */
  ghost predicate Exclusive(s: State) {
    forall steps {:trigger Run(s, steps)} :: TickFree(steps) ==> AtMostOneInside(Run(s, steps))
  }

  lemma NoTickStaysTimely(s: State, step: Step)
    requires Timely(s) && !step.Tick?
    ensures Timely(Apply(s, step))
  {
  }

  lemma {:induction false} TickFreeKeepsInvariant(s: State, steps: seq<Step>)
    requires Invariant(s) && Timely(s) && TickFree(steps)
    ensures Invariant(Run(s, steps))
    decreases |steps|
  {
    if steps != [] {
      StepKeepsInvariant(s, steps[0]);
      NoTickStaysTimely(s, steps[0]);
      assert forall i :: 0 <= i < |steps[1..]| ==> steps[1..][i] == steps[i + 1];
      TickFreeKeepsInvariant(Apply(s, steps[0]), steps[1..]);
    }
  }

  lemma InvariantExcludes(s: State)
    requires Invariant(s)
    ensures AtMostOneInside(s)
  {
  }

  /** The next operation of a publisher, with nothing failing and everything alive. */
  function Go(who: int): Step {
    Advance(who, true, true, true)
  }

  /** A newcomer that finds the lock, asks for the time, takes the lock over and enters. */
  function Intrusion(who: int): seq<Step> {
    [Begin(who, Manifest(PROTOCOL_VERSION, "", 0, false)), Go(who), Go(who), Go(who), Go(who), Go(who)]
  }

  lemma IntruderEnters(s: State, p: int, q: int)
    requires Invariant(s) && p in s.publishers && Inside(s.publishers[p].phase) && q !in s.publishers
    requires s.now - s.publishers[p].phase.since > 30
    ensures !AtMostOneInside(Run(s, Intrusion(q)))
  {
    assert Consistent(s, p);
    var steps := Intrusion(q);
    var s1 := Apply(s, steps[0]);
    var s2 := Apply(s1, steps[1]);
    var s3 := Apply(s2, steps[2]);
    var s4 := Apply(s3, steps[3]);
    assert s4.publishers[q].phase == TakingOver && s4.lock.Some?;
    var s5 := Apply(s4, steps[4]);
    var s6 := Apply(s5, steps[5]);
    assert s6.publishers[q].phase.Entered? && s6.publishers[p] == s.publishers[p];
    Unrolled(s, steps, [s, s1, s2, s3, s4, s5, s6]);
  }

  lemma {:induction false} Unused(taken: set<int>) returns (above: int)
    ensures forall x :: x in taken ==> x < above
    decreases |taken|
  {
    if x :| x in taken {
      var rest := Unused(taken - {x});
      above := if rest <= x then x + 1 else rest;
      forall y | y in taken ensures y < above {
        assert y == x || y in taken - {x};
      }
    } else {
      above := 0;
    }
  }

  /**
   The 30 seconds are exact. In any state the publishers can reach in time, two of them can get
   inside at this very moment if and only if one has been inside for longer than that.
   */
  lemma TimelyExactly(s: State)
    requires Invariant(s)
    ensures Timely(s) <==> Exclusive(s)
  {
    if Timely(s) {
      forall steps | TickFree(steps) ensures AtMostOneInside(Run(s, steps)) {
        TickFreeKeepsInvariant(s, steps);
        InvariantExcludes(Run(s, steps));
      }
    } else {
      var p :| p in s.publishers && Inside(s.publishers[p].phase) && s.now - s.publishers[p].phase.since > 30;
      var q := Unused(s.publishers.Keys);
      IntruderEnters(s, p, q);
      assert TickFree(Intrusion(q));
    }
  }

  // ---------------------------------------------------------------- one run that takes too long

  const FIRST := Manifest(1, "first", 1, false)
  const SECOND := Manifest(1, "second", 2, false)

  /** The first publisher has passed its check and waits for half a minute. */
  const WAITS: seq<Step> := [Begin(1, FIRST), Go(1), Go(1), Go(1), Tick(31)]

  /** The second one takes the lock over, checks and publishes; then the first one publishes. */
  const TAKES_OVER: seq<Step> := [Begin(2, SECOND), Go(2), Go(2), Go(2), Go(2), Go(2)]
  const PUBLISH: seq<Step> := [Go(2), Go(2), Go(2), Go(1)]

  /** The first publisher has passed its check at time 0 and has not published at `now`. */
  function Late(now: int): State {
    State(now, Some(Lock(0, 1)), None, false, map[1 := Publisher(FIRST, Cleared(0, None, true, true, true))], None, [])
  }

  function Overtaken(phase: Phase): map<int, Publisher> {
    map[1 := Publisher(FIRST, Cleared(0, None, true, true, true)), 2 := Publisher(SECOND, phase)]
  }

  lemma {:induction false} RunSplits(s: State, steps: seq<Step>, more: seq<Step>)
    ensures Run(s, steps + more) == Run(Run(s, steps), more)
    decreases |steps|
  {
    if steps == [] {
      assert steps + more == more;
    } else {
      assert (steps + more)[0] == steps[0] && (steps + more)[1..] == steps[1..] + more;
      RunSplits(Apply(s, steps[0]), steps[1..], more);
    }
  }

  lemma Waiting(s: State)
    requires s == State(0, None, None, false, map[], None, [])
    ensures Run(s, WAITS) == Late(31)
  {
    var s1 := Apply(s, WAITS[0]);
    var s2 := Apply(s1, WAITS[1]);
    var s3 := Apply(s2, WAITS[2]);
    var s4 := Apply(s3, WAITS[3]);
    assert s4 == Late(0);
    Unrolled(s, WAITS, [s, s1, s2, s3, s4, Apply(s4, WAITS[4])]);
  }

  lemma LockTaken(s: State)
    requires s == Late(31)
    ensures Run(s, TAKES_OVER) == State(31, Some(Lock(31, 2)), None, false, Overtaken(Entered(31)), None, [])
  {
    var s1 := Apply(s, TAKES_OVER[0]);
    var s2 := Apply(s1, TAKES_OVER[1]);
    var s3 := Apply(s2, TAKES_OVER[2]);
    assert s3 == State(31, Some(Lock(0, 1)), None, false, Overtaken(Timed(31)), None, []);
    var s4 := Apply(s3, TAKES_OVER[3]);
    var s5 := Apply(s4, TAKES_OVER[4]);
    assert s5 == State(31, None, None, false, Overtaken(Reopening), None, []);
    Unrolled(s, TAKES_OVER, [s, s1, s2, s3, s4, s5, Apply(s5, TAKES_OVER[5])]);
    assert Apply(s5, TAKES_OVER[5]).publishers == Overtaken(Entered(31));
  }

  lemma BothPublish(s: State)
    requires s == State(31, Some(Lock(31, 2)), None, false, Overtaken(Entered(31)), None, [])
    ensures var end := Run(s, PUBLISH);
            && end.log == [Publication(SECOND, None, true, true, true, false),
                           Publication(FIRST, None, true, true, true, false)]
            && end.publishers == map[1 := Publisher(FIRST, Leaving(0)), 2 := Publisher(SECOND, Leaving(31))]
  {
  }

  /**
   The assumption about time is needed. When a publisher stays in the critical section for 31
   seconds another one takes its lock over; then both are inside, and the manifest of one instance
   is replaced by the other's although it was not stale, not withdrawn and could be read.
   */
  lemma OverdueBreaksOwnership(s: State)
    requires s == State(0, None, None, false, map[], None, [])
    ensures Starting(s)
    ensures !Succession(s.initial, Run(s, WAITS + TAKES_OVER + PUBLISH).log)
    ensures !AtMostOneInside(Run(s, WAITS + TAKES_OVER + PUBLISH))
  {
    Waiting(s);
    LockTaken(Run(s, WAITS));
    BothPublish(Run(Run(s, WAITS), TAKES_OVER));
    RunSplits(s, WAITS, TAKES_OVER);
    RunSplits(s, WAITS + TAKES_OVER, PUBLISH);
    var end := Run(s, WAITS + TAKES_OVER + PUBLISH);
    assert !Succeeds(s.initial, end.log, 1);
    assert Inside(end.publishers[1].phase) && Inside(end.publishers[2].phase);
  }
}
