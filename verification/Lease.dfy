/** The run lease of the worker: one row of the WorkerState table, taken by insert-if-absent,
    taken over by an ETag-conditional replace when stale, and released by a delete that carries
    no condition.

    The protocol is a state machine over the atomic table operations of any number of
    processes, with a shared clock, lost replies and crashes.  `Worker` is the code that
    drives it, with arbitrary steps of the other processes between any two of its own. */
module RunLease {
  import opened Options

  /** RUN_LEASE_STALE_S, in the clock's microseconds. */
  const STALE_US: int := 600 * 1_000_000

  type Pid = nat

  datatype Row = Row(at: int, etag: nat)

  /** Where one process stands in `run_lease`. */
  datatype Phase =
    | Idle
    | Stamped(now: int)                // `now` read, nothing sent yet
    | Refused(now: int)                // create_entity raised ResourceExistsError
    | SawStale(now: int, etag: nat)    // get_entity returned a stale row with this ETag
    | Inside(now: int, etag: nat)      // the body of the `with` block runs

  datatype State = State(row: Option<Row>, nextEtag: nat, clock: int, procs: Processes) {
    function Of(p: Pid): Phase {
      PhaseOf(procs, p)
    }
  }

  type Processes = map<Pid, Phase>

  function PhaseOf(procs: Processes, p: Pid): Phase {
    if p in procs then procs[p] else Idle
  }

  const INIT := State(None, 0, 0, map[])

  /** `Lost(effect)` is a call whose exception is none the code catches: it took effect or not. */
  datatype Action =
    | ReadClock
    | Create | CreateLost(effect: bool)
    | Get | GetLost
    | Replace | ReplaceLost(effect: bool)
    | Delete | DeleteLost(effect: bool)
    | Crash

  datatype Step = Tick(elapsed: nat) | Act(p: Pid, action: Action)

  predicate Enabled(s: State, step: Step) {
    match step
    case Tick(_) => true
    case Act(p, a) =>
      match a
      case ReadClock => s.Of(p).Idle?
      case Create => s.Of(p).Stamped?
      case CreateLost(effect) => s.Of(p).Stamped? && (effect ==> s.row.None?)
      case Get => s.Of(p).Refused?
      case GetLost => s.Of(p).Refused?
      case Replace => s.Of(p).SawStale?
      case ReplaceLost(effect) => s.Of(p).SawStale? && (effect ==> Unmodified(s, s.Of(p).etag))
      case Delete => s.Of(p).Inside?
      case DeleteLost(_) => s.Of(p).Inside?
      case Crash => true
  }

  predicate Unmodified(s: State, etag: nat) {
    s.row.Some? && s.row.value.etag == etag
  }

  function Go(s: State, p: Pid, phase: Phase): (s': State)
    ensures forall q :: PhaseOf(s'.procs, q) == if q == p then phase else PhaseOf(s.procs, q)
  {
    s.(procs := s.procs[p := phase])
  }

  function Write(s: State, now: int): State {
    s.(row := Some(Row(now, s.nextEtag)), nextEtag := s.nextEtag + 1)
  }

  function Next(s: State, step: Step): State
    requires Enabled(s, step)
  {
    match step
    case Tick(elapsed) => s.(clock := s.clock + elapsed)
    case Act(p, a) =>
      var phase := s.Of(p);
      match a
      case ReadClock => Go(s, p, Stamped(s.clock))
      case Create =>
        if s.row.None? then Go(Write(s, phase.now), p, Inside(phase.now, s.nextEtag))
        else Go(s, p, Phase.Refused(phase.now))
      case CreateLost(effect) =>
        Go(if effect then Write(s, phase.now) else s, p, Idle)
      case Get =>
        // A row gone since the failed create raises ResourceNotFoundError: the run fails.
        if s.row.Some? && phase.now - s.row.value.at > STALE_US
        then Go(s, p, SawStale(phase.now, s.row.value.etag))
        else Go(s, p, Idle)
      case GetLost => Go(s, p, Idle)
      case Replace =>
        if Unmodified(s, phase.etag) then Go(Write(s, phase.now), p, Inside(phase.now, s.nextEtag))
        else Go(s, p, Idle)
      case ReplaceLost(effect) =>
        Go(if effect then Write(s, phase.now) else s, p, Idle)
      case Delete => Go(s.(row := None), p, Idle)
      case DeleteLost(effect) => Go(if effect then s.(row := None) else s, p, Idle)
      case Crash => Go(s, p, Idle)
  }

  // ----- Runs -----

  ghost predicate Legal(steps: seq<Step>)
    decreases |steps|, 0
  {
    steps == [] || (Legal(steps[..|steps| - 1]) && Enabled(After(steps[..|steps| - 1]), steps[|steps| - 1]))
  }

  ghost function After(steps: seq<Step>): State
    requires Legal(steps)
    decreases |steps|, 1
  {
    if steps == [] then INIT else Next(After(steps[..|steps| - 1]), steps[|steps| - 1])
  }

  lemma {:induction false} LegalPrefix(steps: seq<Step>, i: nat)
    requires Legal(steps) && i <= |steps|
    ensures Legal(steps[..i])
  {
    if i == |steps| {
      assert steps[..i] == steps;
    } else {
      assert steps[..|steps| - 1][..i] == steps[..i];
      LegalPrefix(steps[..|steps| - 1], i);
    }
  }

  /** Every process that is inside entered with a stamp at most `bound` ago. */
  ghost predicate Stays(s: State, bound: int) {
    forall p :: s.Of(p).Inside? ==> s.clock - s.Of(p).now <= bound
  }

  /** The hypothesis on the runs: a live run leaves within `bound` of its own stamp. */
  ghost predicate StaysWithin(steps: seq<Step>, bound: int)
    requires Legal(steps)
  {
    forall i | 0 <= i <= |steps| :: Legal(steps[..i]) && Stays(After(steps[..i]), bound)
  }

  // ----- Exclusion -----

  /** At most one live process is inside, and the row is the one it wrote. */
  ghost predicate Exclusive(s: State) {
    && (forall p, q :: s.Of(p).Inside? && s.Of(q).Inside? ==> p == q)
    && (forall p :: s.Of(p).Inside? ==> s.row == Some(Row(s.Of(p).now, s.Of(p).etag)))
  }

  /** What holds in every run, timely or not: stamps are past, ETags are never reused, and a
      stale observation stays true for as long as its ETag is current. */
  ghost predicate Inv(s: State) {
    && (s.row.Some? ==> s.row.value.etag < s.nextEtag)
    && (forall p :: !s.Of(p).Idle? ==> s.Of(p).now <= s.clock)
    && (forall p :: s.Of(p).Inside? || s.Of(p).SawStale? ==> s.Of(p).etag < s.nextEtag)
    && (forall p, q :: s.Of(p).Inside? && s.Of(q).Inside? && p != q ==> s.Of(p).etag != s.Of(q).etag)
    && (forall p :: s.Of(p).SawStale? && Unmodified(s, s.Of(p).etag)
                    ==> s.Of(p).now - s.row.value.at > STALE_US)
  }

  /** A step changes the phase of the process that takes it and of no other. */
  lemma Frame(s: State, step: Step)
    requires Enabled(s, step)
    ensures forall q :: (step.Act? && step.p == q) || Next(s, step).Of(q) == s.Of(q)
  {
  }

  lemma InvStep(s: State, step: Step)
    requires Inv(s) && Enabled(s, step)
    ensures Inv(Next(s, step))
  {
    Frame(s, step);
  }

  lemma ExclusiveStep(s: State, step: Step)
    requires Inv(s) && Exclusive(s) && Stays(s, STALE_US) && Enabled(s, step)
    ensures Exclusive(Next(s, step))
  {
    Frame(s, step);
  }

  lemma {:induction false} InvAlways(steps: seq<Step>)
    requires Legal(steps)
    ensures Inv(After(steps))
  {
    if steps != [] {
      var before := steps[..|steps| - 1];
      InvAlways(before);
      InvStep(After(before), steps[|steps| - 1]);
    }
  }

  /** Mutual exclusion over every interleaving of any number of processes. */
  lemma {:induction false} Exclusion(steps: seq<Step>)
    requires Legal(steps) && StaysWithin(steps, STALE_US)
    ensures Exclusive(After(steps))
  {
    if steps != [] {
      var before := steps[..|steps| - 1];
      assert forall i | 0 <= i <= |before| :: before[..i] == steps[..i];
      Exclusion(before);
      InvAlways(before);
      assert before[..|before|] == before;
      ExclusiveStep(After(before), steps[|steps| - 1]);
    }
  }

  // ----- Takeovers -----

  /** Step `i` is a replace that takes effect on a row observed with this ETag. */
  ghost predicate Wins(steps: seq<Step>, i: nat, etag: nat) {
    && i < |steps| && Legal(steps[..i])
    && steps[i].Act? && (steps[i].action == Replace || steps[i].action == ReplaceLost(true))
    && After(steps[..i]).Of(steps[i].p).SawStale?
    && After(steps[..i]).Of(steps[i].p).etag == etag
    && Unmodified(After(steps[..i]), etag)
  }

  /** An ETag that has been issued and is no longer on the row never comes back. */
  lemma {:induction false} Retired(steps: seq<Step>, i: nat, j: nat, etag: nat)
    requires Legal(steps) && i <= j <= |steps|
    requires Legal(steps[..i]) && etag < After(steps[..i]).nextEtag && !Unmodified(After(steps[..i]), etag)
    ensures Legal(steps[..j]) && etag < After(steps[..j]).nextEtag && !Unmodified(After(steps[..j]), etag)
  {
    LegalPrefix(steps, j);
    if i < j {
      Retired(steps, i, j - 1, etag);
      assert steps[..j][..j - 1] == steps[..j - 1];
    }
  }

  /** Of the processes that race to take over one stale row, at most one succeeds, in any run. */
  lemma AtMostOneTakeover(steps: seq<Step>, i: nat, j: nat, etag: nat)
    requires Legal(steps) && i < j < |steps| && Wins(steps, i, etag)
    ensures !Wins(steps, j, etag)
  {
    LegalPrefix(steps, i + 1);
    assert steps[..i + 1][..i] == steps[..i];
    InvAlways(steps[..i]);
    Retired(steps, i + 1, j, etag);
  }

  // ----- Why the hypothesis is needed -----

  lemma Extend(steps: seq<Step>, step: Step)
    requires Legal(steps) && Enabled(After(steps), step)
    ensures Legal(steps + [step]) && After(steps + [step]) == Next(After(steps), step)
  {
    assert (steps + [step])[..|steps|] == steps;
  }

  lemma StaysLonger(steps: seq<Step>, step: Step, bound: int)
    requires Legal(steps) && StaysWithin(steps, bound) && Enabled(After(steps), step)
    requires Stays(Next(After(steps), step), bound)
    ensures Legal(steps + [step]) && StaysWithin(steps + [step], bound)
  {
    Extend(steps, step);
    var longer := steps + [step];
    forall i | 0 <= i <= |longer|
      ensures Legal(longer[..i]) && Stays(After(longer[..i]), bound)
    {
      if i <= |steps| { assert longer[..i] == steps[..i]; } else { assert longer[..i] == longer; }
    }
  }

  /** Process 0 overstays by one microsecond and process 1 takes over; then process 0 releases and
      process 2 comes. */
  function Overstay(): seq<Step> {
    [Act(0, ReadClock), Act(0, Create), Tick(STALE_US + 1),
     Act(1, ReadClock), Act(1, Create), Act(1, Get), Act(1, Replace),
     Act(0, Delete), Act(2, ReadClock), Act(2, Create)]
  }

  function OverstayAt(i: nat): State
    requires i <= 10
  {
    State(
      if i < 2 || 8 <= i < 10 then None
      else if i < 7 then Some(Row(0, 0))
      else if i == 7 then Some(Row(STALE_US + 1, 1))
      else Some(Row(STALE_US + 1, 2)),
      if i < 2 then 0 else if i < 7 then 1 else if i < 10 then 2 else 3,
      if i < 3 then 0 else STALE_US + 1,
      if i == 0 then map[]
      else if i == 1 then map[0 := Stamped(0)]
      else if i <= 3 then map[0 := Inside(0, 0)]
      else if i == 4 then map[0 := Inside(0, 0), 1 := Stamped(STALE_US + 1)]
      else if i == 5 then map[0 := Inside(0, 0), 1 := Phase.Refused(STALE_US + 1)]
      else if i == 6 then map[0 := Inside(0, 0), 1 := SawStale(STALE_US + 1, 0)]
      else if i == 7 then map[0 := Inside(0, 0), 1 := Inside(STALE_US + 1, 1)]
      else if i == 8 then map[0 := Idle, 1 := Inside(STALE_US + 1, 1)]
      else if i == 9 then map[0 := Idle, 1 := Inside(STALE_US + 1, 1), 2 := Stamped(STALE_US + 1)]
      else map[0 := Idle, 1 := Inside(STALE_US + 1, 1), 2 := Inside(STALE_US + 1, 2)])
  }

  lemma OverstayStep(i: nat)
    requires i < 10
    ensures Enabled(OverstayAt(i), Overstay()[i]) && Next(OverstayAt(i), Overstay()[i]) == OverstayAt(i + 1)
    ensures Stays(OverstayAt(i + 1), STALE_US + 1)
  {
  }

  lemma {:induction false} OverstayRuns(i: nat) returns (steps: seq<Step>)
    requires i <= 10
    ensures Legal(steps) && After(steps) == OverstayAt(i) && StaysWithin(steps, STALE_US + 1)
  {
    if i == 0 {
      steps := [];
    } else {
      var before := OverstayRuns(i - 1);
      OverstayStep(i - 1);
      hide OverstayAt, Overstay, Next, Enabled;
      steps := before + [Overstay()[i - 1]];
      Extend(before, Overstay()[i - 1]);
      StaysLonger(before, Overstay()[i - 1], STALE_US + 1);
    }
  }

  /** The bound is exact: a lease whose holders stay at most `bound` excludes in every interleaving if
      and only if the bound is the 600 s of the staleness window or less.  A holder that stays one microsecond
      longer and its taker are inside together, before anything has been released. */
  lemma ExclusionIsExact(bound: int)
    ensures (forall steps | Legal(steps) && StaysWithin(steps, bound) :: Exclusive(After(steps)))
            <==> bound <= 600_000_000
  {
    if bound <= STALE_US {
      forall steps | Legal(steps) && StaysWithin(steps, bound)
        ensures Exclusive(After(steps))
      {
        assert forall i | 0 <= i <= |steps| :: Stays(After(steps[..i]), bound);
        Exclusion(steps);
      }
    } else {
      var steps := OverstayRuns(7);
      assert forall i | 0 <= i <= |steps| :: Stays(After(steps[..i]), STALE_US + 1);
      assert After(steps).Of(0).Inside? && After(steps).Of(1).Inside?;
    }
  }

  /** What the unconditional delete adds: after an overstay it removes the row of the process that took
      over, and a third one joins.  The two inside are both timely. */
  lemma OverstayBreaksExclusion() returns (steps: seq<Step>)
    ensures Legal(steps) && StaysWithin(steps, STALE_US + 1) && Stays(After(steps), STALE_US)
    ensures After(steps).Of(1).Inside? && After(steps).Of(2).Inside?
  {
    steps := OverstayRuns(10);
  }

  // ----- The code, with the other processes interleaved -----

  datatype Outcome = Acquired | Busy | Failed

  /** How the body of the `with` block ends. */
  datatype Body = Ends | Raises | Dies

  /** How the `with` block is left: busy, or the attempt raised, before the body began; or behind it,
      `Unreleased` if the delete raised. */
  datatype Exit = BusyExit | NeverHeld | Done | BodyRaised | Unreleased | Killed

  /** `Refused` is the exception the code catches for this call; `Raised` is any other. */
  datatype Reply<+T> = Ok(value: T) | Refused | Raised

  ghost predicate Touches(steps: seq<Step>, i: nat)
    requires Legal(steps) && i < |steps|
  {
    && Legal(steps[..i]) && Legal(steps[..i + 1])
    && After(steps[..i]).row != After(steps[..i + 1]).row
  }

  ghost predicate By(step: Step, p: Pid) {
    step.Act? && step.p == p
  }

  /** Process `p` had no hand in the row since the history was `before`. */
  ghost predicate HandsOff(p: Pid, before: seq<Step>, steps: seq<Step>) {
    && Legal(steps) && before <= steps
    && forall i | |before| <= i < |steps| :: By(steps[i], p) ==> !Touches(steps, i)
  }

  lemma TouchesStill(steps: seq<Step>, longer: seq<Step>, i: nat)
    requires Legal(steps) && Legal(longer) && steps <= longer && i < |steps|
    ensures longer[i] == steps[i] && Touches(longer, i) == Touches(steps, i)
  {
    hide Legal, After;
    assert longer[..i] == steps[..i] && longer[..i + 1] == steps[..i + 1];
  }

  lemma TouchesLast(steps: seq<Step>, step: Step)
    requires Legal(steps) && Enabled(After(steps), step) && Next(After(steps), step).row == After(steps).row
    ensures Legal(steps + [step]) && !Touches(steps + [step], |steps|)
  {
    Extend(steps, step);
    hide Legal, After, Next, Enabled;
    var longer := steps + [step];
    assert longer[..|steps| + 1] == longer && longer[..|steps|] == steps;
  }

  lemma HandsOffStep(p: Pid, before: seq<Step>, steps: seq<Step>, step: Step)
    requires HandsOff(p, before, steps) && Enabled(After(steps), step)
    requires By(step, p) ==> Next(After(steps), step).row == After(steps).row
    ensures HandsOff(p, before, steps + [step])
  {
    Extend(steps, step);
    var longer := steps + [step];
    hide Legal, After, Next, Enabled, Touches;
    forall i | |before| <= i < |longer| && By(longer[i], p)
      ensures !Touches(longer, i)
    {
      if i < |steps| { TouchesStill(steps, longer, i); } else { TouchesLast(steps, step); }
    }
  }

  ghost predicate SeesNone(p: Pid, steps: seq<Step>, i: nat)
    requires i < |steps|
  {
    steps[i] == Act(p, Get) && Legal(steps[..i]) && After(steps[..i]).row.None?
  }

  /** Since `before`, the get of process `p` that follows a refused create found no row. */
  ghost predicate FoundGone(p: Pid, before: seq<Step>, steps: seq<Step>) {
    exists i | |before| <= i < |steps| :: SeesNone(p, steps, i)
  }

  lemma FoundGoneStep(p: Pid, before: seq<Step>, steps: seq<Step>, step: Step)
    requires Legal(steps) && before <= steps && !FoundGone(p, before, steps)
    requires step == Act(p, Get) ==> After(steps).row.Some?
    ensures !FoundGone(p, before, steps + [step])
  {
    var longer := steps + [step];
    forall i | |before| <= i < |longer|
      ensures !SeesNone(p, longer, i)
    {
      if i < |steps| {
        assert longer[..i] == steps[..i];
        assert !SeesNone(p, steps, i);
      } else {
        assert longer[..i] == steps;
      }
    }
  }

  /** What the last call of an attempt says about its outcome: created, or refused and the row read gone,
      fresh, or stale and then replaced or not. */
  ghost predicate Concludes(p: Pid, steps: seq<Step>, outcome: Outcome) {
    && steps != [] && Legal(steps[..|steps| - 1]) && By(steps[|steps| - 1], p)
    && var s := After(steps[..|steps| - 1]);
       match steps[|steps| - 1].action
       case Create => s.row.None? && outcome == Acquired
       case Get =>
         if s.row.None? then outcome == Failed
         else s.Of(p).Refused? && s.Of(p).now - s.row.value.at <= 600_000_000 && outcome == Busy
       case Replace =>
         s.Of(p).SawStale? && outcome == if Unmodified(s, s.Of(p).etag) then Acquired else Busy
       case CreateLost(_) => outcome == Failed
       case GetLost => outcome == Failed
       case ReplaceLost(_) => outcome == Failed
       case _ => false
  }

  class Worker {
    const me: Pid
    var s: State
    ghost var history: seq<Step>

    ghost predicate Valid()
      reads this
    {
      Legal(history) && s == After(history)
    }

    constructor (p: Pid)
      ensures Valid() && me == p && s == INIT
    {
      me := p;
      s := INIT;
      history := [];
    }

    /** One atomic operation.  `since` is where the caller began to watch the row. */
    method Do(step: Step, ghost since: seq<Step>)
      requires Valid() && Enabled(s, step) && since <= history
      modifies this
      ensures Valid() && s == Next(old(s), step) && since <= history && history == old(history) + [step]
      ensures old(HandsOff(me, since, history)) && (By(step, me) ==> s.row == old(s.row))
              ==> HandsOff(me, since, history)
      ensures old(!FoundGone(me, since, history)) && (step == Act(me, Get) ==> old(s.row).Some?)
              ==> !FoundGone(me, since, history)
    {
      Extend(history, step);
      if !FoundGone(me, since, history) && (step == Act(me, Get) ==> s.row.Some?) {
        FoundGoneStep(me, since, history, step);
      }
      if HandsOff(me, since, history) && (By(step, me) ==> Next(s, step).row == s.row) {
        HandsOffStep(me, since, history, step);
      }
      s := Next(s, step);
      history := history + [step];
    }

    /** Any steps of the clock and of the other processes, including none. */
    method Others(ghost since: seq<Step>)
      requires Valid() && HandsOff(me, since, history)
      modifies this
      ensures Valid() && s.Of(me) == old(s.Of(me))
      ensures HandsOff(me, since, history)
      ensures old(!FoundGone(me, since, history)) ==> !FoundGone(me, since, history)
    {
      var steps: nat := *;
      while steps > 0
        invariant Valid() && s.Of(me) == old(s.Of(me))
        invariant HandsOff(me, since, history)
        invariant old(!FoundGone(me, since, history)) ==> !FoundGone(me, since, history)
      {
        var p: Pid, action: Action, elapsed: nat := *, *, *;
        var step := if p == me then Tick(elapsed) else Act(p, action);
        if Enabled(s, step) {
          Frame(s, step);
          Do(step, since);
        }
        steps := steps - 1;
      }
    }

    method CreateEntity(ghost since: seq<Step>) returns (reply: Reply<()>)
      requires Valid() && s.Of(me).Stamped? && HandsOff(me, since, history)
      modifies this
      ensures Valid() && since <= history
      ensures reply.Ok? ==> s.Of(me) == Inside(old(s.Of(me)).now, old(s.nextEtag))
                            && s.row == Some(Row(old(s.Of(me)).now, old(s.nextEtag)))
      ensures reply.Refused? ==> s.Of(me) == Phase.Refused(old(s.Of(me)).now) && HandsOff(me, since, history)
      ensures old(!FoundGone(me, since, history)) ==> !FoundGone(me, since, history)
      ensures reply.Raised? ==> s.Of(me).Idle?
      ensures if reply.Raised? then exists effect :: history == old(history) + [Act(me, CreateLost(effect))]
              else history == old(history) + [Act(me, Create)] && (reply.Ok? <==> old(s.row).None?)
    {
      var lost: bool, effect: bool := *, *;
      if lost && (effect ==> s.row.None?) {
        Do(Act(me, CreateLost(effect)), since);
        return Raised;
      }
      var taken := s.row.Some?;
      Do(Act(me, Create), since);
      return if taken then Reply.Refused else Ok(());
    }

    method GetEntity(ghost since: seq<Step>) returns (reply: Reply<Row>)
      requires Valid() && s.Of(me).Refused? && HandsOff(me, since, history)
      modifies this
      ensures Valid() && HandsOff(me, since, history) && !reply.Refused?
      ensures reply.Ok? ==> old(s.row) == Some(reply.value)
      ensures reply.Ok? ==> s.Of(me) == if old(s.Of(me)).now - reply.value.at > STALE_US
                                        then SawStale(old(s.Of(me)).now, reply.value.etag) else Idle
      ensures reply.Raised? ==> s.Of(me).Idle?
      ensures old(s.row).None? ==> reply.Raised?
      ensures reply.Ok? && old(!FoundGone(me, since, history)) ==> !FoundGone(me, since, history)
      ensures history == old(history) + [Act(me, Get)] || history == old(history) + [Act(me, GetLost)]
      ensures history == old(history) + [Act(me, Get)] ==> (reply.Ok? <==> old(s.row).Some?)
      ensures history == old(history) + [Act(me, GetLost)] ==> reply.Raised?
    {
      var lost: bool := *;
      var found := s.row;
      Do(Act(me, if lost then GetLost else Get), since);
      return if lost || found.None? then Raised else Ok(found.value);
    }

    method UpdateEntity(etag: nat, ghost since: seq<Step>) returns (reply: Reply<()>)
      requires Valid() && s.Of(me).SawStale? && s.Of(me).etag == etag && HandsOff(me, since, history)
      modifies this
      ensures Valid() && since <= history
      ensures reply.Ok? ==> s.Of(me) == Inside(old(s.Of(me)).now, old(s.nextEtag))
                            && s.row == Some(Row(old(s.Of(me)).now, old(s.nextEtag)))
      ensures reply.Refused? ==> s.Of(me).Idle? && HandsOff(me, since, history)
      ensures old(!FoundGone(me, since, history)) ==> !FoundGone(me, since, history)
      ensures reply.Raised? ==> s.Of(me).Idle?
      ensures if reply.Raised? then exists effect :: history == old(history) + [Act(me, ReplaceLost(effect))]
              else history == old(history) + [Act(me, Replace)] && (reply.Ok? <==> old(Unmodified(s, etag)))
    {
      var lost: bool, effect: bool := *, *;
      if lost && (effect ==> Unmodified(s, etag)) {
        Do(Act(me, ReplaceLost(effect)), since);
        return Raised;
      }
      var matched := Unmodified(s, etag);
      Do(Act(me, Replace), since);
      return if matched then Ok(()) else Reply.Refused;
    }

    /** `try_acquire_run_lease`: acquired means inside with its own fresh row, whatever the other
        processes did meanwhile; a busy exit never changed the row. */
    method TryAcquire() returns (outcome: Outcome)
      requires Valid() && s.Of(me).Idle?
      modifies this
      ensures Valid() && old(history) <= history
      ensures outcome.Acquired? <==> s.Of(me).Inside?
      ensures !outcome.Acquired? ==> s.Of(me).Idle?
      ensures outcome.Acquired? ==> s.row == Some(Row(s.Of(me).now, s.Of(me).etag))
      ensures outcome.Busy? ==> HandsOff(me, old(history), history)
      ensures FoundGone(me, old(history), history) ==> outcome.Failed?
      ensures old(history) < history && Concludes(me, history, outcome)
    {
      ghost var h := history;
      assert HandsOff(me, h, history) && !FoundGone(me, h, history);
      var now := s.clock;
      Do(Act(me, ReadClock), h);
      Others(h);
      var created := CreateEntity(h);
      if created.Raised? { return Failed; }
      if created.Ok? { return Acquired; }
      Others(h);
      var existing := GetEntity(h);
      if existing.Raised? { return Failed; }
      if now - existing.value.at <= STALE_US { return Busy; }
      Others(h);
      var replaced := UpdateEntity(existing.value.etag, h);
      return if replaced.Raised? then Failed else if replaced.Ok? then Acquired else Busy;
    }

    /** `run_lease` around a body in which anything may happen elsewhere.  Whether the body ends or
        raises, the last thing the process does is the delete, which carries no condition; a busy exit
        comes before the `try` and releases nothing, and neither does a process killed in the body.
        `held` is where the body begins, if it does. */
    method WithLease(body: Body) returns (exit: Exit, ghost held: Option<seq<Step>>)
      requires Valid() && s.Of(me).Idle?
      modifies this
      ensures Valid() && s.Of(me).Idle?
      ensures held.None? <==> exit.BusyExit? || exit.NeverHeld?
      ensures exit.BusyExit? ==> HandsOff(me, old(history), history) && Concludes(me, history, Busy)
      ensures exit.NeverHeld? ==> Concludes(me, history, Failed)
      ensures held.Some? ==> held.value < history && Concludes(me, held.value, Acquired)
      ensures held.Some? ==> Legal(held.value) && After(held.value).Of(me).Inside?
      ensures held.Some? ==>
                var front, last := history[..|history| - 1], history[|history| - 1];
                && HandsOff(me, held.value, front)
                && match body
                   case Dies => exit == Killed && last == Act(me, Crash)
                   case _ =>
                     || (last == Act(me, Delete) && s.row.None? && exit == if body.Ends? then Done else BodyRaised)
                     || (last.Act? && last.p == me && last.action.DeleteLost? && exit == Unreleased)
    {
      var outcome := TryAcquire();
      held := None;
      if outcome.Busy? { return BusyExit, held; }
      if outcome.Failed? { return NeverHeld, held; }
      held := Some(history);
      Others(history);
      if body.Dies? {
        Do(Act(me, Crash), history);
        return Killed, held;
      }
      var lost: bool, effect: bool := *, *;
      if lost {
        Do(Act(me, DeleteLost(effect)), history);
        return Unreleased, held;
      }
      Do(Act(me, Delete), history);
      return if body.Raises? then BodyRaised else Done, held;
    }
  }

  // ----- A dead holder never blocks the worker -----

  /** `try_acquire_run_lease` with nobody else moving and every call answered. */
  function Solo(s: State, p: Pid): State
    requires s.Of(p).Idle?
  {
    var created := Next(Next(s, Act(p, ReadClock)), Act(p, Create));
    if created.Of(p).Inside? then created
    else
      var read := Next(created, Act(p, Get));
      if read.Of(p).SawStale? then Next(read, Act(p, Replace)) else read
  }

  lemma DeadHolderNeverBlocks(s: State, p: Pid)
    requires s.Of(p).Idle?
    ensures Solo(s, p).Of(p).Inside? <==> s.row.None? || s.clock - s.row.value.at > 600_000_000
    ensures Solo(s, p).row == if Solo(s, p).Of(p).Inside? then Some(Row(s.clock, s.nextEtag)) else s.row
  {
  }
}
