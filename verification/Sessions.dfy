/** Why runs can be treated one at a time: processes whose calls are made only while they hold the lease
    leave the shared world that some serial history of runs leaves.

    A process is described by what its code does as long as no other process has called anything since
    it entered; the lease is what makes that the only case. */
module Sessions {
  import opened Pipeline
  import opened Truth
  import opened Moments
  import RunLease
  import Timing

  /** A lease operation, a call of a process, or something else that happens to mailbox and board. */
  datatype Moment =
    | Lock(step: RunLease.Step)
    | Called(p: RunLease.Pid, entry: Entry)
    | Apart(h: Happening)

  function Locks(ms: seq<Moment>): seq<RunLease.Step> {
    if ms == [] then []
    else
      var last, before := ms[|ms| - 1], Locks(ms[..|ms| - 1]);
      if last.Lock? then before + [last.step] else before
  }

  function Calls(ms: seq<Moment>): seq<Entry> {
    if ms == [] then []
    else
      var last, before := ms[|ms| - 1], Calls(ms[..|ms| - 1]);
      if last.Called? then before + [last.entry] else before
  }

  /** The world all processes share. */
  function Shared(cfg: Config, ms: seq<Moment>): World {
    if ms == [] then NOTHING.world
    else
      var last, before := ms[|ms| - 1], Shared(cfg, ms[..|ms| - 1]);
      match last
      case Lock(_) => before
      case Called(_, e) => if e.landed then Apply(before, e.op) else before
      case Apart(h) => Happen(cfg, Past(before, []), h).world
  }

  ghost predicate Within(ms: seq<Moment>, p: RunLease.Pid)
    requires RunLease.Legal(Locks(ms))
  {
    RunLease.After(Locks(ms)).Of(p).Inside?
  }

  /** Calls are made inside; emails arrive at any time; the operator acts while nobody is inside. */
  ghost predicate Interleaving(cfg: Config, ms: seq<Moment>) {
    ms == []
    || (var last, front := ms[|ms| - 1], ms[..|ms| - 1];
        && Interleaving(cfg, front) && RunLease.Legal(Locks(front))
        && match last
           case Lock(step) => RunLease.Enabled(RunLease.After(Locks(front)), step)
           case Called(p, _) => Within(front, p)
           case Apart(h) =>
             && !h.Run? && Possible(cfg, Shared(cfg, front), h)
             && (h.Arrive? || forall p :: !Within(front, p)))
  }

  lemma {:induction false} LocksAreLegal(cfg: Config, ms: seq<Moment>)
    requires Interleaving(cfg, ms)
    ensures RunLease.Legal(Locks(ms))
  {
    if ms != [] && ms[|ms| - 1].Lock? {
      RunLease.Extend(Locks(ms[..|ms| - 1]), ms[|ms| - 1].step);
    }
  }

  /** How many moments had passed when `p`, now inside, entered. */
  ghost function Began(ms: seq<Moment>, p: RunLease.Pid): (i: nat)
    ensures i <= |ms|
  {
    if ms == [] then 0
    else
      var front := ms[..|ms| - 1];
      if RunLease.Legal(Locks(front)) && Within(front, p) then Began(front, p) else |ms|
  }

  /** Which run a process makes when it enters after the first `i` moments. */
  type Code = nat -> Happening

  function RunFrom(cfg: Config, w: World, h: Happening): Sys
    requires h.Run?
  {
    RunOf(cfg, Past(w, []), h).sys
  }

  ghost predicate AllBy(ms: seq<Moment>, p: RunLease.Pid) {
    forall m | m in ms :: (m.Apart? ==> m.h.Arrive?) && (m.Called? ==> m.p == p)
  }

  /** The calls of the session of `p` are the first of its run. */
  ghost predicate OnTrack(cfg: Config, ms: seq<Moment>, code: Code, p: RunLease.Pid) {
    var i := Began(ms, p);
    var w := Shared(cfg, ms[..i]);
    && code(i).Run? && Possible(cfg, w, code(i))
    && Calls(ms[i..]) <= Made(Sys(w, code(i).script, code(i).start, []), RunFrom(cfg, w, code(i)))
  }

  /** Every process does what its code does, for as long as it is alone. */
  ghost predicate Obeys(cfg: Config, ms: seq<Moment>, code: Code) {
    ms == []
    || (&& Obeys(cfg, ms[..|ms| - 1], code)
        && (var last := ms[|ms| - 1];
            last.Called? && AllBy(ms[Began(ms, last.p)..], last.p) ==> OnTrack(cfg, ms, code, last.p)))
  }

  // ----- Segments -----

  /** The emails that arrive. */
  function Arrivals(ms: seq<Moment>): seq<Mail> {
    if ms == [] then []
    else
      var last, before := ms[|ms| - 1], Arrivals(ms[..|ms| - 1]);
      if last.Apart? && last.h.Arrive? then before + [last.h.mail] else before
  }

  function WithMails(w: World, mails: seq<Mail>): World {
    if mails == [] then w
    else
      var before := WithMails(w, mails[..|mails| - 1]);
      before.(labels := before.labels[mails[|mails| - 1] := {UNREAD}])
  }

  ghost predicate NewMails(cfg: Config, w: World, mails: seq<Mail>) {
    mails == []
    || (&& NewMails(cfg, w, mails[..|mails| - 1])
        && Possible(cfg, WithMails(w, mails[..|mails| - 1]), Arrive(mails[|mails| - 1])))
  }

  /** An arrival and a call on emails known before it may change places. */
  lemma ArrivalBeside(w: World, mail: Mail, op: Op)
    requires mail !in w.labels && Knows(w, op)
    ensures Apply(w.(labels := w.labels[mail := {UNREAD}]), op)
            == var w' := Apply(w, op); w'.(labels := w'.labels[mail := {UNREAD}])
  {
  }

  lemma {:induction false} ArrivalsBeside(cfg: Config, w: World, mails: seq<Mail>, op: Op)
    requires NewMails(cfg, w, mails) && Knows(w, op)
    ensures Apply(WithMails(w, mails), op) == WithMails(Apply(w, op), mails) && NewMails(cfg, Apply(w, op), mails)
    ensures w.labels.Keys <= WithMails(w, mails).labels.Keys && Apply(w, op).labels.Keys == w.labels.Keys
  {
    KeysKept(w, op);
    if mails != [] {
      var front, last := mails[..|mails| - 1], mails[|mails| - 1];
      ArrivalsBeside(cfg, w, front, op);
      KeysKept(WithMails(w, front), op);
      hide Apply;
      ArrivalBeside(WithMails(w, front), last, op);
    }
  }

  /** Calls and arrivals between two moments: the calls first, then the arrivals. */
  lemma {:induction false} SharedFrom(cfg: Config, ms: seq<Moment>, i: nat)
    requires Interleaving(cfg, ms) && i <= |ms| && forall m | m in ms[i..] :: m.Apart? ==> m.h.Arrive?
    requires forall e | e in Calls(ms[i..]) :: Knows(Shared(cfg, ms[..i]), e.op)
    ensures var w := WorldAfter(Shared(cfg, ms[..i]), Calls(ms[i..]));
            && w.labels.Keys == Shared(cfg, ms[..i]).labels.Keys
            && NewMails(cfg, w, Arrivals(ms[i..])) && Shared(cfg, ms) == WithMails(w, Arrivals(ms[i..]))
  {
    hide Apply, Possible;
    if i == |ms| {
      assert ms[..i] == ms && ms[i..] == [];
    } else {
      var front, last := ms[..|ms| - 1], ms[|ms| - 1];
      assert ms[i..] == front[i..] + [last] && front[..i] == ms[..i];
      assert last in ms[i..];
      CallsSnoc(front[i..], last);
      ArrivalsSnoc(front[i..], last);
      assert forall e | e in Calls(front[i..]) :: e in Calls(ms[i..]);
      SharedFrom(cfg, front, i);
      var w, calls, mails := Shared(cfg, ms[..i]), Calls(front[i..]), Arrivals(front[i..]);
      match last {
        case Lock(_) =>
        case Called(_, e) =>
          assert e in Calls(ms[i..]);
          WorldAfterSnoc(w, calls, e);
          if e.landed { ArrivalsBeside(cfg, WorldAfter(w, calls), mails, e.op); }
        case Apart(h) =>
          WithMailsSnoc(cfg, WorldAfter(w, calls), mails, h.mail);
      }
    }
  }

  lemma WorldAfterSnoc(w: World, calls: seq<Entry>, e: Entry)
    ensures WorldAfter(w, calls + [e]) == if e.landed then Apply(WorldAfter(w, calls), e.op) else WorldAfter(w, calls)
  {
    hide Apply;
    assert (calls + [e])[..|calls|] == calls;
  }

  lemma WithMailsSnoc(cfg: Config, w: World, mails: seq<Mail>, mail: Mail)
    ensures WithMails(w, mails + [mail])
            == WithMails(w, mails).(labels := WithMails(w, mails).labels[mail := {UNREAD}])
    ensures NewMails(cfg, w, mails + [mail]) == (NewMails(cfg, w, mails) && Possible(cfg, WithMails(w, mails), Arrive(mail)))
  {
    assert (mails + [mail])[..|mails|] == mails;
  }

  lemma ArrivalsSnoc(ms: seq<Moment>, m: Moment)
    ensures Arrivals(ms + [m]) == if m.Apart? && m.h.Arrive? then Arrivals(ms) + [m.h.mail] else Arrivals(ms)
  {
    assert (ms + [m])[..|ms|] == ms;
  }

  lemma BeganSame(ms: seq<Moment>, p: RunLease.Pid)
    requires ms != [] && RunLease.Legal(Locks(ms[..|ms| - 1])) && Within(ms[..|ms| - 1], p)
    ensures var front, i := ms[..|ms| - 1], Began(ms, p);
            && i == Began(front, p) && i <= |front|
            && ms[..i] == front[..i] && ms[i..] == front[i..] + [ms[|ms| - 1]]
  {
    var front := ms[..|ms| - 1];
    var i := Began(front, p);
    assert ms[i..] == front[i..] + [ms[|ms| - 1]];
  }

  lemma CallsSnoc(ms: seq<Moment>, m: Moment)
    ensures Calls(ms + [m]) == if m.Called? then Calls(ms) + [m.entry] else Calls(ms)
  {
    assert (ms + [m])[..|ms|] == ms;
  }

  // ----- The serial history -----

  /** `hs` is a serial history of all sessions that have ended; the open one, if there is one, has done
      the first calls of its run. */
  ghost predicate Serialized(cfg: Config, ms: seq<Moment>, code: Code, hs: seq<Happening>)
    requires RunLease.Legal(Locks(ms))
  {
    && History(cfg, hs)
    && (forall p | Within(ms, p) :: Open(cfg, ms, code, hs, p))
    && ((forall p :: !Within(ms, p)) ==> Since(cfg, hs).world == Shared(cfg, ms))
  }

  ghost predicate Open(cfg: Config, ms: seq<Moment>, code: Code, hs: seq<Happening>, p: RunLease.Pid)
    requires History(cfg, hs)
  {
    var i := Began(ms, p);
    && Since(cfg, hs).world == Shared(cfg, ms[..i]) && AllBy(ms[i..], p)
    && (Calls(ms[i..]) == [] || OnTrack(cfg, ms, code, p))
  }

  lemma HistoryExtend(cfg: Config, hs: seq<Happening>, h: Happening)
    requires History(cfg, hs) && Possible(cfg, Since(cfg, hs).world, h)
    ensures History(cfg, hs + [h]) && Since(cfg, hs + [h]) == Happen(cfg, Since(cfg, hs), h)
  {
    hide Happen, Possible;
    assert (hs + [h])[..|hs|] == hs;
  }

  lemma {:induction false} AddArrivals(cfg: Config, hs: seq<Happening>, mails: seq<Mail>) returns (longer: seq<Happening>)
    requires History(cfg, hs) && NewMails(cfg, Since(cfg, hs).world, mails)
    ensures History(cfg, longer) && Since(cfg, longer).world == WithMails(Since(cfg, hs).world, mails)
  {
    hide History, Since, Possible;
    longer := hs;
    if mails != [] {
      var last := mails[|mails| - 1];
      var before := AddArrivals(cfg, hs, mails[..|mails| - 1]);
      HistoryExtend(cfg, before, Arrive(last));
      longer := before + [Arrive(last)];
    }
  }

  /** The calls of the open session as a run of the history, killed where the session stands. */
  lemma KilledSession(cfg: Config, w: World, run: Happening, calls: seq<Entry>, hs: seq<Happening>)
    returns (longer: seq<Happening>)
    requires History(cfg, hs) && Since(cfg, hs).world == w
    requires run.Run? && Possible(cfg, w, run)
    requires calls <= Made(Sys(w, run.script, run.start, []), RunFrom(cfg, w, run))
    ensures History(cfg, longer) && Since(cfg, longer).world == WorldAfter(w, calls)
    ensures forall e | e in calls :: Knows(w, e.op)
  {
    hide WorldAfter, Made, CutAt, ProcessMailbox, History, Since, Knows;
    var n := |calls|;
    var s := Sys(w, run.script, run.start, []);
    var killed := Run(CutAt(run.script, n), run.start, run.page);
    var t := Sys(w, killed.script, run.start, Since(cfg, hs).log);
    var deadline := run.start + RUN_DEADLINE_US;
    CutRun(cfg, s, t, n, run.page, deadline);
    KilledWorld(s, t, n, ProcessMailbox(cfg, s, run.page, deadline), ProcessMailbox(cfg, t, run.page, deadline));
    assert Made(s, RunFrom(cfg, w, run))[..n] == calls;
    HistoryExtend(cfg, hs, killed);
    longer := hs + [killed];
  }

  /** The open session as one more run of the history, and behind it what has arrived since. */
  lemma CloseSession(cfg: Config, ms: seq<Moment>, code: Code, hs: seq<Happening>, p: RunLease.Pid)
    returns (closed: seq<Happening>)
    requires Interleaving(cfg, ms) && History(cfg, hs) && Open(cfg, ms, code, hs, p)
    ensures History(cfg, closed) && Since(cfg, closed).world == Shared(cfg, ms)
  {
    hide Interleaving, Shared, Calls, Arrivals, WithMails, WorldAfter, Made, RunFrom, History, Since, Began, Knows;
    var i := Began(ms, p);
    var w, calls := Shared(cfg, ms[..i]), Calls(ms[i..]);
    closed := hs;
    if calls == [] {
      assert WorldAfter(w, []) == w by { NothingHappened(w); }
    } else {
      closed := KilledSession(cfg, w, code(i), calls, hs);
    }
    SharedFrom(cfg, ms, i);
    closed := AddArrivals(cfg, closed, Arrivals(ms[i..]));
  }

  lemma NothingHappened(w: World)
    ensures WorldAfter(w, []) == w
  {
  }

  /** A call continues the open session. */
  lemma CalledStep(cfg: Config, ms: seq<Moment>, code: Code, hs: seq<Happening>)
    requires ms != [] && ms[|ms| - 1].Called? && Interleaving(cfg, ms) && Obeys(cfg, ms, code)
    requires RunLease.Legal(Locks(ms[..|ms| - 1])) && Serialized(cfg, ms[..|ms| - 1], code, hs)
    requires RunLease.Exclusive(RunLease.After(Locks(ms[..|ms| - 1])))
    ensures RunLease.Legal(Locks(ms)) && Serialized(cfg, ms, code, hs)
  {
    hide OnTrack, Shared, Calls, History, Since, Began, Possible;
    var front, last := ms[..|ms| - 1], ms[|ms| - 1];
    assert Locks(ms) == Locks(front);
    forall p | Within(ms, p)
      ensures Open(cfg, ms, code, hs, p)
    {
      assert p == last.p;
      BeganSame(ms, p);
      assert Open(cfg, front, code, hs, p);
      assert AllBy(ms[Began(ms, p)..], p);
    }
    assert Within(ms, last.p);
  }

  /** Between sessions a happening joins the history; an arrival leaves an open session as it is. */
  lemma ApartStep(cfg: Config, ms: seq<Moment>, code: Code, hs: seq<Happening>) returns (longer: seq<Happening>)
    requires ms != [] && ms[|ms| - 1].Apart? && Interleaving(cfg, ms)
    requires RunLease.Legal(Locks(ms[..|ms| - 1])) && Serialized(cfg, ms[..|ms| - 1], code, hs)
    ensures RunLease.Legal(Locks(ms)) && Serialized(cfg, ms, code, longer)
  {
    var front, h := ms[..|ms| - 1], ms[|ms| - 1].h;
    hide Open, History, Since, Possible;
    assert Locks(ms) == Locks(front);
    assert forall p :: Within(ms, p) == Within(front, p);
    longer := hs;
    if p :| Within(front, p) {
      forall q | Within(ms, q)
        ensures Open(cfg, ms, code, hs, q)
      {
        StillOpen(cfg, ms, code, hs, q);
      }
    } else {
      HistoryExtend(cfg, hs, h);
      longer := hs + [h];
    }
  }

  /** A lease operation leaves the session open, ends it, opens one, or does neither. */
  lemma LockStep(cfg: Config, ms: seq<Moment>, code: Code, hs: seq<Happening>) returns (longer: seq<Happening>)
    requires ms != [] && ms[|ms| - 1].Lock? && Interleaving(cfg, ms)
    requires RunLease.Legal(Locks(ms[..|ms| - 1])) && Serialized(cfg, ms[..|ms| - 1], code, hs)
    requires RunLease.Legal(Locks(ms)) && RunLease.Exclusive(RunLease.After(Locks(ms)))
    requires RunLease.Exclusive(RunLease.After(Locks(ms[..|ms| - 1])))
    ensures Serialized(cfg, ms, code, longer)
  {
    var front, step := ms[..|ms| - 1], ms[|ms| - 1].step;
    hide OnTrack, History, Since, Possible, AllBy;
    RunLease.Extend(Locks(front), step);
    RunLease.Frame(RunLease.After(Locks(front)), step);
    assert Shared(cfg, ms) == Shared(cfg, front);
    longer := hs;
    if p :| Within(front, p) {
      if Within(ms, p) {
        assert forall q | Within(ms, q) :: q == p;
        StillOpen(cfg, ms, code, hs, p);
      } else {
        assert forall q :: !Within(ms, q);
        longer := CloseSession(cfg, front, code, hs, p);
      }
    } else {
      forall p | Within(ms, p)
        ensures Open(cfg, ms, code, hs, p)
      {
        assert Began(ms, p) == |ms| && ms[..|ms|] == ms && ms[|ms|..] == [];
        assert AllBy([], p) by { NobodyCalls(p); }
      }
    }
  }

  lemma NobodyCalls(p: RunLease.Pid)
    ensures AllBy([], p)
  {
  }

  lemma StillOpen(cfg: Config, ms: seq<Moment>, code: Code, hs: seq<Happening>, p: RunLease.Pid)
    requires ms != [] && RunLease.Legal(Locks(ms[..|ms| - 1])) && Within(ms[..|ms| - 1], p)
    requires ms[|ms| - 1].Lock? || (ms[|ms| - 1].Apart? && ms[|ms| - 1].h.Arrive?)
    requires History(cfg, hs) && Open(cfg, ms[..|ms| - 1], code, hs, p)
    ensures Open(cfg, ms, code, hs, p)
  {
    hide Shared, Calls, History, Since, Possible, Began, Made, RunFrom;
    BeganSame(ms, p);
    CallsSnoc(ms[..|ms| - 1][Began(ms, p)..], ms[|ms| - 1]);
  }

  lemma StaysFront(steps: seq<RunLease.Step>, bound: int)
    requires RunLease.Legal(steps) && steps != [] && RunLease.StaysWithin(steps, bound)
    ensures RunLease.Legal(steps[..|steps| - 1]) && RunLease.StaysWithin(steps[..|steps| - 1], bound)
  {
    var front := steps[..|steps| - 1];
    RunLease.LegalPrefix(steps, |front|);
    assert forall i | 0 <= i <= |front| :: front[..i] == steps[..i];
  }

  lemma {:induction false} Serialize(cfg: Config, ms: seq<Moment>, code: Code) returns (hs: seq<Happening>)
    requires Interleaving(cfg, ms) && Obeys(cfg, ms, code) && RunLease.Legal(Locks(ms))
    requires RunLease.StaysWithin(Locks(ms), RunLease.STALE_US)
    ensures Serialized(cfg, ms, code, hs)
  {
    hide *;
    RunLease.Exclusion(Locks(ms));
    if ms == [] {
      hs := [];
      NothingSerialized(cfg, code);
    } else {
      var front, last := ms[..|ms| - 1], ms[|ms| - 1];
      FrontToo(cfg, ms, code);
      LocksAreLegal(cfg, front);
      LocksFront(ms);
      if last.Lock? { StaysFront(Locks(ms), RunLease.STALE_US); }
      hs := Serialize(cfg, front, code);
      RunLease.Exclusion(Locks(front));
      match last {
        case Lock(_) => hs := LockStep(cfg, ms, code, hs);
        case Called(_, _) => CalledStep(cfg, ms, code, hs);
        case Apart(_) => hs := ApartStep(cfg, ms, code, hs);
      }
    }
  }

  lemma LocksFront(ms: seq<Moment>)
    requires ms != []
    ensures var steps, before := Locks(ms), Locks(ms[..|ms| - 1]);
            if ms[|ms| - 1].Lock? then steps != [] && steps[..|steps| - 1] == before else steps == before
  {
  }

  lemma NothingSerialized(cfg: Config, code: Code)
    ensures RunLease.Legal(Locks([])) && Serialized(cfg, [], code, [])
  {
    hide Open;
    assert Locks([]) == [];
    assert forall p :: !Within([], p);
  }

  lemma FrontToo(cfg: Config, ms: seq<Moment>, code: Code)
    requires ms != [] && Interleaving(cfg, ms) && Obeys(cfg, ms, code)
    ensures Interleaving(cfg, ms[..|ms| - 1]) && Obeys(cfg, ms[..|ms| - 1], code)
  {
  }

  /** At every moment of every interleaving in which holders stay within the staleness window, the
      shared world is that of a serial history of runs. */
  lemma RunsAreSerial(cfg: Config, ms: seq<Moment>, code: Code) returns (hs: seq<Happening>)
    requires Interleaving(cfg, ms) && Obeys(cfg, ms, code) && RunLease.Legal(Locks(ms))
    requires RunLease.StaysWithin(Locks(ms), RunLease.STALE_US)
    ensures History(cfg, hs) && Since(cfg, hs).world == Shared(cfg, ms)
  {
    hs := Serialize(cfg, ms, code);
    hide Shared, Open, History, Since;
    if p :| Within(ms, p) {
      hs := CloseSession(cfg, ms, code, hs, p);
    }
  }

  /** So no label lies and no mail is lost, at any moment, with any number of processes. */
  lemma TruthfulTogether(cfg: Config, ms: seq<Moment>, code: Code)
    requires Configured(cfg) && Interleaving(cfg, ms) && Obeys(cfg, ms, code) && RunLease.Legal(Locks(ms))
    requires RunLease.StaysWithin(Locks(ms), RunLease.STALE_US)
    ensures Truthful(cfg, Shared(cfg, ms))
  {
    hide Truthful, Shared, Interleaving, Obeys;
    var hs := RunsAreSerial(cfg, ms, code);
    AlwaysTruthful(cfg, hs);
  }

  // ----- From the time of one call -----

  /** A process is inside for no longer than its own set-up, its own run and the release take. */
  ghost predicate OnTime(cfg: Config, ms: seq<Moment>, code: Code, c: nat, setup: nat, p: RunLease.Pid)
    requires RunLease.Legal(Locks(ms)) && Within(ms, p)
  {
    var i, state := Began(ms, p), RunLease.After(Locks(ms));
    var run, now := code(i), state.Of(p).now;
    && run.Run? && Timing.Quick(run.script, c) && now <= run.start <= now + setup
    && state.clock <= RunFrom(cfg, Shared(cfg, ms[..i]), run).now + c
  }

  ghost predicate Punctual(cfg: Config, ms: seq<Moment>, code: Code, c: nat, setup: nat) {
    ms == []
    || (&& Punctual(cfg, ms[..|ms| - 1], code, c, setup) && RunLease.Legal(Locks(ms))
        && forall p | Within(ms, p) :: OnTime(cfg, ms, code, c, setup, p))
  }

  lemma OnTimeStays(cfg: Config, ms: seq<Moment>, code: Code, c: nat, setup: nat, p: RunLease.Pid)
    requires RunLease.Legal(Locks(ms)) && Within(ms, p) && OnTime(cfg, ms, code, c, setup, p)
    requires setup + Timing.Max(5 * c, RUN_DEADLINE_US + Timing.EmailCalls(cfg) * c) + 2 * c <= RunLease.STALE_US
    ensures var state := RunLease.After(Locks(ms)); state.clock - state.Of(p).now <= RunLease.STALE_US
  {
    hide ProcessMailbox, Timing.EmailCalls, Began, Shared;
    var i := Began(ms, p);
    Timing.StampIsTime(Locks(ms), p);
    Timing.RunFitsLease(cfg, Sys(Shared(cfg, ms[..i]), code(i).script, code(i).start, []), code(i).page, c,
                        RunLease.After(Locks(ms)).Of(p).now, setup);
  }

  lemma {:induction false} PunctualStays(cfg: Config, ms: seq<Moment>, code: Code, c: nat, setup: nat)
    requires Interleaving(cfg, ms) && Punctual(cfg, ms, code, c, setup)
    requires setup + Timing.Max(5 * c, RUN_DEADLINE_US + Timing.EmailCalls(cfg) * c) + 2 * c <= RunLease.STALE_US
    ensures RunLease.Legal(Locks(ms)) && RunLease.StaysWithin(Locks(ms), RunLease.STALE_US)
  {
    hide Timing.EmailCalls, OnTime, Shared;
    LocksAreLegal(cfg, ms);
    if ms == [] {
      assert Locks(ms) == [] && Locks(ms)[..0] == [];
    } else {
      var front, last := ms[..|ms| - 1], ms[|ms| - 1];
      PunctualStays(cfg, front, code, c, setup);
      if last.Lock? {
        forall p | Within(ms, p)
          ensures var state := RunLease.After(Locks(ms)); state.clock - state.Of(p).now <= RunLease.STALE_US
        {
          OnTimeStays(cfg, ms, code, c, setup, p);
        }
        RunLease.Extend(Locks(front), last.step);
        assert Locks(ms) == Locks(front) + [last.step];
        RunLease.StaysLonger(Locks(front), last.step, RunLease.STALE_US);
      }
    }
  }

  /** Processes that each hold the lease for their own set-up, run and release leave the world of a
      serial history, as soon as these fit into the staleness window. */
  lemma PunctualRunsAreSerial(cfg: Config, ms: seq<Moment>, code: Code, c: nat, setup: nat) returns (hs: seq<Happening>)
    requires Interleaving(cfg, ms) && Obeys(cfg, ms, code) && Punctual(cfg, ms, code, c, setup)
    requires setup + Timing.Max(5 * c, 120_000_000 + Timing.EmailCalls(cfg) * c) + 2 * c <= 600_000_000
    ensures History(cfg, hs) && Since(cfg, hs).world == Shared(cfg, ms)
  {
    assert RUN_DEADLINE_US == 120_000_000 && RunLease.STALE_US == 600_000_000;
    hide *;
    PunctualStays(cfg, ms, code, c, setup);
    hs := RunsAreSerial(cfg, ms, code);
  }
}
