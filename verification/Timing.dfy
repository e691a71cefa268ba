/** How long a run can take, from the time one call can take: the hypothesis of the lease. */
module Timing {
  import opened Options
  import opened ClaimData
  import opened Plans
  import opened Pipeline
  import RunLease

  // ----- One Trello call -----

  const MAX_429_RETRIES: nat := 2
  const RETRY_BACKOFF_US: nat := 2 * 1_000_000
  const TOO_MANY: nat := 429

  datatype Response = Response(status: nat, took: nat)

  /** `TrelloClient._request` on the responses its attempts would get: the first that is not a 429,
      or the last of three, and how long that takes when one attempt takes at most `longest`. */
  method Request(replies: seq<Response>, ghost longest: nat) returns (response: Response, attempts: nat, elapsed: nat)
    requires |replies| >= 3 && forall i | 0 <= i < |replies| :: replies[i].took <= longest
    ensures 1 <= attempts <= 3 && response == replies[attempts - 1]
    ensures forall i | 0 <= i < attempts - 1 :: replies[i].status == TOO_MANY
    ensures response.status == TOO_MANY ==> attempts == 3
    ensures elapsed == TimeOf(replies[..attempts]) + (attempts - 1) * 2_000_000
    ensures elapsed <= attempts * longest + (attempts - 1) * 2_000_000
  {
    elapsed := 0;
    attempts := 0;
    response := replies[0];
    for attempt := 0 to MAX_429_RETRIES + 1
      invariant attempts == attempt
      invariant forall i | 0 <= i < attempt :: replies[i].status == TOO_MANY
      invariant attempt > 0 ==> response == replies[attempt - 1]
      invariant elapsed == TimeOf(replies[..attempt])
                           + (if attempt <= MAX_429_RETRIES then attempt else attempt - 1) * RETRY_BACKOFF_US
    {
      assert replies[..attempt + 1][..attempt] == replies[..attempt];
      response := replies[attempt];
      attempts := attempt + 1;
      elapsed := elapsed + response.took;
      if response.status != TOO_MANY { break; }
      if attempt < MAX_429_RETRIES { elapsed := elapsed + RETRY_BACKOFF_US; }
    }
    TimeAtMost(replies[..attempts], longest);
  }

  /** How long these attempts take together. */
  function TimeOf(replies: seq<Response>): nat {
    if replies == [] then 0 else TimeOf(replies[..|replies| - 1]) + replies[|replies| - 1].took
  }

  lemma {:induction false} TimeAtMost(replies: seq<Response>, longest: nat)
    requires forall i | 0 <= i < |replies| :: replies[i].took <= longest
    ensures TimeOf(replies) <= |replies| * longest
  {
    if replies != [] {
      TimeAtMost(replies[..|replies| - 1], longest);
      assert |replies| * longest == (|replies| - 1) * longest + longest;
    }
  }

  // ----- One run -----

  predicate Quick(script: seq<Event>, c: nat) {
    forall e | e in script :: e.took <= c
  }

  /** From `s` to `t` in at most `calls` calls, each logged, and in the time they may take. */
  ghost predicate Within(s: Sys, t: Sys, c: nat, calls: nat) {
    && Quick(t.script, c) && s.now <= t.now <= s.now + calls * c
    && |s.log| <= |t.log| <= |s.log| + calls
  }

  lemma CallTime(s: Sys, op: Op, c: nat)
    requires Quick(s.script, c)
    ensures Within(s, Call(s, op).sys, c, 1)
  {
    if s.script != [] {
      assert s.script[0] in s.script;
      assert forall e | e in s.script[1..] :: e in s.script;
    }
  }

  lemma WithinThen(s: Sys, t: Sys, u: Sys, c: nat, m: nat, n: nat)
    requires Within(s, t, c, m) && Within(t, u, c, n)
    ensures Within(s, u, c, m + n)
  {
    assert (m + n) * c == m * c + n * c;
  }

  lemma WithinMore(s: Sys, t: Sys, c: nat, m: nat, n: nat)
    requires Within(s, t, c, m) && m <= n
    ensures Within(s, t, c, n)
  {
    assert m * c <= n * c;
  }

  lemma {:induction false} SearchTime(cfg: Config, s: Sys, ref: Ref, k: nat, c: nat)
    requires Quick(s.script, c) && k <= cfg.lists + 1
    ensures Within(s, SearchFrom(cfg, s, ref, k).sys, c, cfg.lists + 1 - k)
    decreases cfg.lists + 1 - k
  {
    hide Call;
    if k <= cfg.lists {
      var o := Call(s, Browse);
      CallTime(s, Browse, c);
      SearchTime(cfg, o.sys, ref, k + 1, c);
      hide SearchFrom;
      WithinThen(s, o.sys, SearchFrom(cfg, o.sys, ref, k + 1).sys, c, 1, cfg.lists - k);
      WithinMore(s, o.sys, c, 1, cfg.lists + 1 - k);
      SearchTimeStep(cfg, s, ref, k, c);
    }
  }

  lemma SearchTimeStep(cfg: Config, s: Sys, ref: Ref, k: nat, c: nat)
    requires k <= cfg.lists
    ensures SearchFrom(cfg, s, ref, k).sys == Call(s, Browse).sys
            || SearchFrom(cfg, s, ref, k).sys == SearchFrom(cfg, Call(s, Browse).sys, ref, k + 1).sys
  {
  }

  /** Calls of one email, its relabel included: a comment asks the extractor, lists the board's lists,
      reads each of them and the archive, and writes; a card takes eight calls at most. */
  function EmailCalls(cfg: Config): nat {
    if cfg.lists + 4 > 7 then cfg.lists + 5 else 8
  }

  lemma UnitTime(cfg: Config, s: Sys, ref: Ref, name: string, text: string, c: nat)
    requires Quick(s.script, c)
    ensures var o := CreateFullCard(cfg, s, ref, name, text);
            Within(s, o.sys, c, if o.result.Returned? then 3 else 4)
  {
    hide Call;
    var n := |s.world.cards|;
    var created := Call(s, Create(ref, name, cfg.target));
    CallTime(s, Create(ref, name, cfg.target), c);
    var attached := Call(created.sys, Attach(ref, n));
    CallTime(created.sys, Attach(ref, n), c);
    var announced := Call(attached.sys, Announce(ref, n, text));
    CallTime(attached.sys, Announce(ref, n, text), c);
    CallTime(attached.sys, Delete(ref, n), c);
    CallTime(announced.sys, Delete(ref, n), c);
  }

  lemma FilingTime(cfg: Config, s: Sys, ref: Ref, name: Option<string>, text: string, c: nat)
    requires Quick(s.script, c)
    ensures Within(s, FileClaim(cfg, s, ref, name, text).sys, c, 5)
  {
    hide Call, CreateFullCard;
    var letterhead := Call(s, Letterhead);
    CallTime(s, Letterhead, c);
    if letterhead.result.Returned? && name.Some? {
      UnitTime(cfg, letterhead.sys, ref, name.value, text, c);
      var unit := CreateFullCard(cfg, letterhead.sys, ref, name.value, text);
      if unit.result.Returned? {
        CallTime(unit.sys, Record(ref, unit.result.value), c);
      }
    }
  }

  lemma CommentTime(cfg: Config, s: Sys, ref: Ref, text: string, c: nat)
    requires Quick(s.script, c)
    ensures Within(s, PostComment(cfg, s, ref, text).sys, c, cfg.lists + 3)
  {
    hide Call, SearchFrom;
    var browsed := Call(s, Browse);
    CallTime(s, Browse, c);
    var found := FindCard(cfg, s, ref);
    WithinMore(s, browsed.sys, c, 1, cfg.lists + 2);
    SearchTime(cfg, browsed.sys, ref, 0, c);
    WithinThen(s, browsed.sys, SearchFrom(cfg, browsed.sys, ref, 0).sys, c, 1, cfg.lists + 1);
    assert Within(s, found.sys, c, cfg.lists + 2);
    WithinMore(s, found.sys, c, cfg.lists + 2, cfg.lists + 3);
    if found.result.Returned? && found.result.value.Some? {
      var op := AddNote(found.result.value.value, text);
      CallTime(found.sys, op, c);
      WithinThen(s, found.sys, Call(found.sys, op).sys, c, cfg.lists + 2, 1);
    }
  }

  lemma EmailTime(cfg: Config, s: Sys, mail: Mail, c: nat)
    requires Quick(s.script, c)
    ensures Within(s, ProcessOne(cfg, s, mail).sys, c, EmailCalls(cfg) - 1)
  {
    hide Call, PostComment, FileClaim;
    var n := EmailCalls(cfg) - 1;
    if mail.plan != Reject(false) {
      var extracted := Call(s, Extract(mail));
      CallTime(s, Extract(mail), c);
      WithinMore(s, extracted.sys, c, 1, n);
      if extracted.result.Returned? {
        match mail.plan
        case Reject(_) =>
        case Comment(ref, text) =>
          var o := PostComment(cfg, extracted.sys, ref, text);
          CommentTime(cfg, extracted.sys, ref, text, c);
          WithinThen(s, extracted.sys, o.sys, c, 1, cfg.lists + 3);
          WithinMore(s, o.sys, c, cfg.lists + 4, n);
        case Card(ref, name, text) =>
          var known := Call(extracted.sys, LookUp(ref));
          CallTime(extracted.sys, LookUp(ref), c);
          WithinThen(s, extracted.sys, known.sys, c, 1, 1);
          WithinMore(s, known.sys, c, 2, n);
          if known.result.Returned? && ref !in known.sys.world.ledger {
            var o := FileClaim(cfg, known.sys, ref, name, text);
            FilingTime(cfg, known.sys, ref, name, text, c);
            WithinThen(s, known.sys, o.sys, c, 2, 5);
            WithinMore(s, o.sys, c, 7, n);
          }
      }
    } else {
      WithinMore(s, s, c, 0, n);
    }
  }

  function Max(a: int, b: int): int {
    if a < b then b else a
  }

  /** A loop that starts nothing after the deadline overshoots it by one turn at most. */
  lemma {:induction false} LoopTime(cfg: Config, s: Sys, mails: seq<Mail>, deadline: nat, tally: Tally, c: nat)
    requires Quick(s.script, c)
    ensures var t := ProcessAll(cfg, s, mails, deadline, tally).sys;
            Quick(t.script, c) && s.now <= t.now <= Max(s.now, deadline + EmailCalls(cfg) * c)
    decreases |mails|
  {
    hide ProcessOne, Call, EmailCalls;
    if mails != [] && s.now <= deadline {
      var one := ProcessOne(cfg, s, mails[0]);
      var op := Relabel(mails[0], Verdict(one.result));
      var relabel := Call(one.sys, op);
      EmailTime(cfg, s, mails[0], c);
      assert EmailCalls(cfg) * c == (EmailCalls(cfg) - 1) * c + c;
      CallTime(one.sys, op, c);
      if !one.result.Died? && relabel.result.Returned? {
        LoopTime(cfg, relabel.sys, mails[1..], deadline, tally.Add(Verdict(one.result)), c);
      }
    }
  }

  lemma {:induction false} FetchTime(s: Sys, ids: seq<Mail>, deadline: nat, got: seq<Mail>, c: nat)
    requires Quick(s.script, c)
    ensures var t := FetchAll(s, ids, deadline, got).sys;
            Quick(t.script, c) && s.now <= t.now <= Max(s.now, deadline + c)
    decreases |ids|
  {
    hide Call;
    if ids != [] && s.now <= deadline {
      CallTime(s, Fetch(ids[0]), c);
      var o := Call(s, Fetch(ids[0]));
      if o.result.Returned? {
        FetchTime(o.sys, ids[1..], deadline, got + [ids[0]], c);
      }
    }
  }

  lemma EnsureTime(s: Sys, cache: set<Label>, l: Label, c: nat)
    requires Quick(s.script, c)
    ensures Within(s, EnsureLabel(s, cache, l).sys, c, 2)
  {
    hide Call;
    CallTime(s, ListLabels, c);
    CallTime(Call(s, ListLabels).sys, CreateLabel(l), c);
  }

  lemma PageTime(cfg: Config, s: Sys, page: seq<Mail>, deadline: nat, c: nat)
    requires Quick(s.script, c)
    ensures var t := ProcessPage(cfg, s, page, deadline).sys;
            Quick(t.script, c) && s.now <= t.now <= Max(s.now + c, deadline + EmailCalls(cfg) * c) + c
  {
    hide Call, FetchAll, ProcessAll, InOrder, FailedOnPage;
    assert EmailCalls(cfg) * c >= c;
    hide EmailCalls;
    var listed := Call(s, ListUnread);
    CallTime(s, ListUnread, c);
    var got := FetchAll(listed.sys, page, deadline, []);
    FetchTime(listed.sys, page, deadline, [], c);
    if got.result.Returned? {
      var mails := InOrder(got.result.value);
      LoopTime(cfg, got.sys, mails, deadline, Tally(0, 0), c);
      var all := ProcessAll(cfg, got.sys, mails, deadline, Tally(0, 0));
      CallTime(all.sys, Gauge, c);
    }
  }

  /** A run overshoots its deadline by one email and one call at most. */
  lemma RunTime(cfg: Config, s: Sys, page: seq<Mail>, c: nat)
    requires Quick(s.script, c)
    ensures var t := ProcessMailbox(cfg, s, page, s.now + 120_000_000).sys;
            s.now <= t.now <= s.now + Max(5 * c, 120_000_000 + EmailCalls(cfg) * c) + c
  {
    hide EnsureLabel, ProcessPage, EmailCalls;
    var deadline := s.now + RUN_DEADLINE_US;
    var procesado := EnsureLabel(s, {}, PROCESADO);
    EnsureTime(s, {}, PROCESADO, c);
    if procesado.result.Returned? {
      var failed := EnsureLabel(procesado.sys, procesado.result.value, FAILED);
      EnsureTime(procesado.sys, procesado.result.value, FAILED, c);
      if failed.result.Returned? {
        PageTime(cfg, failed.sys, page, deadline, c);
      }
    }
  }

  /** The hypothesis of `RunLease.Exclusion`, from the time of one call: a run stamped at `now` whose
      set-up took at most `setup` has released its lease, one more call, within the staleness window. */
  lemma RunFitsLease(cfg: Config, s: Sys, page: seq<Mail>, c: nat, now: nat, setup: nat)
    requires Quick(s.script, c) && now <= s.now <= now + setup
    requires setup + Max(5 * c, RUN_DEADLINE_US + EmailCalls(cfg) * c) + 2 * c <= RunLease.STALE_US
    ensures ProcessMailbox(cfg, s, page, s.now + RUN_DEADLINE_US).sys.now + c - now <= RunLease.STALE_US
  {
    RunTime(cfg, s, page, c);
  }

  /** A process stamped at `now` can be inside at `clock`: its set-up, its run and its release call
      have not taken longer than that. */
  ghost predicate Occupies(cfg: Config, c: nat, setup: nat, now: int, clock: int, s: Sys, page: seq<Mail>) {
    && Quick(s.script, c) && now <= s.now <= now + setup
    && clock <= ProcessMailbox(cfg, s, page, s.now + RUN_DEADLINE_US).sys.now + c
  }

  ghost predicate RunsMailboxes(cfg: Config, c: nat, setup: nat, state: RunLease.State) {
    forall p :: state.Of(p).Inside? ==>
      exists s, page :: Occupies(cfg, c, setup, state.Of(p).now, state.clock, s, page)
  }

  /** Processes that hold the lease only for a set-up, a mailbox run and the release exclude each
      other in every interleaving, as soon as these fit into the staleness window. */
  lemma RunsExclude(cfg: Config, c: nat, setup: nat, steps: seq<RunLease.Step>)
    requires RunLease.Legal(steps)
    requires setup + Max(5 * c, RUN_DEADLINE_US + EmailCalls(cfg) * c) + 2 * c <= RunLease.STALE_US
    requires forall i | 0 <= i <= |steps| ::
               RunLease.Legal(steps[..i]) && RunsMailboxes(cfg, c, setup, RunLease.After(steps[..i]))
    ensures RunLease.Exclusive(RunLease.After(steps))
  {
    hide ProcessMailbox, EmailCalls;
    forall i | 0 <= i <= |steps|
      ensures RunLease.Legal(steps[..i]) && RunLease.Stays(RunLease.After(steps[..i]), RunLease.STALE_US)
    {
      var state := RunLease.After(steps[..i]);
      forall p: RunLease.Pid | state.Of(p).Inside?
        ensures state.clock - state.Of(p).now <= RunLease.STALE_US
      {
        var now := state.Of(p).now;
        var s, page :| Occupies(cfg, c, setup, now, state.clock, s, page);
        StampIsTime(steps[..i], p);
        RunFitsLease(cfg, s, page, c, now, setup);
      }
    }
    RunLease.Exclusion(steps);
  }

  lemma {:induction false} ClockIsTime(steps: seq<RunLease.Step>)
    requires RunLease.Legal(steps)
    ensures RunLease.After(steps).clock >= 0
    ensures forall p :: !RunLease.After(steps).Of(p).Idle? ==> RunLease.After(steps).Of(p).now >= 0
  {
    if steps != [] {
      ClockIsTime(steps[..|steps| - 1]);
      RunLease.Frame(RunLease.After(steps[..|steps| - 1]), steps[|steps| - 1]);
    }
  }

  lemma StampIsTime(steps: seq<RunLease.Step>, p: RunLease.Pid)
    requires RunLease.Legal(steps) && RunLease.After(steps).Of(p).Inside?
    ensures RunLease.After(steps).Of(p).now >= 0
  {
    ClockIsTime(steps);
  }
}
