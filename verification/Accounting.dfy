/** Card accounting: how many cards a claim can have on the board, in terms of the calls that
    went wrong.  The two laws are exact, for every history, whatever fails and wherever a run
    is killed. */
module Accounting {
  import opened Options
  import opened ClaimData
  import opened Collections
  import opened Plans
  import opened Pipeline
  import opened Truth

  /** A card of the claim that has not been deleted, complete or not. */
  function Standing(ref: Ref): BoardCard -> bool {
    (c: BoardCard) => c.ref == ref && !c.deleted
  }

  /** A card of the claim whose announcing comment landed, deleted since or not. */
  function AnnouncedCard(ref: Ref): BoardCard -> bool {
    (c: BoardCard) => c.ref == ref && c.announced.Some?
  }

  function Complete(ref: Ref): BoardCard -> bool {
    (c: BoardCard) => c.ref == ref && c.attached && c.announced.Some? && !c.deleted
  }

  function Partial(ref: Ref): BoardCard -> bool {
    (c: BoardCard) => c.ref == ref && !(c.attached && c.announced.Some?) && !c.deleted
  }

  /** A call that leaves a card of the claim behind without a ledger row. */
  function Leftover(ref: Ref): Entry -> bool {
    (e: Entry) => match e.op
      case Create(r, _, _) => r == ref && e.landed && !e.result.Returned?
      case Attach(r, _) => r == ref && e.result.Died?
      case Announce(r, _, _) => r == ref && e.result.Died?
      case Delete(r, _) => r == ref && !e.landed
      case Record(r, _) => r == ref && !e.landed
      case _ => false
  }

  /** An interruption between the comment landing and the row landing. */
  function Cut(ref: Ref): Entry -> bool {
    (e: Entry) => match e.op
      case Announce(r, _, _) => r == ref && e.landed && !e.result.Returned?
      case Record(r, _) => r == ref && !e.landed
      case _ => false
  }

  /** An interruption inside `create_full_card` whose compensating delete did not land. */
  function LeftPartial(ref: Ref): Entry -> bool {
    (e: Entry) => Leftover(ref)(e) && !e.op.Record?
  }

  /** A card announced and deleted again, or announced without the attachment. */
  function Undone(ref: Ref): BoardCard -> bool {
    (c: BoardCard) => c.ref == ref && c.announced.Some? && c.deleted
  }

  function Bare(ref: Ref): BoardCard -> bool {
    (c: BoardCard) => c.ref == ref && c.announced.Some? && !c.attached
  }

  /** A comment that landed although its call failed. */
  function Aborted(ref: Ref): Entry -> bool {
    (e: Entry) => match e.op
      case Announce(r, _, _) => r == ref && e.landed && !e.result.Returned?
      case _ => false
  }

  function Rows(w: World, ref: Ref): nat {
    if ref in w.ledger then 1 else 0
  }

  function StandingGap(w: World, log: seq<Entry>, ref: Ref): int {
    Count(w.cards, Standing(ref)) - Rows(w, ref) - Count(log, Leftover(ref))
  }

  function AnnouncedGap(w: World, log: seq<Entry>, ref: Ref): int {
    Count(w.cards, AnnouncedCard(ref)) - Rows(w, ref) - Count(log, Cut(ref))
  }

  /** Aborted announcements that no delete has undone. */
  function Slack(w: World, log: seq<Entry>, ref: Ref): int {
    Count(log, Aborted(ref)) - Count(w.cards, Undone(ref))
  }

  ghost predicate Balanced(w: World, log: seq<Entry>, ref: Ref) {
    && StandingGap(w, log, ref) == 0 && AnnouncedGap(w, log, ref) == 0
    && Slack(w, log, ref) >= 0 && Count(w.cards, Bare(ref)) == 0
  }

  function One(b: bool): nat {
    if b then 1 else 0
  }

  lemma GapsLog(w: World, log: seq<Entry>, e: Entry, ref: Ref)
    ensures StandingGap(w, log + [e], ref) == StandingGap(w, log, ref) - One(Leftover(ref)(e))
    ensures AnnouncedGap(w, log + [e], ref) == AnnouncedGap(w, log, ref) - One(Cut(ref)(e))
    ensures Slack(w, log + [e], ref) == Slack(w, log, ref) + One(Aborted(ref)(e))
  {
    CountSnoc(log, e, Aborted(ref));
    CountSnoc(log, e, Leftover(ref));
    CountSnoc(log, e, Cut(ref));
  }

  lemma GapsPlus(w: World, c: BoardCard, log: seq<Entry>, ref: Ref)
    ensures StandingGap(Plus(w, c), log, ref) == StandingGap(w, log, ref) + One(Standing(ref)(c))
    ensures AnnouncedGap(Plus(w, c), log, ref) == AnnouncedGap(w, log, ref) + One(AnnouncedCard(ref)(c))
    ensures Slack(Plus(w, c), log, ref) == Slack(w, log, ref) - One(Undone(ref)(c))
    ensures Count(Plus(w, c).cards, Bare(ref)) == Count(w.cards, Bare(ref)) + One(Bare(ref)(c))
  {
    CountSnoc(w.cards, c, Undone(ref));
    CountSnoc(w.cards, c, Bare(ref));
    CountSnoc(w.cards, c, Standing(ref));
    CountSnoc(w.cards, c, AnnouncedCard(ref));
  }

  /** Two boards on which every card keeps its ref and its state count alike. */
  lemma {:induction false} CountAlike(cards: seq<BoardCard>, cards': seq<BoardCard>, p: BoardCard -> bool)
    requires |cards| == |cards'| && forall i | 0 <= i < |cards| :: p(cards[i]) == p(cards'[i])
    ensures Count(cards, p) == Count(cards', p)
  {
    if cards != [] {
      CountAlike(cards[..|cards| - 1], cards'[..|cards| - 1], p);
    }
  }

  lemma GapsAlike(w: World, w': World, log: seq<Entry>, ref: Ref)
    requires w.ledger == w'.ledger && |w.cards| == |w'.cards|
    requires forall i | 0 <= i < |w.cards| ::
               w'.cards[i] == w.cards[i].(notes := w'.cards[i].notes, place := w'.cards[i].place)
    ensures StandingGap(w, log, ref) == StandingGap(w', log, ref)
    ensures AnnouncedGap(w, log, ref) == AnnouncedGap(w', log, ref)
    ensures Slack(w, log, ref) == Slack(w', log, ref)
    ensures Count(w.cards, Bare(ref)) == Count(w'.cards, Bare(ref))
  {
    CountAlike(w.cards, w'.cards, Undone(ref));
    CountAlike(w.cards, w'.cards, Bare(ref));
    CountAlike(w.cards, w'.cards, Standing(ref));
    CountAlike(w.cards, w'.cards, AnnouncedCard(ref));
  }

  /** Calls that neither file nor create nor complete nor delete. */
  predicate Neutral(op: Op) {
    !op.Create? && !op.Attach? && !op.Announce? && !op.Delete? && !op.Record?
  }

  lemma NeutralCall(s: Sys, op: Op, ref: Ref)
    requires Neutral(op)
    ensures var t := Call(s, op).sys;
            && StandingGap(t.world, t.log, ref) == StandingGap(s.world, s.log, ref)
            && AnnouncedGap(t.world, t.log, ref) == AnnouncedGap(s.world, s.log, ref)
            && Slack(t.world, t.log, ref) == Slack(s.world, s.log, ref)
            && Count(t.world.cards, Bare(ref)) == Count(s.world.cards, Bare(ref))
            && t.world.ledger == s.world.ledger
  {
    var o := Call(s, op);
    var e := o.sys.log[|s.log|];
    GapsAlike(s.world, o.sys.world, s.log, ref);
    GapsLog(o.sys.world, s.log, e, ref);
  }

  // ----- The card unit -----

  /** One call on the card just created: its flags move, and the log notes what was left behind. */
  lemma UnitCall(w: World, c: BoardCard, s: Sys, op: Op, ref: Ref) returns (c': BoardCard)
    requires s.world == Plus(w, c) && (op.Attach? || op.Announce? || op.Delete?)
    requires op.ref == c.ref && op.card == |w.cards|
    ensures var t := Call(s, op).sys;
            var e := Entry(op, t.log[|s.log|].landed, Call(s, op).result);
            && |t.log| == |s.log| + 1 && t.log[|s.log|] == e && t.world == Plus(w, c')
            && (Call(s, op).result.Returned? ==> e.landed)
            && c' == (if !e.landed then c
                      else match op
                           case Attach(_, _) => c.(attached := true)
                           case Announce(_, _, text) => c.(announced := Some(text))
                           case _ => c.(deleted := true))
            && StandingGap(t.world, t.log, ref)
               == StandingGap(w, s.log, ref) + One(Standing(ref)(c')) - One(Leftover(ref)(e))
            && AnnouncedGap(t.world, t.log, ref)
               == AnnouncedGap(w, s.log, ref) + One(AnnouncedCard(ref)(c')) - One(Cut(ref)(e))
            && Slack(t.world, t.log, ref) == Slack(w, s.log, ref) - One(Undone(ref)(c')) + One(Aborted(ref)(e))
            && Count(t.world.cards, Bare(ref)) == Count(w.cards, Bare(ref)) + One(Bare(ref)(c'))
  {
    ApplyLast(w, c, op);
    var t := Call(s, op).sys;
    var e := t.log[|s.log|];
    c' := if !e.landed then c
          else match op
               case Attach(_, _) => c.(attached := true)
               case Announce(_, _, text) => c.(announced := Some(text))
               case _ => c.(deleted := true);
    GapsPlus(w, c', t.log, ref);
    GapsLog(w, s.log, e, ref);
  }

  /** What a stage of the unit makes of the gaps: a card handed on is still to be recorded. */
  ghost predicate Accounted(w: World, log: seq<Entry>, o: Out<nat>, unit: Ref, ref: Ref) {
    var due := One(o.result.Returned? && ref == unit);
    && StandingGap(o.sys.world, o.sys.log, ref) == StandingGap(w, log, ref) + due
    && AnnouncedGap(o.sys.world, o.sys.log, ref) == AnnouncedGap(w, log, ref) + due
    && Slack(o.sys.world, o.sys.log, ref) >= Slack(w, log, ref)
    && Count(o.sys.world.cards, Bare(ref)) == Count(w.cards, Bare(ref))
    && o.sys.world.ledger == w.ledger
  }

  lemma CompensateAccounts(w: World, c: BoardCard, s: Sys, log: seq<Entry>, unit: Ref, ref: Ref)
    requires s.world == Plus(w, c) && c.ref == unit && !c.deleted
    requires StandingGap(w, s.log, ref) == StandingGap(w, log, ref)
    requires AnnouncedGap(w, s.log, ref) + One(c.announced.Some? && ref == unit) == AnnouncedGap(w, log, ref)
    requires Slack(w, s.log, ref) == Slack(w, log, ref) + One(c.announced.Some? && ref == unit)
    requires c.announced.Some? ==> c.attached
    ensures Accounted(w, log, Compensate(s, unit, |w.cards|), unit, ref)
  {
    hide StandingGap, AnnouncedGap, Slack, Count;
    var _ := UnitCall(w, c, s, Delete(unit, |w.cards|), ref);
  }

  lemma AnnounceAccounts(w: World, c: BoardCard, s: Sys, log: seq<Entry>, unit: Ref, text: string, ref: Ref)
    requires s.world == Plus(w, c) && c.ref == unit && !c.deleted && c.announced.None? && c.attached
    requires StandingGap(w, s.log, ref) == StandingGap(w, log, ref)
    requires Slack(w, s.log, ref) == Slack(w, log, ref)
    requires AnnouncedGap(w, s.log, ref) == AnnouncedGap(w, log, ref)
    ensures var o := Call(s, Announce(unit, |w.cards|, text));
            && (o.result.Threw? ==> Accounted(w, log, Compensate(o.sys, unit, |w.cards|), unit, ref))
            && (!o.result.Threw? ==>
                  Accounted(w, log, Out(o.sys, if o.result.Died? then Died else Returned(|w.cards|)), unit, ref))
  {
    var op := Announce(unit, |w.cards|, text);
    var c' := UnitCall(w, c, s, op, ref);
    var o := Call(s, op);
    if o.result.Threw? {
      GapsLog(w, s.log, o.sys.log[|s.log|], ref);
      assert o.sys.log == s.log + [o.sys.log[|s.log|]];
      CompensateAccounts(w, c', o.sys, log, unit, ref);
    }
  }

  /** The unit from its attachment on. */
  lemma AttachAccounts(w: World, c: BoardCard, s: Sys, log: seq<Entry>, unit: Ref, text: string, ref: Ref)
    requires s.world == Plus(w, c) && c.ref == unit && !c.deleted && !c.announced.Some? && !c.attached
    requires StandingGap(w, s.log, ref) == StandingGap(w, log, ref)
    requires AnnouncedGap(w, s.log, ref) == AnnouncedGap(w, log, ref)
    requires Slack(w, s.log, ref) == Slack(w, log, ref)
    ensures Accounted(w, log, FromAttach(s, unit, |w.cards|, text), unit, ref)
  {
    hide Compensate, StandingGap, AnnouncedGap, Slack;
    var n := |w.cards|;
    var pinned := UnitCall(w, c, s, Attach(unit, n), ref);
    var attached := Call(s, Attach(unit, n));
    var e := attached.sys.log[|s.log|];
    assert attached.sys.log == s.log + [e];
    GapsLog(w, s.log, e, ref);
    if attached.result.Threw? {
      CompensateAccounts(w, pinned, attached.sys, log, unit, ref);
    } else if attached.result.Returned? {
      AnnounceAccounts(w, pinned, attached.sys, log, unit, text, ref);
    }
  }

  lemma UnitAccounts(cfg: Config, s: Sys, unit: Ref, name: string, text: string, ref: Ref)
    ensures Accounted(s.world, s.log, CreateFullCard(cfg, s, unit, name, text), unit, ref)
  {
    hide FromAttach, StandingGap, AnnouncedGap, Slack;
    var w := s.world;
    var op := Create(unit, name, cfg.target);
    var created := Call(s, op);
    var bare := BoardCard(unit, name, false, None, [], false, OnList(cfg.target));
    assert Apply(w, op) == Plus(w, bare);
    var e := created.sys.log[|s.log|];
    assert created.sys.log == s.log + [e];
    GapsLog(w, s.log, e, ref);
    GapsPlus(w, bare, created.sys.log, ref);
    if created.result.Returned? {
      AttachAccounts(w, bare, created.sys, s.log, unit, text, ref);
    }
  }

  // ----- Emails, runs, histories -----

  lemma RowAccounts(w: World, log: seq<Entry>, unit: Out<nat>, r: Ref, ref: Ref)
    requires Accounted(w, log, unit, r, ref) && r !in w.ledger
    ensures var t := FileRow(unit, r).sys;
            && StandingGap(t.world, t.log, ref) == StandingGap(w, log, ref)
            && AnnouncedGap(t.world, t.log, ref) == AnnouncedGap(w, log, ref)
            && Slack(t.world, t.log, ref) >= Slack(w, log, ref)
            && Count(t.world.cards, Bare(ref)) == Count(w.cards, Bare(ref))
  {
    hide StandingGap, AnnouncedGap, Slack, Bare;
    if unit.result.Returned? {
      RecordCall(unit.sys, r, unit.result.value, ref);
    }
  }

  /** A row that lands lowers both gaps of its claim; one that does not is logged, with the same effect. */
  lemma RecordCall(s: Sys, r: Ref, i: nat, ref: Ref)
    requires r !in s.world.ledger
    ensures var t := Call(s, Record(r, i)).sys;
            && StandingGap(t.world, t.log, ref) == StandingGap(s.world, s.log, ref) - One(r == ref)
            && AnnouncedGap(t.world, t.log, ref) == AnnouncedGap(s.world, s.log, ref) - One(r == ref)
            && Slack(t.world, t.log, ref) == Slack(s.world, s.log, ref)
            && t.world.cards == s.world.cards
  {
    var t := Call(s, Record(r, i)).sys;
    var e := t.log[|s.log|];
    RecordedRow(s.world, s.log, r, i, ref);
    GapsLog(t.world, s.log, e, ref);
    hide StandingGap, AnnouncedGap, Slack;
  }

  lemma RecordedRow(w: World, log: seq<Entry>, r: Ref, i: nat, ref: Ref)
    requires r !in w.ledger
    ensures var w' := Apply(w, Record(r, i));
            && StandingGap(w', log, ref) == StandingGap(w, log, ref) - One(r == ref)
            && AnnouncedGap(w', log, ref) == AnnouncedGap(w, log, ref) - One(r == ref)
            && Slack(w', log, ref) == Slack(w, log, ref) && w'.cards == w.cards
  {
    hide Count;
  }

  /** The gaps of a system after some calls are those of before. */
  ghost predicate SameGaps(s: Sys, t: Sys, ref: Ref) {
    && StandingGap(t.world, t.log, ref) == StandingGap(s.world, s.log, ref)
    && AnnouncedGap(t.world, t.log, ref) == AnnouncedGap(s.world, s.log, ref)
    && Slack(t.world, t.log, ref) >= Slack(s.world, s.log, ref)
    && Count(t.world.cards, Bare(ref)) == Count(s.world.cards, Bare(ref))
  }

  lemma {:induction false} SearchAccounts(cfg: Config, s: Sys, r: Ref, k: nat, ref: Ref)
    ensures SameGaps(s, SearchFrom(cfg, s, r, k).sys, ref)
    decreases cfg.lists + 1 - k
  {
    hide Call, StandingGap, AnnouncedGap, Slack;
    if k <= cfg.lists {
      NeutralCall(s, Browse, ref);
      var o := Call(s, Browse);
      if o.result.Returned? {
        SearchAccounts(cfg, o.sys, r, k + 1, ref);
      }
    }
  }

  lemma CommentAccounts(cfg: Config, s: Sys, r: Ref, text: string, ref: Ref)
    ensures SameGaps(s, PostComment(cfg, s, r, text).sys, ref)
  {
    hide Call, SearchFrom;
    NeutralCall(s, Browse, ref);
    SearchAccounts(cfg, Call(s, Browse).sys, r, 0, ref);
    var found := FindCard(cfg, s, r);
    if found.result.Returned? && found.result.value.Some? {
      NeutralCall(found.sys, AddNote(found.result.value.value, text), ref);
    }
  }

  lemma FilingAccounts(cfg: Config, s: Sys, r: Ref, name: Option<string>, text: string, ref: Ref)
    requires r !in s.world.ledger
    ensures SameGaps(s, FileClaim(cfg, s, r, name, text).sys, ref)
  {
    hide Call, CreateFullCard, FileRow;
    NeutralCall(s, Letterhead, ref);
    var letterhead := Call(s, Letterhead);
    if letterhead.result.Returned? && name.Some? {
      UnitAccounts(cfg, letterhead.sys, r, name.value, text, ref);
      RowAccounts(letterhead.sys.world, letterhead.sys.log, CreateFullCard(cfg, letterhead.sys, r, name.value, text), r, ref);
    }
  }

  lemma OneAccounts(cfg: Config, s: Sys, mail: Mail, ref: Ref)
    ensures SameGaps(s, ProcessOne(cfg, s, mail).sys, ref)
  {
    hide Call, PostComment, FileClaim, StandingGap, AnnouncedGap, Slack;
    if mail.plan != Reject(false) {
      NeutralCall(s, Extract(mail), ref);
      var extracted := Call(s, Extract(mail));
      if extracted.result.Returned? {
        match mail.plan
        case Reject(_) =>
        case Comment(r, text) => CommentAccounts(cfg, extracted.sys, r, text, ref);
        case Card(r, name, text) =>
          NeutralCall(extracted.sys, LookUp(r), ref);
          var known := Call(extracted.sys, LookUp(r));
          if known.result.Returned? && r !in known.sys.world.ledger {
            FilingAccounts(cfg, known.sys, r, name, text, ref);
          }
      }
    }
  }

  lemma {:induction false} LoopAccounts(cfg: Config, s: Sys, mails: seq<Mail>, deadline: nat, tally: Tally, ref: Ref)
    ensures SameGaps(s, ProcessAll(cfg, s, mails, deadline, tally).sys, ref)
    decreases |mails|
  {
    hide Call, ProcessOne, StandingGap, AnnouncedGap, Slack;
    if mails != [] && s.now <= deadline {
      var one := ProcessOne(cfg, s, mails[0]);
      OneAccounts(cfg, s, mails[0], ref);
      if !one.result.Died? {
        var relabel := Call(one.sys, Relabel(mails[0], Verdict(one.result)));
        NeutralCall(one.sys, Relabel(mails[0], Verdict(one.result)), ref);
        if relabel.result.Returned? {
          LoopAccounts(cfg, relabel.sys, mails[1..], deadline, tally.Add(Verdict(one.result)), ref);
        }
      }
    }
  }

  lemma {:induction false} FetchAccounts(s: Sys, ids: seq<Mail>, deadline: nat, got: seq<Mail>, ref: Ref)
    ensures SameGaps(s, FetchAll(s, ids, deadline, got).sys, ref)
    decreases |ids|
  {
    if ids != [] && s.now <= deadline {
      NeutralCall(s, Fetch(ids[0]), ref);
      var o := Call(s, Fetch(ids[0]));
      if o.result.Returned? {
        FetchAccounts(o.sys, ids[1..], deadline, got + [ids[0]], ref);
      }
    }
  }

  lemma EnsureAccounts(s: Sys, cache: set<Label>, l: Label, ref: Ref)
    ensures SameGaps(s, EnsureLabel(s, cache, l).sys, ref)
  {
    hide Call, StandingGap, AnnouncedGap, Slack;
    NeutralCall(s, ListLabels, ref);
    NeutralCall(Call(s, ListLabels).sys, CreateLabel(l), ref);
  }

  lemma PageAccounts(cfg: Config, s: Sys, page: seq<Mail>, deadline: nat, ref: Ref)
    ensures SameGaps(s, ProcessPage(cfg, s, page, deadline).sys, ref)
  {
    hide Call, FetchAll, ProcessAll, StandingGap, AnnouncedGap, Slack, InOrder, FailedOnPage;
    NeutralCall(s, ListUnread, ref);
    var listed := Call(s, ListUnread);
    FetchAccounts(listed.sys, page, deadline, [], ref);
    var got := FetchAll(listed.sys, page, deadline, []);
    if got.result.Returned? {
      LoopAccounts(cfg, got.sys, InOrder(got.result.value), deadline, Tally(0, 0), ref);
      var all := ProcessAll(cfg, got.sys, InOrder(got.result.value), deadline, Tally(0, 0));
      NeutralCall(all.sys, Gauge, ref);
    }
  }

  lemma RunAccounts(cfg: Config, s: Sys, page: seq<Mail>, deadline: nat, ref: Ref)
    ensures SameGaps(s, ProcessMailbox(cfg, s, page, deadline).sys, ref)
  {
    hide EnsureLabel, ProcessPage, StandingGap, AnnouncedGap, Slack;
    EnsureAccounts(s, {}, PROCESADO, ref);
    var procesado := EnsureLabel(s, {}, PROCESADO);
    if procesado.result.Returned? {
      EnsureAccounts(procesado.sys, procesado.result.value, FAILED, ref);
      var failed := EnsureLabel(procesado.sys, procesado.result.value, FAILED);
      if failed.result.Returned? {
        PageAccounts(cfg, failed.sys, page, deadline, ref);
      }
    }
  }

  lemma HappenAccounts(cfg: Config, past: Past, h: Happening, ref: Ref)
    requires Balanced(past.world, past.log, ref)
    ensures Balanced(Happen(cfg, past, h).world, Happen(cfg, past, h).log, ref)
  {
    hide ProcessMailbox, StandingGap, AnnouncedGap, Slack;
    if h.Run? {
      RunAccounts(cfg, Sys(past.world, h.script, h.start, past.log), h.page, h.start + RUN_DEADLINE_US, ref);
    } else {
      GapsAlike(past.world, Happen(cfg, past, h).world, past.log, ref);
    }
  }

  /** Both laws, for every claim, after any history. */
  lemma {:induction false} CardsAreAccountedFor(cfg: Config, hs: seq<Happening>, ref: Ref)
    requires History(cfg, hs)
    ensures Balanced(Since(cfg, hs).world, Since(cfg, hs).log, ref)
  {
    if hs != [] {
      hide Balanced, Happen, Possible;
      var before := hs[..|hs| - 1];
      CardsAreAccountedFor(cfg, before, ref);
      HappenAccounts(cfg, Since(cfg, before), hs[|hs| - 1], ref);
    }
  }

  lemma {:induction false} CountSplit(cards: seq<BoardCard>, ref: Ref)
    ensures Count(cards, Standing(ref)) == Count(cards, Complete(ref)) + Count(cards, Partial(ref))
    ensures Count(cards, AnnouncedCard(ref)) + Count(cards, Partial(ref))
            <= Count(cards, Standing(ref)) + Count(cards, Undone(ref)) + Count(cards, Bare(ref))
  {
    if cards != [] {
      CountSplit(cards[..|cards| - 1], ref);
    }
  }

  lemma {:induction false} LeftoverSplit(log: seq<Entry>, ref: Ref)
    ensures Count(log, Leftover(ref)) + Count(log, Aborted(ref)) == Count(log, LeftPartial(ref)) + Count(log, Cut(ref))
  {
    if log != [] {
      LeftoverSplit(log[..|log| - 1], ref);
    }
  }

  /** What the operator can count on.  Complete cards of a claim are at most its ledger row plus
      the interruptions between comment and row; partial cards are at most the interruptions of
      the unit whose delete did not land; the two together are exactly the row plus what was left
      behind.  While nothing is left behind there is one card per ledger row and none besides,
      however often the claim is delivered. */
  lemma CardsOfAClaim(cfg: Config, hs: seq<Happening>, ref: Ref)
    requires History(cfg, hs)
    ensures var p := Since(cfg, hs);
            var complete, partial := Count(p.world.cards, Complete(ref)), Count(p.world.cards, Partial(ref));
            && complete <= Rows(p.world, ref) + Count(p.log, Cut(ref))
            && partial <= Count(p.log, LeftPartial(ref))
            && complete + partial == Rows(p.world, ref) + Count(p.log, Leftover(ref))
            && (Count(p.log, Leftover(ref)) == 0 ==> partial == 0 && complete == Rows(p.world, ref))
  {
    var p := Since(cfg, hs);
    CardsAreAccountedFor(cfg, hs, ref);
    CountSplit(p.world.cards, ref);
    LeftoverSplit(p.log, ref);
    CountMono(p.world.cards, Complete(ref), AnnouncedCard(ref));
    LeftPartialLess(p.log, ref);
  }

  lemma LeftPartialLess(log: seq<Entry>, ref: Ref)
    ensures Count(log, LeftPartial(ref)) <= Count(log, Leftover(ref))
  {
    CountMono(log, LeftPartial(ref), Leftover(ref));
  }
}
