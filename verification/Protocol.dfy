/** The protocol of one email as a machine that makes one call at a time, and how a run fails: what the
    functions of `Pipeline` do call by call, whatever each call answers. */
module Protocol {
  import opened Options
  import opened ClaimData
  import opened Plans
  import opened Pipeline
  import opened Moments

  /** Before which call an email stands, or how it has ended. */
  datatype Stage =
    | AtExtract | AtLookUp | AtLetterhead | AtCreate
    | AtAttach(card: nat) | AtAnnounce(card: nat) | AtRecord(card: nat) | AtDelete(card: nat)
    | AtLists | AtPlace(k: nat) | AtNote(card: nat)
    | Done(action: Action) | Failed | Killed
  {
    predicate Final() {
      Done? || Failed? || Killed?
    }
  }

  ghost predicate Asks(cfg: Config, mail: Mail, st: Stage, op: Op) {
    var plan := mail.plan;
    match st
    case AtExtract => op == Extract(mail)
    case AtLookUp => plan.Card? && op == LookUp(plan.ref)
    case AtLetterhead => op == Letterhead
    case AtCreate => plan.Card? && plan.name.Some? && op == Create(plan.ref, plan.name.value, cfg.target)
    case AtAttach(card) => plan.Card? && op == Attach(plan.ref, card)
    case AtAnnounce(card) => plan.Card? && op == Announce(plan.ref, card, plan.text)
    case AtRecord(card) => plan.Card? && op == Record(plan.ref, card)
    case AtDelete(card) => plan.Card? && op == Delete(plan.ref, card)
    case AtLists => op == Browse
    case AtPlace(_) => op == Browse
    case AtNote(card) => plan.Comment? && op == AddNote(card, plan.text)
    case _ => false
  }

  /** Where a call that returns leads, by what it showed of the world. */
  ghost function OnReturn(cfg: Config, mail: Mail, st: Stage, w: World): Stage {
    var plan := mail.plan;
    match st
    case AtExtract => if plan.Card? then AtLookUp else if plan.Comment? then AtLists else Failed
    case AtLookUp => if plan.Card? && plan.ref in w.ledger then Done(DEDUP_SKIP) else AtLetterhead
    case AtLetterhead => if plan.Card? && plan.name.Some? then AtCreate else Failed
    case AtCreate => AtAttach(|w.cards|)
    case AtAttach(card) => AtAnnounce(card)
    case AtAnnounce(card) => AtRecord(card)
    case AtRecord(_) => Done(CARD)
    case AtDelete(_) => Failed
    case AtLists => AtPlace(0)
    case AtPlace(k) =>
      if !plan.Comment? then Failed
      else
        var hit := FirstAnswer(cfg, w.cards, PlaceOf(cfg, k), plan.ref, 0);
        if hit.Some? then AtNote(hit.value) else if k < cfg.lists then AtPlace(k + 1) else Failed
    case AtNote(_) => Done(COMMENT)
    case _ => st
  }

  /** A call that raises fails the email; behind the created card it first deletes it. */
  ghost function OnRaise(st: Stage): Stage {
    match st
    case AtAttach(card) => AtDelete(card)
    case AtAnnounce(card) => AtDelete(card)
    case _ => Failed
  }

  ghost function Turned(cfg: Config, mail: Mail, st: Stage, w: World, result: Result<()>): Stage {
    match result
    case Returned(_) => OnReturn(cfg, mail, st, w)
    case Threw => OnRaise(st)
    case Died => Killed
  }

  /** The calls `es` lead from this stage to that end. */
  ghost predicate Walks(cfg: Config, mail: Mail, st: Stage, w: World, es: seq<Entry>, end: Stage)
    decreases |es|
  {
    if es == [] then st == end && st.Final()
    else
      && !st.Final() && Asks(cfg, mail, st, es[0].op)
      && Walks(cfg, mail, Turned(cfg, mail, st, w, es[0].result),
               if es[0].landed then Apply(w, es[0].op) else w, es[1..], end)
  }

  ghost predicate WalksTo(cfg: Config, mail: Mail, st: Stage, s: Sys, t: Sys, end: Stage) {
    s.log <= t.log && Walks(cfg, mail, st, s.world, Made(s, t), end)
  }

  ghost function End(r: Result<Action>): Stage {
    match r
    case Returned(action) => Done(action)
    case Threw => Failed
    case Died => Killed
  }

  lemma Arrived(cfg: Config, mail: Mail, st: Stage, s: Sys)
    requires st.Final()
    ensures WalksTo(cfg, mail, st, s, s, st)
  {
    assert Made(s, s) == [];
  }

  /** One call, and the rest of the way. */
  lemma WalkOn(cfg: Config, mail: Mail, st: Stage, s: Sys, op: Op, t: Sys, end: Stage)
    requires !st.Final() && Asks(cfg, mail, st, op)
    requires var o := Call(s, op); WalksTo(cfg, mail, Turned(cfg, mail, st, s.world, o.result), o.sys, t, end)
    ensures WalksTo(cfg, mail, st, s, t, end)
  {
    hide Asks, Turned, Apply;
    var o := Call(s, op);
    var e := o.sys.log[|s.log|];
    assert t.log[|s.log|] == e;
    assert Made(s, t)[0] == e && Made(s, t)[1..] == Made(o.sys, t);
  }

  lemma DeleteWalks(cfg: Config, mail: Mail, s: Sys, card: nat)
    requires mail.plan.Card?
    ensures var o := Compensate(s, mail.plan.ref, card);
            !o.result.Returned? && WalksTo(cfg, mail, AtDelete(card), s, o.sys, End(ToAction(o.result)))
  {
    hide Call, Walks;
    var op := Delete(mail.plan.ref, card);
    var o := Call(s, op);
    Arrived(cfg, mail, Turned(cfg, mail, AtDelete(card), s.world, o.result), o.sys);
    WalkOn(cfg, mail, AtDelete(card), s, op, o.sys, End(ToAction(Compensate(s, mail.plan.ref, card).result)));
  }

  /** A unit that stopped, as the email it stops. */
  ghost function ToAction(r: Result<nat>): Result<Action> {
    if r.Died? then Died else Threw
  }

  /** From the attachment to the row. */
  lemma AttachWalks(cfg: Config, mail: Mail, s: Sys, card: nat)
    requires mail.plan.Card?
    ensures var o := FileRow(FromAttach(s, mail.plan.ref, card, mail.plan.text), mail.plan.ref);
            WalksTo(cfg, mail, AtAttach(card), s, o.sys, End(o.result))
  {
    hide Call, Walks, Compensate;
    var plan := mail.plan;
    var o := FileRow(FromAttach(s, plan.ref, card, plan.text), plan.ref);
    var attached := Call(s, Attach(plan.ref, card));
    if attached.result.Died? {
      Arrived(cfg, mail, Killed, attached.sys);
    } else if attached.result.Threw? {
      DeleteWalks(cfg, mail, attached.sys, card);
    } else {
      AnnounceWalks(cfg, mail, attached.sys, card);
      AttachThenAnnounce(s, plan.ref, card, plan.text);
    }
    WalkOn(cfg, mail, AtAttach(card), s, Attach(plan.ref, card), o.sys, End(o.result));
  }

  lemma AnnounceWalks(cfg: Config, mail: Mail, s: Sys, card: nat)
    requires mail.plan.Card?
    ensures var o := FileRow(FromAnnounce(s, mail.plan.ref, card, mail.plan.text), mail.plan.ref);
            WalksTo(cfg, mail, AtAnnounce(card), s, o.sys, End(o.result))
  {
    hide Call, Walks, Compensate;
    var plan := mail.plan;
    var o := FileRow(FromAnnounce(s, plan.ref, card, plan.text), plan.ref);
    var announced := Call(s, Announce(plan.ref, card, plan.text));
    if announced.result.Died? {
      Arrived(cfg, mail, Killed, announced.sys);
    } else if announced.result.Threw? {
      DeleteWalks(cfg, mail, announced.sys, card);
    } else {
      RecordWalks(cfg, mail, announced.sys, card);
    }
    WalkOn(cfg, mail, AtAnnounce(card), s, Announce(plan.ref, card, plan.text), o.sys, End(o.result));
  }

  lemma RecordWalks(cfg: Config, mail: Mail, s: Sys, card: nat)
    requires mail.plan.Card?
    ensures var o := FileRow(Out(s, Returned(card)), mail.plan.ref);
            WalksTo(cfg, mail, AtRecord(card), s, o.sys, End(o.result))
  {
    hide Call, Walks;
    var op := Record(mail.plan.ref, card);
    var o := FileRow(Out(s, Returned(card)), mail.plan.ref);
    Arrived(cfg, mail, End(o.result), o.sys);
    WalkOn(cfg, mail, AtRecord(card), s, op, o.sys, End(o.result));
  }

  lemma CardWalks(cfg: Config, mail: Mail, s: Sys)
    requires mail.plan.Card?
    ensures var o := FileClaim(cfg, s, mail.plan.ref, mail.plan.name, mail.plan.text);
            WalksTo(cfg, mail, AtLetterhead, s, o.sys, End(o.result))
  {
    hide Call, Walks, FromAttach;
    var plan := mail.plan;
    var o := FileClaim(cfg, s, plan.ref, plan.name, plan.text);
    var letterhead := Call(s, Letterhead);
    if letterhead.result.Returned? && plan.name.Some? {
      var op := Create(plan.ref, plan.name.value, cfg.target);
      var created := Call(letterhead.sys, op);
      if created.result.Returned? {
        AttachWalks(cfg, mail, created.sys, |letterhead.sys.world.cards|);
      } else {
        Arrived(cfg, mail, End(o.result), created.sys);
      }
      WalkOn(cfg, mail, AtCreate, letterhead.sys, op, o.sys, End(o.result));
    } else {
      Arrived(cfg, mail, End(o.result), letterhead.sys);
    }
    WalkOn(cfg, mail, AtLetterhead, s, Letterhead, o.sys, End(o.result));
  }

  /** The end of a comment, from what the search found. */
  ghost function Noting(found: Out<Option<nat>>, text: string): Out<Action> {
    match found.result
    case Threw => Out(found.sys, Threw)
    case Died => Out(found.sys, Died)
    case Returned(None) => Out(found.sys, Threw)
    case Returned(Some(card)) => ReadNote(Call(found.sys, AddNote(card, text)))
  }

  lemma {:induction false} PlaceWalks(cfg: Config, mail: Mail, s: Sys, k: nat)
    requires mail.plan.Comment? && k <= cfg.lists
    ensures var o := Noting(SearchFrom(cfg, s, mail.plan.ref, k), mail.plan.text);
            WalksTo(cfg, mail, AtPlace(k), s, o.sys, End(o.result))
    decreases cfg.lists - k
  {
    hide Call, Walks, FirstAnswer;
    var plan := mail.plan;
    var o := Noting(SearchFrom(cfg, s, plan.ref, k), plan.text);
    var browsed := Call(s, Browse);
    BrowseShows(s);
    if browsed.result.Returned? {
      var hit := FirstAnswer(cfg, s.world.cards, PlaceOf(cfg, k), plan.ref, 0);
      if hit.Some? {
        var op := AddNote(hit.value, plan.text);
        assert o == ReadNote(Call(browsed.sys, op));
        Arrived(cfg, mail, End(o.result), o.sys);
        WalkOn(cfg, mail, AtNote(hit.value), browsed.sys, op, o.sys, End(o.result));
      } else if k < cfg.lists {
        PlaceWalks(cfg, mail, browsed.sys, k + 1);
        assert o == Noting(SearchFrom(cfg, browsed.sys, plan.ref, k + 1), plan.text);
      } else {
        assert SearchFrom(cfg, browsed.sys, plan.ref, k + 1) == Out(browsed.sys, Returned(None));
        assert o == Out(browsed.sys, Threw);
        Arrived(cfg, mail, Failed, browsed.sys);
      }
    } else {
      Arrived(cfg, mail, End(o.result), browsed.sys);
    }
    WalkOn(cfg, mail, AtPlace(k), s, Browse, o.sys, End(o.result));
  }

  lemma BrowseShows(s: Sys)
    ensures Call(s, Browse).sys.world == s.world
  {
  }

  lemma CommentWalks(cfg: Config, mail: Mail, s: Sys)
    requires mail.plan.Comment?
    ensures var o := PostComment(cfg, s, mail.plan.ref, mail.plan.text);
            WalksTo(cfg, mail, AtLists, s, o.sys, End(o.result))
  {
    hide Call, Walks, SearchFrom;
    var plan := mail.plan;
    var o := PostComment(cfg, s, plan.ref, plan.text);
    var browsed := Call(s, Browse);
    if browsed.result.Returned? {
      PlaceWalks(cfg, mail, browsed.sys, 0);
    } else {
      Arrived(cfg, mail, End(o.result), browsed.sys);
    }
    WalkOn(cfg, mail, AtLists, s, Browse, o.sys, End(o.result));
  }

  /** Every email, however each of its calls goes, is a walk of the machine: call by call in the order of
      the protocol, to the end its result says. */
  lemma EmailWalks(cfg: Config, s: Sys, mail: Mail)
    ensures var o := ProcessOne(cfg, s, mail);
            WalksTo(cfg, mail, if mail.plan == Reject(false) then Failed else AtExtract, s, o.sys, End(o.result))
  {
    hide Call, Walks, PostComment, FileClaim;
    var o := ProcessOne(cfg, s, mail);
    if mail.plan == Reject(false) {
      Arrived(cfg, mail, Failed, s);
    } else {
      var extracted := Call(s, Extract(mail));
      ExtractShows(s, mail);
      if !extracted.result.Returned? || mail.plan.Reject? {
        Arrived(cfg, mail, End(o.result), extracted.sys);
      } else if mail.plan.Comment? {
        CommentWalks(cfg, mail, extracted.sys);
      } else {
        CheckWalks(cfg, mail, extracted.sys);
      }
      WalkOn(cfg, mail, AtExtract, s, Extract(mail), o.sys, End(o.result));
    }
  }

  lemma ExtractShows(s: Sys, mail: Mail)
    ensures Call(s, Extract(mail)).sys.world == s.world
  {
  }

  lemma CheckWalks(cfg: Config, mail: Mail, s: Sys)
    requires mail.plan.Card?
    ensures var o := Extracted(cfg, s, mail.plan); WalksTo(cfg, mail, AtLookUp, s, o.sys, End(o.result))
  {
    var plan := mail.plan;
    var known := Call(s, LookUp(plan.ref));
    assert known.sys.world == s.world;
    hide Call, Walks, FileClaim;
    var o := Extracted(cfg, s, plan);
    if known.result.Returned? && plan.ref !in s.world.ledger {
      CardWalks(cfg, mail, known.sys);
    } else {
      Arrived(cfg, mail, End(o.result), known.sys);
    }
    WalkOn(cfg, mail, AtLookUp, s, LookUp(plan.ref), o.sys, End(o.result));
  }

  // ----- How a run fails -----

  predicate InEmail(op: Op) {
    op.Extract? || op.LookUp? || op.Letterhead? || op.Create? || op.Attach? || op.Announce? || op.Delete?
    || op.Record? || op.Browse? || op.AddNote?
  }

  /** The calls outside the per-email boundary whose failure is the run's. */
  predicate Outside(op: Op) {
    op.ListLabels? || op.CreateLabel? || op.ListUnread? || op.Fetch? || op.Relabel?
  }

  /** A call the run goes on behind. */
  predicate Passes(e: Entry) {
    e.result.Returned? || (e.result.Threw? && InEmail(e.op))
  }

  /** Only the last call can stop the run: it dies with it, and raises exactly if the call was outside
      the boundary. */
  ghost predicate Surfaces<T(!new)>(s: Sys, o: Out<T>) {
    && s.log <= o.sys.log
    && var es := Made(s, o.sys);
       && (forall i | 0 <= i < |es| - 1 :: Passes(es[i]))
       && (es == [] ==> o.result.Returned?)
       && (es != [] ==>
             var e := es[|es| - 1];
             && (o.result.Died? <==> e.result.Died?)
             && (o.result.Threw? <==> e.result.Threw? && Outside(e.op)))
  }

  /** The gauge is not among these calls. */
  ghost predicate Quiet(s: Sys, t: Sys) {
    forall e | e in Made(s, t) :: !e.op.Gauge?
  }

  lemma {:induction false} WalkInside(cfg: Config, mail: Mail, st: Stage, w: World, es: seq<Entry>, end: Stage)
    requires Walks(cfg, mail, st, w, es, end)
    ensures forall i | 0 <= i < |es| :: InEmail(es[i].op) && (es[i].result.Died? ==> i == |es| - 1)
    ensures es != [] ==> (es[|es| - 1].result.Died? <==> end.Killed?)
    decreases |es|
  {
    if es != [] {
      var next := Turned(cfg, mail, st, w, es[0].result);
      var w' := if es[0].landed then Apply(w, es[0].op) else w;
      hide Apply, Turned;
      WalkInside(cfg, mail, next, w', es[1..], end);
      assert forall i | 0 < i < |es| :: es[i] == es[1..][i - 1];
      TurnedKilled(cfg, mail, st, w, es[0].result);
      if es[1..] == [] {
        assert next == end;
      }
    }
  }

  lemma TurnedKilled(cfg: Config, mail: Mail, st: Stage, w: World, result: Result<()>)
    requires !st.Final()
    ensures Turned(cfg, mail, st, w, result) == Killed <==> result.Died?
  {
    hide FirstAnswer;
  }

  lemma CallSurfaces(s: Sys, op: Op)
    requires Outside(op)
    ensures Surfaces(s, Call(s, op)) && Quiet(s, Call(s, op).sys) && |Made(s, Call(s, op).sys)| == 1
  {
    var o := Call(s, op);
    assert Made(s, o.sys) == [o.sys.log[|s.log|]];
  }

  lemma Renamed<T(!new), U(!new)>(s: Sys, o: Out<T>, p: Out<U>)
    requires Surfaces(s, o) && p.sys == o.sys
    requires p.result.Returned? == o.result.Returned? && p.result.Died? == o.result.Died?
    ensures Surfaces(s, p)
  {
  }

  /** Calls the run went on behind, and what follows them. */
  lemma GoesOn<T(!new)>(s: Sys, t: Sys, o: Out<T>)
    requires s.log <= t.log && (forall e | e in Made(s, t) :: Passes(e) && !e.op.Gauge?)
    requires Surfaces(t, o)
    requires Made(t, o.sys) == [] ==> forall e | e in Made(s, t) :: !Outside(e.op) || e.result.Returned?
    ensures Surfaces(s, o) && (Quiet(t, o.sys) ==> Quiet(s, o.sys))
  {
    var first, second := Made(s, t), Made(t, o.sys);
    assert Made(s, o.sys) == first + second;
    assert forall i | 0 <= i < |first| :: (first + second)[i] in first;
  }

  lemma ReturnedPasses<T(!new)>(s: Sys, o: Out<T>)
    requires Surfaces(s, o) && Quiet(s, o.sys) && o.result.Returned?
    ensures forall e | e in Made(s, o.sys) :: (Passes(e) || !InEmail(e.op)) && !e.op.Gauge?
    ensures (forall e | e in Made(s, o.sys) :: InEmail(e.op) || Outside(e.op)) ==>
              forall e | e in Made(s, o.sys) :: Passes(e) && (!Outside(e.op) || e.result.Returned?)
  {
    var es := Made(s, o.sys);
    forall e | e in es
      ensures Passes(e) || !InEmail(e.op)
      ensures (InEmail(e.op) || Outside(e.op)) ==> Passes(e) && (!Outside(e.op) || e.result.Returned?)
    {
      var i :| 0 <= i < |es| && es[i] == e;
      if i < |es| - 1 { assert Passes(es[i]); }
    }
  }

  /** Of a run all calls before the gauge are of one of these two kinds. */
  ghost predicate TwoKinds(s: Sys, t: Sys) {
    forall e | e in Made(s, t) :: InEmail(e.op) || Outside(e.op)
  }

  /** Two parts of a run, the first of which returns. */
  lemma Joined<T(!new), U(!new)>(s: Sys, o: Out<T>, p: Out<U>)
    requires Surfaces(s, o) && TwoKinds(s, o.sys) && o.result.Returned? && Surfaces(o.sys, p)
    ensures Surfaces(s, p) && (TwoKinds(o.sys, p.sys) ==> TwoKinds(s, p.sys))
    ensures Made(s, o.sys) != [] ==> Made(s, p.sys) != []
  {
    assert Quiet(s, o.sys);
    ReturnedPasses(s, o);
    GoesOn(s, o.sys, p);
    assert Made(s, p.sys) == Made(s, o.sys) + Made(o.sys, p.sys);
  }

  lemma Nothing<T(!new)>(s: Sys, value: T)
    ensures Surfaces(s, Out(s, Returned(value))) && TwoKinds(s, s)
  {
    assert Made(s, s) == [];
  }

  lemma {:induction false} LoopSurfaces(cfg: Config, s: Sys, mails: seq<Mail>, deadline: nat, tally: Tally)
    ensures var o := ProcessAll(cfg, s, mails, deadline, tally); Surfaces(s, o) && TwoKinds(s, o.sys)
    decreases |mails|
  {
    hide ProcessOne, Call, Walks, Surfaces, Made;
    if mails == [] || s.now > deadline {
      Nothing(s, tally);
    } else {
      var one := ProcessOne(cfg, s, mails[0]);
      EmailWalks(cfg, s, mails[0]);
      if one.result.Died? {
        EmailDies(cfg, s, mails[0], ProcessAll(cfg, s, mails, deadline, tally));
      } else {
        var to := Verdict(one.result);
        var op := Relabel(mails[0], to);
        var relabel := Call(one.sys, op);
        CallSurfaces(one.sys, op);
        var p := ProcessAll(cfg, s, mails, deadline, tally);
        if relabel.result.Returned? {
          LoopSurfaces(cfg, relabel.sys, mails[1..], deadline, tally.Add(to));
          OutsideCall(one.sys, op);
          Joined(one.sys, relabel, p);
        } else {
          OutsideCall(one.sys, op);
          Renamed(one.sys, relabel, p);
        }
        EmailPasses(cfg, s, mails[0], p);
      }
    }
  }

  lemma OutsideCall(s: Sys, op: Op)
    requires Outside(op)
    ensures TwoKinds(s, Call(s, op).sys) && Made(s, Call(s, op).sys) != []
  {
    var o := Call(s, op);
    assert Made(s, o.sys) == [o.sys.log[|s.log|]];
  }

  lemma EmailDies(cfg: Config, s: Sys, mail: Mail, p: Out<Tally>)
    requires var one := ProcessOne(cfg, s, mail); one.result.Died? && p == Out(one.sys, Died)
    ensures Surfaces(s, p) && TwoKinds(s, p.sys)
  {
    hide ProcessOne, Walks;
    EmailWalks(cfg, s, mail);
    var one := ProcessOne(cfg, s, mail);
    assert mail.plan != Reject(false) by { RejectedThrows(cfg, s, mail); }
    WalkInside(cfg, mail, AtExtract, s.world, Made(s, one.sys), End(one.result));
    assert Made(s, one.sys) != [] by { SomeCall(cfg, mail, s.world, Made(s, one.sys), End(one.result)); }
  }

  lemma SomeCall(cfg: Config, mail: Mail, w: World, es: seq<Entry>, end: Stage)
    requires Walks(cfg, mail, AtExtract, w, es, end)
    ensures es != []
  {
  }

  lemma RejectedThrows(cfg: Config, s: Sys, mail: Mail)
    ensures mail.plan == Reject(false) ==> ProcessOne(cfg, s, mail).result.Threw?
  {
    hide PostComment, FileClaim;
  }

  lemma EmailPasses(cfg: Config, s: Sys, mail: Mail, p: Out<Tally>)
    requires var one := ProcessOne(cfg, s, mail);
             !one.result.Died? && Surfaces(one.sys, p) && TwoKinds(one.sys, p.sys) && Made(one.sys, p.sys) != []
    ensures Surfaces(s, p) && TwoKinds(s, p.sys)
  {
    hide ProcessOne, Walks;
    EmailWalks(cfg, s, mail);
    var one := ProcessOne(cfg, s, mail);
    var es := Made(s, one.sys);
    WalkInside(cfg, mail, if mail.plan == Reject(false) then Failed else AtExtract, s.world, es, End(one.result));
    assert forall e | e in es :: Passes(e) && !e.op.Gauge?;
    GoesOn(s, one.sys, p);
    assert Made(s, p.sys) == es + Made(one.sys, p.sys);
  }

  lemma {:induction false} FetchSurfaces(s: Sys, ids: seq<Mail>, deadline: nat, got: seq<Mail>)
    ensures var o := FetchAll(s, ids, deadline, got); Surfaces(s, o) && TwoKinds(s, o.sys)
    decreases |ids|
  {
    hide Call, Surfaces, Made, TwoKinds;
    var p := FetchAll(s, ids, deadline, got);
    if ids == [] || s.now > deadline {
      Nothing(s, got);
    } else {
      var op := Fetch(ids[0]);
      var o := Call(s, op);
      CallSurfaces(s, op);
      OutsideCall(s, op);
      if o.result.Returned? {
        FetchSurfaces(o.sys, ids[1..], deadline, got + [ids[0]]);
        Joined(s, o, p);
      } else {
        Renamed(s, o, p);
      }
    }
  }

  lemma EnsureSurfaces(s: Sys, cache: set<Label>, mark: Label)
    ensures var o := EnsureLabel(s, cache, mark); Surfaces(s, o) && TwoKinds(s, o.sys)
  {
    hide Call, Surfaces, Made, TwoKinds;
    var p := EnsureLabel(s, cache, mark);
    if mark in cache {
      Nothing(s, cache);
    } else {
      var listed := Call(s, ListLabels);
      CallSurfaces(s, ListLabels);
      OutsideCall(s, ListLabels);
      if listed.result.Returned? {
        var known := cache + listed.sys.world.made;
        if mark in known {
          Renamed(s, listed, p);
        } else {
          var created := Call(listed.sys, CreateLabel(mark));
          CallSurfaces(listed.sys, CreateLabel(mark));
          OutsideCall(listed.sys, CreateLabel(mark));
          Renamed(listed.sys, created, p);
          Joined(s, listed, p);
        }
      } else {
        Renamed(s, listed, p);
      }
    }
  }

  /** The gauge is the last call of a run that got so far, and cannot fail it. */
  ghost predicate GaugeEnds(s: Sys, o: Out<Counts>) {
    && Surfaces(s, o)
    && (o.result.Returned? ==>
          var es := Made(s, o.sys);
          && es != [] && es[|es| - 1].op == Gauge
          && (o.result.value.failedTotal.Some? <==> es[|es| - 1].result.Returned?))
  }

  lemma FinishSurfaces(s: Sys, tally: Tally)
    ensures GaugeEnds(s, Finish(s, tally))
  {
    hide FailedOnPage;
    var o := Call(s, Gauge);
    assert Made(s, o.sys) == [o.sys.log[|s.log|]];
  }

  lemma GaugeEndsJoined<T(!new)>(s: Sys, o: Out<T>, p: Out<Counts>)
    requires Surfaces(s, o) && TwoKinds(s, o.sys) && o.result.Returned? && GaugeEnds(o.sys, p)
    ensures GaugeEnds(s, p)
  {
    MadeSplit(s, o.sys, p.sys);
    Joined(s, o, p);
    hide Surfaces, TwoKinds, Made;
  }

  lemma MadeSplit(s: Sys, t: Sys, u: Sys)
    requires s.log <= t.log <= u.log
    ensures Made(s, u) == Made(s, t) + Made(t, u)
  {
  }

  lemma StoppedSurfaces<T(!new)>(s: Sys, o: Out<T>, p: Out<Counts>)
    requires Surfaces(s, o) && !o.result.Returned? && p.sys == o.sys && !p.result.Returned? && p.result.Died? == o.result.Died?
    ensures GaugeEnds(s, p)
  {
    Renamed(s, o, p);
  }

  lemma PageSurfaces(cfg: Config, s: Sys, page: seq<Mail>, deadline: nat)
    ensures GaugeEnds(s, ProcessPage(cfg, s, page, deadline))
  {
    hide Call, FetchAll, ProcessAll, Finish, InOrder, Surfaces, Made, TwoKinds, GaugeEnds;
    var p := ProcessPage(cfg, s, page, deadline);
    var listed := Call(s, ListUnread);
    CallSurfaces(s, ListUnread);
    OutsideCall(s, ListUnread);
    if !listed.result.Returned? {
      StoppedSurfaces(s, listed, p);
    } else {
      var fetched := FetchAll(listed.sys, page, deadline, []);
      FetchSurfaces(listed.sys, page, deadline, []);
      if !fetched.result.Returned? {
        StoppedSurfaces(listed.sys, fetched, p);
      } else {
        var mails := InOrder(fetched.result.value);
        var all := ProcessAll(cfg, fetched.sys, mails, deadline, Tally(0, 0));
        LoopSurfaces(cfg, fetched.sys, mails, deadline, Tally(0, 0));
        if !all.result.Returned? {
          StoppedSurfaces(fetched.sys, all, p);
        } else {
          FinishSurfaces(all.sys, all.result.value);
          GaugeEndsJoined(fetched.sys, all, p);
        }
        GaugeEndsJoined(listed.sys, fetched, p);
      }
      GaugeEndsJoined(s, listed, p);
    }
  }

  /** How every run ends, whatever its calls answer: a call that raises inside an email, or at the gauge,
      never fails the run; any other fails it, and nothing is called behind it; a run that returns has
      read the gauge last, and reports it exactly if it answered. */
  lemma RunSurfaces(cfg: Config, s: Sys, page: seq<Mail>, deadline: nat)
    ensures GaugeEnds(s, ProcessMailbox(cfg, s, page, deadline))
  {
    hide EnsureLabel, ProcessPage, Surfaces, Made, TwoKinds, GaugeEnds;
    var p := ProcessMailbox(cfg, s, page, deadline);
    var procesado := EnsureLabel(s, {}, PROCESADO);
    EnsureSurfaces(s, {}, PROCESADO);
    if !procesado.result.Returned? {
      StoppedSurfaces(s, procesado, p);
    } else {
      var failed := EnsureLabel(procesado.sys, procesado.result.value, FAILED);
      EnsureSurfaces(procesado.sys, procesado.result.value, FAILED);
      if !failed.result.Returned? {
        StoppedSurfaces(procesado.sys, failed, p);
      } else {
        PageSurfaces(cfg, failed.sys, page, deadline);
        GaugeEndsJoined(procesado.sys, failed, p);
      }
      GaugeEndsJoined(s, procesado, p);
    }
  }

  // ----- What a run calls -----

  /** The operations outside the emails, in order. */
  function Frame(es: seq<Entry>): seq<Op> {
    if es == [] then [] else (if InEmail(es[0].op) then [] else [es[0].op]) + Frame(es[1..])
  }

  lemma {:induction false} FrameAppend(a: seq<Entry>, b: seq<Entry>)
    ensures Frame(a + b) == Frame(a) + Frame(b)
  {
    if a == [] {
      assert a + b == b;
    } else {
      assert (a + b)[1..] == a[1..] + b;
      FrameAppend(a[1..], b);
    }
  }

  lemma {:induction false} FrameInside(es: seq<Entry>)
    requires forall e | e in es :: InEmail(e.op)
    ensures Frame(es) == []
  {
    if es != [] { FrameInside(es[1..]); }
  }

  lemma FrameOne(s: Sys, op: Op)
    requires !InEmail(op)
    ensures s.log <= Call(s, op).sys.log && Frame(Made(s, Call(s, op).sys)) == [op]
  {
    var es := Made(s, Call(s, op).sys);
    assert es == [es[0]] && es[1..] == [];
  }

  function Fetches(mails: seq<Mail>): seq<Op> {
    seq(|mails|, i requires 0 <= i < |mails| => Fetch(mails[i]))
  }

  ghost predicate Relabels(ops: seq<Op>, mails: seq<Mail>) {
    |ops| == |mails| && forall i | 0 <= i < |ops| :: ops[i].Relabel? && ops[i].mail == mails[i]
  }

  predicate LabelOps(ops: seq<Op>) {
    forall op | op in ops :: op.ListLabels? || op.CreateLabel?
  }

  lemma OneFrame(cfg: Config, s: Sys, mail: Mail)
    ensures var o := ProcessOne(cfg, s, mail); s.log <= o.sys.log && Frame(Made(s, o.sys)) == []
  {
    hide ProcessOne, Walks, Frame;
    EmailWalks(cfg, s, mail);
    var es := Made(s, ProcessOne(cfg, s, mail).sys);
    WalkInside(cfg, mail, if mail.plan == Reject(false) then Failed else AtExtract, s.world, es,
               End(ProcessOne(cfg, s, mail).result));
    FrameInside(es);
  }

  lemma FrameJoin(s: Sys, t: Sys, u: Sys)
    requires s.log <= t.log <= u.log
    ensures Frame(Made(s, u)) == Frame(Made(s, t)) + Frame(Made(t, u))
  {
    MadeSplit(s, t, u);
    FrameAppend(Made(s, t), Made(t, u));
  }

  lemma {:induction false} LoopFrame(cfg: Config, s: Sys, mails: seq<Mail>, deadline: nat, tally: Tally) returns (k: nat)
    ensures var o := ProcessAll(cfg, s, mails, deadline, tally);
            && s.log <= o.sys.log && k <= |mails|
            && (o.result.Returned? ==> Relabels(Frame(Made(s, o.sys)), mails[..k]))
    decreases |mails|
  {
    hide ProcessOne, Call, Frame;
    k := 0;
    if mails == [] || s.now > deadline {
      assert Frame(Made(s, s)) == [] by { FrameNothing(s); }
    } else {
      var one := ProcessOne(cfg, s, mails[0]);
      OneFrame(cfg, s, mails[0]);
      if !one.result.Died? {
        var to := Verdict(one.result);
        var op := Relabel(mails[0], to);
        var relabel := Call(one.sys, op);
        FrameOne(one.sys, op);
        if relabel.result.Returned? {
          var rest := LoopFrame(cfg, relabel.sys, mails[1..], deadline, tally.Add(to));
          var o := ProcessAll(cfg, relabel.sys, mails[1..], deadline, tally.Add(to));
          FrameJoin(one.sys, relabel.sys, o.sys);
          FrameJoin(s, one.sys, o.sys);
          k := rest + 1;
          assert mails[..k] == [mails[0]] + mails[1..][..rest];
        }
      }
    }
  }

  lemma FrameNothing(s: Sys)
    ensures Frame(Made(s, s)) == []
  {
  }

  lemma {:induction false} FetchFrame(s: Sys, ids: seq<Mail>, deadline: nat, got: seq<Mail>) returns (f: nat)
    ensures var o := FetchAll(s, ids, deadline, got);
            && s.log <= o.sys.log && f <= |ids|
            && (o.result.Returned? ==> Frame(Made(s, o.sys)) == Fetches(ids[..f]) && o.result.value == got + ids[..f])
    decreases |ids|
  {
    hide Call, Frame;
    f := 0;
    if ids == [] || s.now > deadline {
      FrameNothing(s);
      assert got + ids[..0] == got;
    } else {
      var op := Fetch(ids[0]);
      var o := Call(s, op);
      FrameOne(s, op);
      if o.result.Returned? {
        var rest := FetchFrame(o.sys, ids[1..], deadline, got + [ids[0]]);
        var p := FetchAll(o.sys, ids[1..], deadline, got + [ids[0]]);
        FrameJoin(s, o.sys, p.sys);
        f := rest + 1;
        assert ids[..f] == [ids[0]] + ids[1..][..rest];
        assert Fetches(ids[..f]) == [op] + Fetches(ids[1..][..rest]);
      }
    }
  }

  lemma EnsureFrame(s: Sys, cache: set<Label>, mark: Label)
    ensures var o := EnsureLabel(s, cache, mark); s.log <= o.sys.log && LabelOps(Frame(Made(s, o.sys)))
  {
    hide Call, Frame;
    if mark in cache {
      FrameNothing(s);
    } else {
      var listed := Call(s, ListLabels);
      FrameOne(s, ListLabels);
      if listed.result.Returned? && mark !in cache + listed.sys.world.made {
        FrameOne(listed.sys, CreateLabel(mark));
        FrameJoin(s, listed.sys, Call(listed.sys, CreateLabel(mark)).sys);
      }
    }
  }

  /** A run that returns has looked up its labels, listed the unread mails, fetched a prefix of the page in
      the order of the list, relabelled a prefix of the fetched mails in date order, one call each, and
      read the gauge: in this order, and called nothing else outside the emails. */
  lemma RunCalls(cfg: Config, s: Sys, page: seq<Mail>, deadline: nat) returns (labels: seq<Op>, fetched: nat, done: seq<Op>)
    requires ProcessMailbox(cfg, s, page, deadline).result.Returned?
    ensures fetched <= |page| && LabelOps(labels)
    ensures |done| <= |InOrder(page[..fetched])| && Relabels(done, InOrder(page[..fetched])[..|done|])
    ensures Frame(Made(s, ProcessMailbox(cfg, s, page, deadline).sys))
            == labels + ([ListUnread] + (Fetches(page[..fetched]) + (done + [Gauge])))
  {
    hide EnsureLabel, ProcessPage, Frame, Made, InOrder;
    var procesado := EnsureLabel(s, {}, PROCESADO);
    EnsureFrame(s, {}, PROCESADO);
    var failed := EnsureLabel(procesado.sys, procesado.result.value, FAILED);
    EnsureFrame(procesado.sys, procesado.result.value, FAILED);
    fetched, done := PageCalls(cfg, failed.sys, page, deadline);
    var o := ProcessPage(cfg, failed.sys, page, deadline);
    FrameJoin(s, procesado.sys, failed.sys);
    FrameJoin(s, failed.sys, o.sys);
    labels := Frame(Made(s, failed.sys));
  }

  lemma PageCalls(cfg: Config, s: Sys, page: seq<Mail>, deadline: nat) returns (fetched: nat, done: seq<Op>)
    requires ProcessPage(cfg, s, page, deadline).result.Returned?
    ensures s.log <= ProcessPage(cfg, s, page, deadline).sys.log && fetched <= |page|
    ensures |done| <= |InOrder(page[..fetched])| && Relabels(done, InOrder(page[..fetched])[..|done|])
    ensures Frame(Made(s, ProcessPage(cfg, s, page, deadline).sys))
            == [ListUnread] + (Fetches(page[..fetched]) + (done + [Gauge]))
  {
    hide Call, FetchAll, ProcessAll, InOrder, Frame, Made, FailedOnPage;
    var listed := Call(s, ListUnread);
    FrameOne(s, ListUnread);
    fetched := FetchFrame(listed.sys, page, deadline, []);
    var got := FetchAll(listed.sys, page, deadline, []);
    assert got.result.value == page[..fetched];
    var mails := InOrder(page[..fetched]);
    var k := LoopFrame(cfg, got.sys, mails, deadline, Tally(0, 0));
    var all := ProcessAll(cfg, got.sys, mails, deadline, Tally(0, 0));
    done := Frame(Made(got.sys, all.sys));
    var gauge := Call(all.sys, Gauge);
    FrameOne(all.sys, Gauge);
    FrameJoin(got.sys, all.sys, gauge.sys);
    FrameJoin(listed.sys, got.sys, gauge.sys);
    FrameJoin(s, listed.sys, gauge.sys);
  }
}
