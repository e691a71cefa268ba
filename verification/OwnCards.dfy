/** Where cards come from and where comments go: every card carries the name and the comment of a card
    email, and, where no card name mentions another claim, a comment email that counts as procesado has
    its comment on a card of its own reference. */
module OwnCards {
  import opened Options
  import opened ClaimData
  import opened Collections
  import opened Plans
  import opened Pipeline
  import opened Truth

  /** The name answers to the claim's own reference and to no other. */
  ghost predicate AnswersOnlyTo(d: DigitClass, name: string, own: Ref) {
    forall ref | IsRef(d, ref) && Mentions(d, name, ref.Text()) :: ref == own
  }

  ghost predicate PlainPlan(d: DigitClass, plan: Plan) {
    plan.Card? && plan.name.Some? ==> AnswersOnlyTo(d, plan.name.value, plan.ref)
  }

  /** Without "/" in the town and the owner an email's plan is plain. */
  lemma PlansArePlain(at: Setting, email: Email, town: string, owner: string)
    requires (forall c | ASCII_DIGIT(c) :: at.digit(c)) && !at.digit('/') && !at.digit(' ')
    requires var plan := PlanOf(at, email);
             plan.Card? && plan.name == Some(CardName(town, plan.ref, owner))
    requires '/' !in town && '/' !in owner
    ensures PlainPlan(at.digit, PlanOf(at, email))
  {
    var plan := PlanOf(at, email);
    PlansAreWellFormed(at, email);
    forall ref | IsRef(at.digit, ref) && Mentions(at.digit, plan.name.value, ref.Text())
      ensures ref == plan.ref
    {
      CardAnswersOnlyToItself(at.digit, town, plan.ref, owner, ref);
    }
  }

  /** The card carries the reference and the name of this mail's plan, and its comment if it has one. */
  ghost predicate CardOf(card: BoardCard, plan: Plan) {
    plan.Card? && card.ref == plan.ref && Some(card.name) == plan.name && Says(card, plan.text)
  }

  /** Every card on the board is that of a mail. */
  ghost predicate FromMails(w: World) {
    forall card | card in w.cards :: exists m | m in w.labels :: CardOf(card, m.plan)
  }

  ghost predicate NewFrom(w: World, w': World, plan: Plan) {
    |w.cards| <= |w'.cards| && forall i | |w.cards| <= i < |w'.cards| :: CardOf(w'.cards[i], plan)
  }

  lemma CommentNew(cfg: Config, s: Sys, ref: Ref, text: string)
    ensures |PostComment(cfg, s, ref, text).sys.world.cards| == |s.world.cards|
  {
    FindFinds(cfg, s, ref);
    hide FindCard;
  }

  lemma FilingNew(cfg: Config, s: Sys, ref: Ref, name: Option<string>, text: string)
    ensures NewFrom(s.world, FileClaim(cfg, s, ref, name, text).sys.world, Card(ref, name, text))
  {
    hide CreateFullCard;
    var letterhead := Call(s, Letterhead);
    if letterhead.result.Returned? && name.Some? {
      CardUnit(cfg, letterhead.sys, ref, name.value, text);
    }
  }

  lemma OneNew(cfg: Config, s: Sys, mail: Mail)
    ensures NewFrom(s.world, ProcessOne(cfg, s, mail).sys.world, mail.plan)
  {
    hide PostComment, FileClaim;
    if mail.plan != Reject(false) {
      var extracted := Call(s, Extract(mail));
      if extracted.result.Returned? {
        match mail.plan
        case Reject(_) =>
        case Comment(ref, text) => CommentNew(cfg, extracted.sys, ref, text);
        case Card(ref, name, text) =>
          var known := Call(extracted.sys, LookUp(ref));
          if known.result.Returned? && ref !in known.sys.world.ledger {
            FilingNew(cfg, known.sys, ref, name, text);
          }
      }
    }
  }

  lemma ExtendsFrom(w: World, w': World, mail: Mail)
    requires FromMails(w) && Extends(w, w') && NewFrom(w, w', mail.plan) && mail in w.labels
    ensures FromMails(w')
  {
    forall card | card in w'.cards
      ensures exists m | m in w'.labels :: CardOf(card, m.plan)
    {
      var i :| 0 <= i < |w'.cards| && w'.cards[i] == card;
      if i < |w.cards| {
        assert w.cards[i] in w.cards;
        var m :| m in w.labels && CardOf(w.cards[i], m.plan);
        assert CardOf(card, m.plan);
      } else {
        assert CardOf(card, mail.plan);
      }
    }
  }

  lemma {:induction false} LoopFrom(cfg: Config, s: Sys, mails: seq<Mail>, deadline: nat, tally: Tally)
    requires Configured(cfg) && Truthful(cfg, s.world) && Waiting(s.world, mails) && FromMails(s.world)
    ensures FromMails(ProcessAll(cfg, s, mails, deadline, tally).sys.world)
    decreases |mails|
  {
    hide ProcessOne, Call, Truthful, FromMails;
    if mails != [] && s.now <= deadline {
      var one := ProcessOne(cfg, s, mails[0]);
      TurnTrue(cfg, s, mails[0]);
      OneNew(cfg, s, mails[0]);
      OneKeeps(cfg, s, mails[0]);
      ExtendsFrom(s.world, one.sys.world, mails[0]);
      if !one.result.Died? {
        var to := Verdict(one.result);
        var relabel := Call(one.sys, Relabel(mails[0], to));
        RelabelFrom(one.sys, mails[0], to);
        if relabel.result.Returned? {
          WaitingNext(s.world, relabel.sys.world, mails, to);
          LoopFrom(cfg, relabel.sys, mails[1..], deadline, tally.Add(to));
        }
      }
    }
  }

  lemma OneKeeps(cfg: Config, s: Sys, mail: Mail)
    requires Configured(cfg) && Truthful(cfg, s.world) && mail in s.world.labels
    ensures Extends(s.world, ProcessOne(cfg, s, mail).sys.world)
  {
    OneTrue(cfg, s, mail);
  }

  lemma RelabelFrom(s: Sys, mail: Mail, to: Label)
    requires FromMails(s.world)
    ensures FromMails(Call(s, Relabel(mail, to)).sys.world)
  {
    var w := Call(s, Relabel(mail, to)).sys.world;
    assert w.cards == s.world.cards && w.labels.Keys == s.world.labels.Keys;
    forall card | card in w.cards
      ensures exists m | m in w.labels :: CardOf(card, m.plan)
    {
      var m :| m in s.world.labels && CardOf(card, m.plan);
      assert m in w.labels;
    }
  }

  lemma PageFrom(cfg: Config, s: Sys, page: seq<Mail>, deadline: nat)
    requires Configured(cfg) && Truthful(cfg, s.world) && Waiting(s.world, page) && FromMails(s.world)
    ensures FromMails(ProcessPage(cfg, s, page, deadline).sys.world)
  {
    hide ProcessAll, FetchAll, Truthful, Finish, InOrder, FromMails;
    var listed := Call(s, ListUnread);
    if listed.result.Returned? {
      var fetched := FetchKeeps(listed.sys, page, deadline, []);
      InOrderWaits(s.world, page[..fetched]);
      var got := FetchAll(listed.sys, page, deadline, []);
      if got.result.Returned? {
        assert got.result.value == page[..fetched];
        var mails := InOrder(page[..fetched]);
        LoopFrom(cfg, got.sys, mails, deadline, Tally(0, 0));
        var all := ProcessAll(cfg, got.sys, mails, deadline, Tally(0, 0));
        if all.result.Returned? { FinishKeeps(all.sys, all.result.value); }
      }
    }
  }

  lemma RunFrom(cfg: Config, s: Sys, page: seq<Mail>, deadline: nat)
    requires Configured(cfg) && Truthful(cfg, s.world) && Waiting(s.world, page) && FromMails(s.world)
    ensures FromMails(ProcessMailbox(cfg, s, page, deadline).sys.world)
  {
    hide ProcessPage, EnsureLabel, Truthful, CardOf;
    var procesado := EnsureLabel(s, {}, PROCESADO);
    EnsureKeeps(s, {}, PROCESADO);
    SameTruth(cfg, s.world, procesado.sys.world);
    if procesado.result.Returned? {
      var failed := EnsureLabel(procesado.sys, procesado.result.value, FAILED);
      EnsureKeeps(procesado.sys, procesado.result.value, FAILED);
      SameTruth(cfg, s.world, failed.sys.world);
      if failed.result.Returned? {
        PageFrom(cfg, failed.sys, page, deadline);
      }
    }
  }

  lemma HappenFrom(cfg: Config, past: Past, h: Happening)
    requires Configured(cfg) && Truthful(cfg, past.world) && FromMails(past.world) && Possible(cfg, past.world, h)
    ensures FromMails(Happen(cfg, past, h).world)
    ensures Happen(cfg, past, h).world.labels.Keys == past.world.labels.Keys + if h.Arrive? then {h.mail} else {}
  {
    hide ProcessMailbox, Truthful, CardOf;
    var w, w' := past.world, Happen(cfg, past, h).world;
    match h
    case Run(script, start, page) =>
      var s := Sys(w, script, start, past.log);
      RunFrom(cfg, s, page, start + RUN_DEADLINE_US);
      var _, _ := RunTrue(cfg, s, page, start + RUN_DEADLINE_US);
    case Arrive(_) =>
      forall card | card in w'.cards
        ensures exists m | m in w'.labels :: CardOf(card, m.plan)
      {
        var m :| m in w.labels && CardOf(card, m.plan);
        assert m in w'.labels;
      }
    case Move(i, place) => MoveFrom(w, i, place);
  }

  lemma MoveFrom(w: World, i: nat, place: Place)
    requires FromMails(w) && i < |w.cards|
    ensures FromMails(w.(cards := w.cards[i := w.cards[i].(place := place)]))
  {
    var w' := w.(cards := w.cards[i := w.cards[i].(place := place)]);
    forall card | card in w'.cards
      ensures exists m | m in w'.labels :: CardOf(card, m.plan)
    {
      var k :| 0 <= k < |w'.cards| && w'.cards[k] == card;
      assert w.cards[k] in w.cards;
      var m :| m in w.labels && CardOf(w.cards[k], m.plan);
      assert CardOf(card, m.plan);
    }
  }

  ghost predicate PlainArrivals(d: DigitClass, hs: seq<Happening>) {
    forall h | h in hs && h.Arrive? :: PlainPlan(d, h.mail.plan)
  }

  /** After any history every card on the board is that of a mail that arrived: with the name its plan
      gives and, once announced, with the comment its plan gives. */
  lemma {:induction false} CardsComeFromMails(cfg: Config, hs: seq<Happening>)
    requires Configured(cfg) && History(cfg, hs)
    ensures FromMails(Since(cfg, hs).world)
    ensures forall m | m in Since(cfg, hs).world.labels :: Arrive(m) in hs
  {
    hide Truthful, Happen, Possible, Configured, FromMails;
    if hs == [] {
      assert FromMails(NOTHING.world) by { NothingFrom(); }
    } else {
      var before, last := hs[..|hs| - 1], hs[|hs| - 1];
      assert last in hs && forall h | h in before :: h in hs;
      CardsComeFromMails(cfg, before);
      AlwaysTruthful(cfg, before);
      HappenFrom(cfg, Since(cfg, before), last);
    }
  }

  lemma NothingFrom()
    ensures FromMails(NOTHING.world)
  {
  }

  /** A comment never lands on the card of another claim: after any history in which no card name
      mentions another claim, a procesado comment email has its comment on a card of its own. */
  lemma CommentsReachTheirClaim(cfg: Config, hs: seq<Happening>, mail: Mail)
    requires Configured(cfg) && History(cfg, hs) && PlainArrivals(cfg.digit, hs)
    requires var w := Since(cfg, hs).world;
             mail in w.labels && PROCESADO in w.labels[mail] && mail.plan.Comment?
    ensures exists card | card in Since(cfg, hs).world.cards ::
              card.ref == mail.plan.ref && mail.plan.text in card.notes
  {
    CardsComeFromMails(cfg, hs);
    AlwaysTruthful(cfg, hs);
    var w := Since(cfg, hs).world;
    hide History, Since;
    assert Earned(cfg, w, mail.plan) && WellFormed(cfg.digit, mail.plan);
    var card :| card in w.cards && Noted(cfg, card, mail.plan.ref, mail.plan.text);
    var m :| m in w.labels && CardOf(card, m.plan);
    assert PlainPlan(cfg.digit, m.plan);
    assert card.ref == mail.plan.ref;
  }
}
