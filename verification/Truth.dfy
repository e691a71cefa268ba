/** What the labels, the ledger and the board say to each other in every reachable state.

    A run can be killed after any call, so the state between any two calls of a run is the
    state some killed run leaves behind: an invariant of histories is one of every state, as
    `Moments.EveryMoment` proves. */
module Truth {
  import opened Options
  import opened ClaimData
  import opened Collections
  import opened Plans
  import opened Pipeline

  ghost predicate Configured(cfg: Config) {
    cfg.target < cfg.lists
  }

  ghost predicate OnBoard(cfg: Config, place: Place) {
    place.OnList? ==> place.list < cfg.lists
  }

  /** An email is UNREAD, procesado or failed, and exactly one of them. */
  ghost predicate OneLabel(w: World) {
    forall m | m in w.labels :: exists l: Label :: w.labels[m] == {l}
  }

  /** A ledger row carries the URL of a card of its own ref that was completed, still stands, and
      that the board search finds. */
  ghost predicate LedgerTrue(cfg: Config, w: World) {
    forall ref | ref in w.ledger ::
      var i := w.ledger[ref];
      && i < |w.cards| && w.cards[i].ref == ref
      && w.cards[i].attached && w.cards[i].announced.Some? && !w.cards[i].deleted
      && OnBoard(cfg, w.cards[i].place) && Mentions(cfg.digit, w.cards[i].name, ref.Text())
  }

  ghost predicate Noted(cfg: Config, card: BoardCard, ref: Ref, text: string) {
    text in card.notes && Mentions(cfg.digit, card.name, ref.Text())
  }

  /** What `procesado` claims about an email with this plan. */
  ghost predicate Earned(cfg: Config, w: World, plan: Plan) {
    match plan
    case Reject(_) => false
    case Comment(ref, text) => exists card | card in w.cards :: Noted(cfg, card, ref, text)
    case Card(ref, _, _) => ref in w.ledger
  }

  ghost predicate LabelsTrue(cfg: Config, w: World) {
    forall m | m in w.labels && PROCESADO in w.labels[m] :: Earned(cfg, w, m.plan)
  }

  ghost predicate Truthful(cfg: Config, w: World) {
    && OneLabel(w) && LedgerTrue(cfg, w) && LabelsTrue(cfg, w)
    && forall m | m in w.labels :: WellFormed(cfg.digit, m.plan)
  }

  /** How processing one email changes the board and the ledger: rows and cards are added, and the
      cards of before at most gain notes. */
  ghost predicate Extends(w: World, w': World) {
    && w'.labels == w.labels && w'.made == w.made
    && |w.cards| <= |w'.cards|
    && (forall i | 0 <= i < |w.cards| :: w'.cards[i] == w.cards[i].(notes := w'.cards[i].notes))
    && (forall i | 0 <= i < |w.cards| :: w.cards[i].notes <= w'.cards[i].notes)
    && (forall ref | ref in w.ledger :: ref in w'.ledger && w'.ledger[ref] == w.ledger[ref])
  }

  lemma ExtendsEarned(cfg: Config, w: World, w': World, plan: Plan)
    requires Extends(w, w') && Earned(cfg, w, plan)
    ensures Earned(cfg, w', plan)
  {
    if plan.Comment? {
      var card :| card in w.cards && Noted(cfg, card, plan.ref, plan.text);
      var i :| 0 <= i < |w.cards| && w.cards[i] == card;
      assert w'.cards[i].notes[..|card.notes|] == card.notes;
      assert Noted(cfg, w'.cards[i], plan.ref, plan.text);
    }
  }

  // ----- The board search -----

  lemma {:induction false} FirstAnswerIs(cfg: Config, cards: seq<BoardCard>, place: Place, ref: Ref, i: nat)
    requires i <= |cards|
    ensures match FirstAnswer(cfg, cards, place, ref, i)
            case Some(k) => i <= k < |cards| && Answers(cfg, cards[k], place, ref)
                            && forall j | i <= j < k :: !Answers(cfg, cards[j], place, ref)
            case None => forall j | i <= j < |cards| :: !Answers(cfg, cards[j], place, ref)
    decreases |cards| - i
  {
    if i < |cards| && !Answers(cfg, cards[i], place, ref) {
      FirstAnswerIs(cfg, cards, place, ref, i + 1);
    }
  }

  /** The board's own order: the lists one after the other, then the archive, and in each the cards as
      they stand. */
  ghost predicate StandsBefore(p: Place, i: nat, q: Place, j: nat) {
    match p
    case OnList(k) => q.Archived? || k < q.list || (k == q.list && i <= j)
    case Archived => q.Archived? && i <= j
  }

  /** A card of the board, or its archive, that the search may return. */
  ghost predicate OnOffer(cfg: Config, card: BoardCard, ref: Ref) {
    !card.deleted && OnBoard(cfg, card.place) && Mentions(cfg.digit, card.name, ref.Text())
  }

  ghost predicate StandsFirst(cfg: Config, cards: seq<BoardCard>, ref: Ref, i: nat) {
    && i < |cards| && OnOffer(cfg, cards[i], ref)
    && forall c | 0 <= c < |cards| && OnOffer(cfg, cards[c], ref) :: StandsBefore(cards[i].place, i, cards[c].place, c)
  }

  lemma {:induction false} SearchFinds(cfg: Config, s: Sys, ref: Ref, k: nat)
    ensures var o, cards := SearchFrom(cfg, s, ref, k), s.world.cards;
            && o.sys.world == s.world
            && match o.result
               case Returned(Some(i)) =>
                 && i < |cards| && OnOffer(cfg, cards[i], ref) && (cards[i].place.OnList? ==> cards[i].place.list >= k)
                 && forall c | 0 <= c < |cards| && OnOffer(cfg, cards[c], ref) && (cards[c].place.OnList? ==> cards[c].place.list >= k) ::
                      StandsBefore(cards[i].place, i, cards[c].place, c)
               case Returned(None) =>
                 k <= cfg.lists ==>
                   forall c | 0 <= c < |cards| && (cards[c].place.OnList? ==> cards[c].place.list >= k) :: !OnOffer(cfg, cards[c], ref)
               case _ => true
    decreases cfg.lists + 1 - k
  {
    hide Mentions;
    if k <= cfg.lists {
      var o := Call(s, Browse);
      FirstAnswerIs(cfg, s.world.cards, PlaceOf(cfg, k), ref, 0);
      if o.result.Returned? && FirstAnswer(cfg, s.world.cards, PlaceOf(cfg, k), ref, 0).None? {
        SearchFinds(cfg, o.sys, ref, k + 1);
        SearchPast(cfg, s.world.cards, ref, k);
      }
    }
  }

  /** Nothing on the `k`-th list: what is left stands behind it. */
  lemma SearchPast(cfg: Config, cards: seq<BoardCard>, ref: Ref, k: nat)
    requires k <= cfg.lists && forall c | 0 <= c < |cards| :: !Answers(cfg, cards[c], PlaceOf(cfg, k), ref)
    ensures k < cfg.lists ==>
              forall c | 0 <= c < |cards| && OnOffer(cfg, cards[c], ref) :: cards[c].place != OnList(k)
    ensures k == cfg.lists ==>
              forall c | 0 <= c < |cards| && OnOffer(cfg, cards[c], ref) :: cards[c].place.OnList? && cards[c].place.list < k
  {
    hide Mentions;
  }

  /** The search returns the card that stands first of all that answer to the ref, in the lists and then
      the archive, and none only if there is none. */
  lemma FindFinds(cfg: Config, s: Sys, ref: Ref)
    ensures var o, cards := FindCard(cfg, s, ref), s.world.cards;
            && o.sys.world == s.world
            && match o.result
               case Returned(Some(i)) => StandsFirst(cfg, cards, ref, i)
               case Returned(None) => forall card | card in cards :: !OnOffer(cfg, card, ref)
               case _ => true
  {
    hide Mentions;
    var first := Call(s, Browse);
    SearchFinds(cfg, first.sys, ref, 0);
  }

  // ----- One email -----

  /** `w` with one more card at the end. */
  function Plus(w: World, card: BoardCard): World {
    w.(cards := w.cards + [card])
  }

  lemma ApplyLast(w: World, card: BoardCard, op: Op)
    requires op.Attach? || op.Announce? || op.Delete?
    requires op.card == |w.cards|
    ensures Apply(Plus(w, card), op)
            == Plus(w, match op
                       case Attach(_, _) => card.(attached := true)
                       case Announce(_, _, text) => card.(announced := Some(text))
                       case _ => card.(deleted := true))
  {
    var n := |w.cards|;
    assert Plus(w, card).cards[n] == card;
    assert forall c :: (w.cards + [card])[n := c] == w.cards + [c];
  }

  lemma PlusExtends(w: World, card: BoardCard)
    ensures Extends(w, Plus(w, card))
  {
  }

  /** `w` with at most one more card, of this claim, name and comment. */
  ghost predicate OneMore(w: World, w': World, ref: Ref, name: string, text: string) {
    w' == w || exists c: BoardCard | c.ref == ref && c.name == name && Says(c, text) :: w' == Plus(w, c)
  }

  predicate Says(card: BoardCard, text: string) {
    card.announced.Some? ==> card.announced.value == text
  }

  lemma CompensateUnit(w: World, card: BoardCard, s: Sys, ref: Ref, text: string)
    requires s.world == Plus(w, card) && Says(card, text)
    ensures var o := Compensate(s, ref, |w.cards|);
            !o.result.Returned? && OneMore(w, o.sys.world, card.ref, card.name, text)
  {
    ApplyLast(w, card, Delete(ref, |w.cards|));
  }

  /** The unit adds at most one card and changes nothing else; when it returns, the card is whole. */
  lemma CardUnit(cfg: Config, s: Sys, ref: Ref, name: string, text: string)
    ensures var o := CreateFullCard(cfg, s, ref, name, text);
            && OneMore(s.world, o.sys.world, ref, name, text)
            && (o.result.Returned? ==>
                  && o.result.value == |s.world.cards|
                  && o.sys.world == Plus(s.world, Whole(cfg, ref, name, text)))
  {
    var w, n := s.world, |s.world.cards|;
    var created := Call(s, Create(ref, name, cfg.target));
    var bare := BoardCard(ref, name, false, None, [], false, OnList(cfg.target));
    assert Apply(w, Create(ref, name, cfg.target)) == Plus(w, bare);
    if created.result.Returned? {
      ApplyLast(w, bare, Attach(ref, n));
      var attached := Call(created.sys, Attach(ref, n));
      var pinned := if attached.sys.world == Plus(w, bare) then bare else bare.(attached := true);
      assert attached.sys.world == Plus(w, pinned);
      if attached.result.Threw? {
        CompensateUnit(w, pinned, attached.sys, ref, text);
      } else if attached.result.Returned? {
        UnitTail(w, pinned, attached.sys, ref, text);
      }
    }
  }

  lemma UnitTail(w: World, card: BoardCard, s: Sys, ref: Ref, text: string)
    requires s.world == Plus(w, card) && Says(card, text)
    ensures var announced := Call(s, Announce(ref, |w.cards|, text));
            && (announced.result.Returned? ==> announced.sys.world == Plus(w, card.(announced := Some(text))))
            && OneMore(w, announced.sys.world, card.ref, card.name, text)
            && (announced.result.Threw? ==>
                  OneMore(w, Compensate(announced.sys, ref, |w.cards|).sys.world, card.ref, card.name, text))
  {
    ApplyLast(w, card, Announce(ref, |w.cards|, text));
    var announced := Call(s, Announce(ref, |w.cards|, text));
    var c := if announced.sys.world == Plus(w, card) then card else card.(announced := Some(text));
    assert announced.sys.world == Plus(w, c);
    CompensateUnit(w, c, announced.sys, ref, text);
  }

  lemma ExtendsLedgerTrue(cfg: Config, w: World, w': World)
    requires LedgerTrue(cfg, w) && Extends(w, w') && w'.ledger == w.ledger
    ensures LedgerTrue(cfg, w')
  {
  }

  function WithNote(w: World, i: nat, text: string): World
    requires i < |w.cards|
  {
    w.(cards := w.cards[i := w.cards[i].(notes := w.cards[i].notes + [text])])
  }

  /** The card a plan asks for, complete. */
  function Whole(cfg: Config, ref: Ref, name: string, text: string): BoardCard {
    BoardCard(ref, name, true, Some(text), [], false, OnList(cfg.target))
  }

  function Filed(cfg: Config, w: World, ref: Ref, name: string, text: string): World {
    Plus(w, Whole(cfg, ref, name, text)).(ledger := w.ledger[ref := |w.cards|])
  }

  /** What an email that is processed has done, by what the log says of it: the plan's card with the
      plan's comment on it and a row, nothing, or the plan's comment on the first card of the claim. */
  ghost predicate Did(cfg: Config, w: World, w': World, plan: Plan, action: Action) {
    match action
    case CARD =>
      plan.Card? && plan.name.Some? && plan.ref !in w.ledger && w' == Filed(cfg, w, plan.ref, plan.name.value, plan.text)
    case DEDUP_SKIP => plan.Card? && plan.ref in w.ledger && w' == w
    case COMMENT =>
      plan.Comment? && exists i | 0 <= i < |w.cards| ::
        StandsFirst(cfg, w.cards, plan.ref, i) && w' == WithNote(w, i, plan.text)
  }

  lemma CommentTrue(cfg: Config, s: Sys, ref: Ref, text: string)
    requires LedgerTrue(cfg, s.world)
    ensures var o := PostComment(cfg, s, ref, text);
            && LedgerTrue(cfg, o.sys.world) && Extends(s.world, o.sys.world)
            && (o.result.Returned? ==>
                  && o.result.value == COMMENT && Earned(cfg, o.sys.world, Comment(ref, text))
                  && Did(cfg, s.world, o.sys.world, Comment(ref, text), COMMENT))
  {
    FindFinds(cfg, s, ref);
    var found := FindCard(cfg, s, ref);
    hide FindCard, Mentions, LedgerTrue;
    if found.result.Returned? && found.result.value.Some? {
      var i := found.result.value.value;
      assert Apply(s.world, AddNote(i, text)) == WithNote(s.world, i, text);
      ExtendsLedgerTrue(cfg, s.world, Apply(s.world, AddNote(i, text)));
      assert Noted(cfg, Apply(s.world, AddNote(i, text)).cards[i], ref, text);
    }
  }

  lemma RecordTrue(cfg: Config, w: World, ref: Ref, name: string, text: string)
    requires Configured(cfg) && LedgerTrue(cfg, w) && ref !in w.ledger && Mentions(cfg.digit, name, ref.Text())
    ensures var w' := Apply(Plus(w, Whole(cfg, ref, name, text)), Record(ref, |w.cards|));
            LedgerTrue(cfg, w') && Extends(w, w') && ref in w'.ledger && w' == Filed(cfg, w, ref, name, text)
  {
  }

  lemma RowTrue(cfg: Config, w: World, unit: Out<nat>, ref: Ref, name: string, text: string)
    requires Configured(cfg) && LedgerTrue(cfg, w) && ref !in w.ledger && Mentions(cfg.digit, name, ref.Text())
    requires OneMore(w, unit.sys.world, ref, name, text)
    requires unit.result.Returned? ==>
               unit.result.value == |w.cards| && unit.sys.world == Plus(w, Whole(cfg, ref, name, text))
    ensures var o := FileRow(unit, ref);
            && LedgerTrue(cfg, o.sys.world) && Extends(w, o.sys.world)
            && (o.result.Returned? ==> o.result.value == CARD && o.sys.world == Filed(cfg, w, ref, name, text))
  {
    hide LedgerTrue, Extends, Mentions;
    ExtendsItself(w);
    if unit.sys.world != w {
      var c: BoardCard :| unit.sys.world == Plus(w, c);
      PlusExtends(w, c);
      ExtendsLedgerTrue(cfg, w, unit.sys.world);
    }
    RecordTrue(cfg, w, ref, name, text);
  }

  lemma ExtendsItself(w: World)
    ensures Extends(w, w)
  {
  }

  lemma FilingTrue(cfg: Config, s: Sys, ref: Ref, name: Option<string>, text: string)
    requires Configured(cfg) && LedgerTrue(cfg, s.world) && ref !in s.world.ledger
    requires name.Some? ==> Mentions(cfg.digit, name.value, ref.Text())
    ensures var o := FileClaim(cfg, s, ref, name, text);
            && LedgerTrue(cfg, o.sys.world) && Extends(s.world, o.sys.world)
            && (o.result.Returned? ==> o.result.value == CARD && name.Some? && o.sys.world == Filed(cfg, s.world, ref, name.value, text))
  {
    hide CreateFullCard, FileRow;
    var letterhead := Call(s, Letterhead);
    if letterhead.result.Returned? && name.Some? {
      CardUnit(cfg, letterhead.sys, ref, name.value, text);
      RowTrue(cfg, s.world, CreateFullCard(cfg, letterhead.sys, ref, name.value, text), ref, name.value, text);
    }
  }

  lemma OneTrue(cfg: Config, s: Sys, mail: Mail)
    requires Configured(cfg) && LedgerTrue(cfg, s.world) && WellFormed(cfg.digit, mail.plan)
    ensures var o := ProcessOne(cfg, s, mail);
            && LedgerTrue(cfg, o.sys.world) && Extends(s.world, o.sys.world)
            && (o.result.Returned? ==>
                  Earned(cfg, o.sys.world, mail.plan) && Did(cfg, s.world, o.sys.world, mail.plan, o.result.value))
  {
    hide PostComment, FileClaim, LedgerTrue, Mentions;
    if mail.plan != Reject(false) {
      var extracted := Call(s, Extract(mail));
      if extracted.result.Returned? {
        match mail.plan
        case Reject(_) =>
        case Comment(ref, text) => CommentTrue(cfg, extracted.sys, ref, text);
        case Card(ref, name, text) =>
          var known := Call(extracted.sys, LookUp(ref));
          if known.result.Returned? && ref !in known.sys.world.ledger {
            FilingTrue(cfg, known.sys, ref, name, text);
          }
      }
    }
  }

  // ----- One run -----

  /** Mails the run may take up: distinct, known and still UNREAD. */
  ghost predicate Waiting(w: World, mails: seq<Mail>) {
    Distinct(mails) && forall m | m in mails :: m in w.labels && w.labels[m] == {UNREAD}
  }

  function Labelled(w: World, l: Label): Mail -> bool {
    (m: Mail) => m in w.labels && w.labels[m] == {l}
  }

  /** The labels of `w'` are those of `w` except that the first `k` mails left UNREAD. */
  ghost predicate PrefixDone(w: World, w': World, mails: seq<Mail>, k: nat) {
    && k <= |mails| && w'.labels.Keys == w.labels.Keys
    && (forall m | m in w.labels && m !in mails[..k] :: w'.labels[m] == w.labels[m])
    && (forall m | m in mails[..k] :: m in w.labels && (w'.labels[m] == {PROCESADO} || w'.labels[m] == {FAILED}))
  }

  lemma RelabelTrue(cfg: Config, w: World, mail: Mail, to: Label)
    requires Truthful(cfg, w) && mail in w.labels && w.labels[mail] == {UNREAD}
    requires to == PROCESADO ==> Earned(cfg, w, mail.plan)
    ensures Truthful(cfg, Apply(w, Relabel(mail, to)))
    ensures Apply(w, Relabel(mail, to)).labels == w.labels[mail := {to}]
  {
    var w' := Apply(w, Relabel(mail, to));
    assert {UNREAD} - {UNREAD} + {to} == {to};
    forall m | m in w'.labels
      ensures exists l: Label :: w'.labels[m] == {l}
    {
      if m == mail { assert w'.labels[m] == {to}; } else { assert m in w.labels; }
    }
    forall m | m in w'.labels && PROCESADO in w'.labels[m]
      ensures Earned(cfg, w', m.plan)
    {
      assert Earned(cfg, w, m.plan);
      if m.plan.Comment? {
        var card :| card in w.cards && Noted(cfg, card, m.plan.ref, m.plan.text);
        assert card in w'.cards;
      }
    }
  }

  lemma ExtendsTrue(cfg: Config, w: World, w': World)
    requires Truthful(cfg, w) && Extends(w, w') && LedgerTrue(cfg, w')
    ensures Truthful(cfg, w')
  {
    forall m | m in w'.labels && PROCESADO in w'.labels[m]
      ensures Earned(cfg, w', m.plan)
    {
      ExtendsEarned(cfg, w, w', m.plan);
    }
  }

  /** One turn of the loop: the email is processed, then relabelled. */
  lemma TurnTrue(cfg: Config, s: Sys, mail: Mail)
    requires Configured(cfg) && Truthful(cfg, s.world) && mail in s.world.labels && s.world.labels[mail] == {UNREAD}
    ensures var one := ProcessOne(cfg, s, mail);
            var to := Verdict(one.result);
            var relabel := Call(one.sys, Relabel(mail, to));
            && Truthful(cfg, one.sys.world) && one.sys.world.labels == s.world.labels
            && one.sys.world.made == s.world.made
            && (!one.result.Died? ==>
                  && Truthful(cfg, relabel.sys.world) && relabel.sys.world.made == s.world.made
                  && (relabel.sys.world.labels == s.world.labels[mail := {to}]
                      || (!relabel.result.Returned? && relabel.sys.world.labels == s.world.labels)))
  {
    hide ProcessOne;
    var one := ProcessOne(cfg, s, mail);
    OneTrue(cfg, s, mail);
    ExtendsTrue(cfg, s.world, one.sys.world);
    if !one.result.Died? {
      RelabelTrue(cfg, one.sys.world, mail, Verdict(one.result));
    }
  }

  lemma CountHead(mail: Mail, rest: seq<Mail>, p: Mail -> bool)
    ensures Count([mail] + rest, p) == (if p(mail) then 1 else 0) + Count(rest, p)
  {
    CountAppend([mail], rest, p);
    CountSnoc([], mail, p);
    assert [] + [mail] == [mail];
  }

  lemma WaitingNext(w: World, w1: World, mails: seq<Mail>, to: Label)
    requires Waiting(w, mails) && mails != [] && w1.labels == w.labels[mails[0] := {to}]
    ensures Waiting(w1, mails[1..])
  {
    assert mails[0] !in mails[1..];
  }

  lemma PrefixNext(w: World, w1: World, w': World, mails: seq<Mail>, to: Label, k: nat)
    requires Waiting(w, mails) && mails != [] && w1.labels == w.labels[mails[0] := {to}]
    requires to == PROCESADO || to == FAILED
    requires PrefixDone(w1, w', mails[1..], k)
    ensures PrefixDone(w, w', mails, k + 1)
    ensures forall l: Label :: Count(mails[..k + 1], Labelled(w', l))
                               == (if l == to then 1 else 0) + Count(mails[1..][..k], Labelled(w', l))
  {
    var rest := mails[1..][..k];
    assert mails[..k + 1] == [mails[0]] + rest;
    assert mails[0] !in mails[1..] && mails[0] !in rest;
    assert w'.labels[mails[0]] == {to};
    forall l: Label
      ensures Count(mails[..k + 1], Labelled(w', l)) == (if l == to then 1 else 0) + Count(rest, Labelled(w', l))
    {
      CountHead(mails[0], rest, Labelled(w', l));
      assert {to} == {l} <==> to == l by {
        assert to in {to};
      }
    }
  }

  /** Every way the email loop can end leaves a truthful world in which exactly a prefix of the
      mails, in order, has lost UNREAD; a loop that returns has counted that prefix. */
  lemma {:induction false} LoopTrue(cfg: Config, s: Sys, mails: seq<Mail>, deadline: nat, tally: Tally) returns (k: nat)
    requires Configured(cfg) && Truthful(cfg, s.world) && Waiting(s.world, mails)
    ensures var o := ProcessAll(cfg, s, mails, deadline, tally);
            && Truthful(cfg, o.sys.world) && PrefixDone(s.world, o.sys.world, mails, k)
            && o.sys.world.made == s.world.made
            && (o.result.Returned? ==>
                  && o.result.value.processed == tally.processed + Count(mails[..k], Labelled(o.sys.world, PROCESADO))
                  && o.result.value.failed == tally.failed + Count(mails[..k], Labelled(o.sys.world, FAILED)))
    decreases |mails|
  {
    hide ProcessOne, Call, Truthful, Apply;
    k := 0;
    if mails != [] && s.now <= deadline {
      var mail := mails[0];
      var one := ProcessOne(cfg, s, mail);
      TurnTrue(cfg, s, mail);
      if !one.result.Died? {
        var to := Verdict(one.result);
        var relabel := Call(one.sys, Relabel(mail, to));
        if relabel.result.Returned? {
          WaitingNext(s.world, relabel.sys.world, mails, to);
          var rest := LoopTrue(cfg, relabel.sys, mails[1..], deadline, tally.Add(to));
          k := rest + 1;
          hide PrefixDone, Waiting, Labelled;
          PrefixNext(s.world, relabel.sys.world, ProcessAll(cfg, relabel.sys, mails[1..], deadline, tally.Add(to)).sys.world,
                     mails, to, rest);
        } else if relabel.sys.world.labels != s.world.labels {
          k := 1;
          assert mails[..1] == [mail];
        }
      }
    }
  }

  lemma {:induction false} FetchKeeps(s: Sys, ids: seq<Mail>, deadline: nat, got: seq<Mail>) returns (f: nat)
    ensures var o := FetchAll(s, ids, deadline, got);
            && o.sys.world == s.world && f <= |ids|
            && (o.result.Returned? ==> o.result.value == got + ids[..f])
    decreases |ids|
  {
    f := 0;
    if ids != [] && s.now <= deadline {
      var o := Call(s, Fetch(ids[0]));
      if o.result.Returned? {
        var rest := FetchKeeps(o.sys, ids[1..], deadline, got + [ids[0]]);
        f := rest + 1;
        assert got + [ids[0]] + ids[1..][..rest] == got + ids[..f];
      }
    }
    assert got + ids[..0] == got;
  }

  lemma InOrderWaits(w: World, mails: seq<Mail>)
    requires Waiting(w, mails)
    ensures Waiting(w, InOrder(mails)) && |InOrder(mails)| == |mails|
  {
    SortDistinct(mails, Earlier);
    SortPermutes(mails, Earlier);
  }

  /** `w'` is `w` with labels perhaps created: all that happens before the first email. */
  ghost predicate SameButMade(w: World, w': World) {
    w' == w.(made := w'.made) && w.made <= w'.made
  }

  /** Two label lookups end with both labels on the server. */
  lemma EnsureKeeps(s: Sys, cache: set<Label>, l: Label)
    requires cache <= s.world.made
    ensures var o := EnsureLabel(s, cache, l);
            && SameButMade(s.world, o.sys.world)
            && (o.result.Returned? ==> l in o.result.value && cache <= o.result.value <= o.sys.world.made)
  {
  }

  lemma SameTruth(cfg: Config, w: World, w': World)
    requires Truthful(cfg, w) && SameButMade(w, w')
    ensures Truthful(cfg, w')
  {
    forall m | m in w'.labels && PROCESADO in w'.labels[m]
      ensures Earned(cfg, w', m.plan)
    {
      assert Earned(cfg, w, m.plan);
    }
  }

  /** What a run that got as far as its loop did: it took up a prefix of the page, in
      chronological order, and relabelled a prefix of that. */
  ghost predicate RunDone(w: World, w': World, page: seq<Mail>, fetched: nat, k: nat) {
    && fetched <= |page| && k <= fetched
    && |InOrder(page[..fetched])| == fetched
    && PrefixDone(w, w', InOrder(page[..fetched]), k)
    && Chronological(w', page[..fetched])
  }

  /** Earlier by date, or of the same date and listed before. */
  ghost predicate Sooner(listed: seq<Mail>, a: Mail, b: Mail) {
    a.date < b.date || (a.date == b.date && Before(listed, a, b))
  }

  ghost predicate Unread(w: World, m: Mail) {
    m in w.labels && UNREAD in w.labels[m]
  }

  /** Every mail that has lost UNREAD is sooner than every one that has not. */
  ghost predicate Chronological(w: World, listed: seq<Mail>) {
    forall a, b | a in listed && b in listed && !Unread(w, a) && Unread(w, b) :: Sooner(listed, a, b)
  }

  lemma EarlierIsOrder()
    ensures TotalPreorder(Earlier)
  {
  }

  /** A prefix of the sorted mails is a chronological one. */
  lemma PrefixIsChronological(w: World, w': World, listed: seq<Mail>, k: nat)
    requires Waiting(w, listed) && PrefixDone(w, w', InOrder(listed), k)
    ensures Chronological(w', listed)
  {
    var mails := InOrder(listed);
    EarlierIsOrder();
    SortStable(listed, Earlier);
    SortPermutes(listed, Earlier);
    hide StableSort;
    assert UNREAD in {UNREAD} && UNREAD !in {PROCESADO} && UNREAD !in {FAILED};
    forall a, b | a in listed && b in listed && !Unread(w', a) && Unread(w', b)
      ensures Sooner(listed, a, b)
    {
      assert a in mails[..k] && b !in mails[..k];
      var i :| 0 <= i < k && mails[i] == a;
      var j :| 0 <= j < |mails| && mails[j] == b;
      assert forall h | 0 <= h < k :: mails[h] in mails[..k];
    }
  }

  lemma FinishKeeps(s: Sys, tally: Tally)
    ensures Finish(s, tally).sys.world == s.world
    ensures Finish(s, tally).result.Returned? ==> Finish(s, tally).result.value.tally == tally
  {
  }

  lemma PageTrue(cfg: Config, s: Sys, page: seq<Mail>, deadline: nat) returns (fetched: nat, k: nat)
    requires Configured(cfg) && Truthful(cfg, s.world) && Waiting(s.world, page)
    ensures var o := ProcessPage(cfg, s, page, deadline);
            && Truthful(cfg, o.sys.world) && RunDone(s.world, o.sys.world, page, fetched, k)
            && o.sys.world.made == s.world.made
            && (o.result.Returned? ==>
                  var done := InOrder(page[..fetched])[..k];
                  && o.result.value.tally.processed == Count(done, Labelled(o.sys.world, PROCESADO))
                  && o.result.value.tally.failed == Count(done, Labelled(o.sys.world, FAILED)))
  {
    hide ProcessAll, FetchAll, Truthful, Finish, InOrder, Chronological;
    var listed := Call(s, ListUnread);
    fetched, k := 0, 0;
    InOrderWaits(s.world, page[..0]);
    NothingFetched(s.world, page);
    if listed.result.Returned? {
      fetched := FetchKeeps(listed.sys, page, deadline, []);
      InOrderWaits(s.world, page[..fetched]);
      var got := FetchAll(listed.sys, page, deadline, []);
      if got.result.Returned? {
        var mails := InOrder(page[..fetched]);
        assert got.result.value == page[..fetched];
        k := LoopTrue(cfg, got.sys, mails, deadline, Tally(0, 0));
        var all := ProcessAll(cfg, got.sys, mails, deadline, Tally(0, 0));
        PrefixIsChronological(s.world, all.sys.world, page[..fetched], k);
        if all.result.Returned? { FinishKeeps(all.sys, all.result.value); }
      } else {
        NothingDone(s.world, page[..fetched]);
      }
    }
  }

  lemma NothingFetched(w: World, page: seq<Mail>)
    ensures Chronological(w, page[..0])
  {
  }

  lemma NothingDone(w: World, listed: seq<Mail>)
    requires Waiting(w, listed)
    ensures Chronological(w, listed)
  {
    assert UNREAD in {UNREAD};
  }

  /** Every way one run over a page of waiting mails can end: the world stays truthful, exactly a
      prefix of the fetched mails in chronological order has lost UNREAD, and a run that returns
      reports exactly the procesado and failed labels it set. */
  lemma RunTrue(cfg: Config, s: Sys, page: seq<Mail>, deadline: nat) returns (fetched: nat, k: nat)
    requires Configured(cfg) && Truthful(cfg, s.world) && Waiting(s.world, page)
    ensures var o := ProcessMailbox(cfg, s, page, deadline);
            && Truthful(cfg, o.sys.world) && RunDone(s.world, o.sys.world, page, fetched, k)
            && (o.result.Returned? ==>
                  var done := InOrder(page[..fetched])[..k];
                  && {PROCESADO, FAILED} <= o.sys.world.made
                  && o.result.value.tally.processed == Count(done, Labelled(o.sys.world, PROCESADO))
                  && o.result.value.tally.failed == Count(done, Labelled(o.sys.world, FAILED)))
  {
    hide ProcessPage, EnsureLabel, Truthful;
    fetched, k := 0, 0;
    InOrderWaits(s.world, page[..0]);
    var procesado := EnsureLabel(s, {}, PROCESADO);
    EnsureKeeps(s, {}, PROCESADO);
    SameTruth(cfg, s.world, procesado.sys.world);
    if procesado.result.Returned? {
      var failed := EnsureLabel(procesado.sys, procesado.result.value, FAILED);
      EnsureKeeps(procesado.sys, procesado.result.value, FAILED);
      SameTruth(cfg, s.world, failed.sys.world);
      if failed.result.Returned? {
        fetched, k := PageTrue(cfg, failed.sys, page, deadline);
      }
    }
  }

  /** The gauge is read after the loop: it shows 101 exactly when more than a page of mails is failed in
      the final state, and their number otherwise, those of this run among them. */
  lemma GaugeShowsRun(cfg: Config, s: Sys, page: seq<Mail>, deadline: nat)
    requires Configured(cfg) && Truthful(cfg, s.world) && Waiting(s.world, page)
    ensures var o := ProcessMailbox(cfg, s, page, deadline);
            o.result.Returned? && o.result.value.failedTotal.Some? ==>
              var n, failed := o.result.value.failedTotal.value, |FailedMails(o.sys.world)|;
              && (n == 101 <==> failed > 100)
              && (n != 101 ==> n == failed)
              && failed >= o.result.value.tally.failed
  {
    var fetched, k := RunTrue(cfg, s, page, deadline);
    var o := ProcessMailbox(cfg, s, page, deadline);
    GaugeIsLast(cfg, s, page, deadline);
    if o.result.Returned? {
      var done := InOrder(page[..fetched])[..k];
      InOrderWaits(s.world, page[..fetched]);
      DoneAreFailed(s.world, o.sys.world, InOrder(page[..fetched]), k);
    }
  }

  ghost function FailedMails(w: World): set<Mail> {
    set m | m in w.labels && FAILED in w.labels[m]
  }

  lemma GaugeIsLast(cfg: Config, s: Sys, page: seq<Mail>, deadline: nat)
    ensures var o := ProcessMailbox(cfg, s, page, deadline);
            o.result.Returned? && o.result.value.failedTotal.Some? ==>
              o.result.value.failedTotal.value
              == if |FailedMails(o.sys.world)| > PAGE then PAGE + 1 else |FailedMails(o.sys.world)|
  {
    hide FetchAll, ProcessAll, EnsureLabel, InOrder;
  }

  lemma DoneAreFailed(w: World, w': World, mails: seq<Mail>, k: nat)
    requires Waiting(w, mails) && k <= |mails| && PrefixDone(w, w', mails, k)
    ensures Count(mails[..k], Labelled(w', FAILED)) <= |FailedMails(w')|
  {
    var done := mails[..k];
    assert Distinct(done);
    PickedSize(done, Labelled(w', FAILED));
    PickedIn(done, Labelled(w', FAILED));
    assert Picked(done, Labelled(w', FAILED)) <= FailedMails(w');
    SubsetSmaller(Picked(done, Labelled(w', FAILED)), FailedMails(w'));
  }

  lemma SubsetSmaller(a: set<Mail>, b: set<Mail>)
    requires a <= b
    ensures |a| <= |b|
  {
    assert b == a + (b - a);
  }

  // ----- Histories -----

  datatype Happening =
    | Run(script: seq<Event>, start: nat, page: seq<Mail>)
    | Arrive(mail: Mail)
    | Move(card: nat, place: Place)      // the operator moves or archives a card

  datatype Past = Past(world: World, log: seq<Entry>)

  const NOTHING := Past(World(map[], {}, [], map[]), [])

  ghost predicate Possible(cfg: Config, w: World, h: Happening) {
    match h
    case Run(_, _, page) => Waiting(w, page) && |page| <= PAGE
    case Arrive(mail) => mail !in w.labels && WellFormed(cfg.digit, mail.plan)
    case Move(card, place) => card < |w.cards| && OnBoard(cfg, place)
  }

  function RunOf(cfg: Config, past: Past, h: Happening): Out<Counts>
    requires h.Run?
  {
    ProcessMailbox(cfg, Sys(past.world, h.script, h.start, past.log), h.page, h.start + RUN_DEADLINE_US)
  }

  function Happen(cfg: Config, past: Past, h: Happening): Past {
    match h
    case Run(script, start, page) =>
      var o := RunOf(cfg, past, h);
      Past(o.sys.world, o.sys.log)
    case Arrive(mail) => past.(world := past.world.(labels := past.world.labels[mail := {UNREAD}]))
    case Move(i, place) =>
      if i < |past.world.cards|
      then past.(world := past.world.(cards := past.world.cards[i := past.world.cards[i].(place := place)]))
      else past
  }

  ghost predicate History(cfg: Config, hs: seq<Happening>)
    decreases |hs|, 0
  {
    hs == [] || (History(cfg, hs[..|hs| - 1]) && Possible(cfg, Since(cfg, hs[..|hs| - 1]).world, hs[|hs| - 1]))
  }

  ghost function Since(cfg: Config, hs: seq<Happening>): Past
    requires History(cfg, hs)
    decreases |hs|, 1
  {
    if hs == [] then NOTHING else Happen(cfg, Since(cfg, hs[..|hs| - 1]), hs[|hs| - 1])
  }

  lemma ArriveTrue(cfg: Config, past: Past, mail: Mail)
    requires Truthful(cfg, past.world) && mail !in past.world.labels && WellFormed(cfg.digit, mail.plan)
    ensures Truthful(cfg, Happen(cfg, past, Arrive(mail)).world)
  {
    var w, w' := past.world, Happen(cfg, past, Arrive(mail)).world;
    forall m | m in w'.labels
      ensures (exists l: Label :: w'.labels[m] == {l}) && (PROCESADO in w'.labels[m] ==> Earned(cfg, w', m.plan))
    {
      if m == mail {
        assert w'.labels[m] == {UNREAD};
      } else {
        assert m in w.labels;
        if PROCESADO in w.labels[m] { assert Earned(cfg, w, m.plan); }
      }
    }
  }

  lemma MoveTrue(cfg: Config, past: Past, i: nat, place: Place)
    requires Truthful(cfg, past.world) && i < |past.world.cards| && OnBoard(cfg, place)
    ensures Truthful(cfg, Happen(cfg, past, Move(i, place)).world)
  {
    var w, w' := past.world, Happen(cfg, past, Move(i, place)).world;
    assert LedgerTrue(cfg, w');
    forall m | m in w'.labels && PROCESADO in w'.labels[m]
      ensures Earned(cfg, w', m.plan)
    {
      assert Earned(cfg, w, m.plan);
      if m.plan.Comment? {
        var card :| card in w.cards && Noted(cfg, card, m.plan.ref, m.plan.text);
        var c :| 0 <= c < |w.cards| && w.cards[c] == card;
        assert Noted(cfg, w'.cards[c], m.plan.ref, m.plan.text);
      }
    }
  }

  lemma HappenTrue(cfg: Config, past: Past, h: Happening)
    requires Configured(cfg) && Truthful(cfg, past.world) && Possible(cfg, past.world, h)
    ensures Truthful(cfg, Happen(cfg, past, h).world)
  {
    hide Truthful, ProcessMailbox;
    match h
    case Run(script, start, page) =>
      var _, _ := RunTrue(cfg, Sys(past.world, script, start, past.log), page, start + RUN_DEADLINE_US);
    case Arrive(mail) => ArriveTrue(cfg, past, mail);
    case Move(i, place) => MoveTrue(cfg, past, i, place);
  }

  lemma NothingTrue(cfg: Config)
    ensures Truthful(cfg, NOTHING.world)
  {
  }

  /** No mail is lost and no label lies, whatever arrived, was moved, failed or was killed. */
  lemma {:induction false} AlwaysTruthful(cfg: Config, hs: seq<Happening>)
    requires Configured(cfg) && History(cfg, hs)
    ensures Truthful(cfg, Since(cfg, hs).world)
  {
    hide Truthful, Happen, Possible, Configured;
    if hs == [] {
      NothingTrue(cfg);
    } else {
      var before := hs[..|hs| - 1];
      AlwaysTruthful(cfg, before);
      HappenTrue(cfg, Since(cfg, before), hs[|hs| - 1]);
    }
  }

  // ----- A comment finds its card -----

  /** Whenever the ledger is true, between any two calls included, a comment for a claim it knows is
      posted, unless a call fails: wherever the operator has put the card, and even if it is archived. */
  lemma CommentFindsItsCard(cfg: Config, s: Sys, ref: Ref, text: string)
    requires LedgerTrue(cfg, s.world) && s.script == []
    requires ref in s.world.ledger
    ensures var o := PostComment(cfg, s, ref, text);
            o.result == Returned(COMMENT) && Earned(cfg, o.sys.world, Comment(ref, text))
  {
    FindFinds(cfg, s, ref);
    SearchCalm(cfg, Call(s, Browse).sys, ref, 0);
    CommentTrue(cfg, s, ref, text);
    assert s.world.cards[s.world.ledger[ref]] in s.world.cards;
  }

  lemma {:induction false} SearchCalm(cfg: Config, s: Sys, ref: Ref, k: nat)
    requires s.script == []
    ensures SearchFrom(cfg, s, ref, k).result.Returned? && SearchFrom(cfg, s, ref, k).sys.script == []
    ensures SearchFrom(cfg, s, ref, k).sys.now == s.now
    decreases cfg.lists + 1 - k
  {
    if k <= cfg.lists {
      SearchCalm(cfg, Call(s, Browse).sys, ref, k + 1);
    }
  }
}
