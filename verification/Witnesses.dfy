/** Concrete runs in which a stop loses what a redo does not make good, and a card name that answers to
    a claim that is not its own. */
module Witnesses {
  import opened Options
  import opened ClaimData
  import opened Collections
  import opened Plans
  import opened Pipeline
  import opened Truth
  import opened Resume

  const CFG := Config(ASCII_DIGIT, 1, 0)
  const OWN := Ref("2026", "41")
  const BOTH: set<Label> := {PROCESADO, FAILED}

  function Name(): string {
    CardName("T", OWN, "O")
  }

  lemma NameMentions()
    ensures IsRef(ASCII_DIGIT, OWN) && Mentions(ASCII_DIGIT, Name(), OWN.Text())
  {
    CardAnswersTo(ASCII_DIGIT, "T", OWN, "O", OWN);
  }

  /** `n` calls that succeed, then one with this fate. */
  function Then(n: nat, fate: Fate): seq<Event> {
    if n == 0 then [Event(fate, 0)] else [Event(Success, 0)] + Then(n - 1, fate)
  }

  lemma {:induction false} ThenIsDoomed(n: nat, fate: Fate)
    requires !fate.Success?
    ensures Doomed(Then(n, fate)) && Total(Then(n, fate)) == 0
  {
    if n > 0 {
      ThenIsDoomed(n - 1, fate);
      assert Then(n, fate)[1..] == Then(n - 1, fate);
    } else {
      assert Then(n, fate)[1..] == [];
    }
  }

  /** One successful call of such a script. */
  lemma Succeeds(s: Sys, op: Op, n: nat, fate: Fate)
    requires n > 0 && s.script == Then(n, fate)
    ensures Call(s, op)
            == Out(Sys(Apply(s.world, op), Then(n - 1, fate), s.now, s.log + [Entry(op, true, Returned(()))]), Returned(()))
  {
    assert Then(n, fate)[1..] == Then(n - 1, fate);
  }

  lemma Stops(s: Sys, op: Op, fate: Fate)
    requires s.script == Then(0, fate) && !fate.Success?
    ensures var result := if fate.Failure? then Threw else Died;
            Call(s, op) == Out(Sys(if fate.landed then Apply(s.world, op) else s.world, [], s.now,
                                   s.log + [Entry(op, fate.landed, result)]), result)
  {
  }

  lemma SortOne(mail: Mail)
    ensures InOrder([mail]) == [mail]
  {
    assert [mail][1..] == [] && StableSort([], Earlier) == [];
    assert Insert(mail, [], Earlier) == [mail];
  }

  /** The run on a page of one mail, up to that mail: three calls. */
  lemma ReachesMail(w: World, mail: Mail, n: nat, fate: Fate) returns (t: Sys)
    requires w.made == BOTH && n >= 3
    ensures t.world == w && t.script == Then(n - 3, fate) && t.now == 0
    ensures var all := ProcessAll(CFG, t, [mail], 0, Tally(0, 0));
            !all.result.Returned? ==>
              ProcessMailbox(CFG, Sys(w, Then(n, fate), 0, []), [mail], 0)
              == Out(all.sys, if all.result.Threw? then Threw else Died)
  {
    hide ProcessAll;
    var s := Sys(w, Then(n, fate), 0, []);
    Succeeds(s, ListLabels, n, fate);
    var listed := Call(s, ListLabels).sys;
    assert {} + BOTH == BOTH;
    Succeeds(listed, ListUnread, n - 1, fate);
    var unread := Call(listed, ListUnread).sys;
    Succeeds(unread, Fetch(mail), n - 2, fate);
    t := Call(unread, Fetch(mail)).sys;
    hide Then, Apply;
    assert [mail][1..] == [] && [] + [mail] == [mail];
    assert FetchAll(t, [], 0, [mail]) == Out(t, Returned([mail]));
    assert FetchAll(unread, [mail], 0, []) == Out(t, Returned([mail]));
    assert InOrder([mail]) == [mail] by { SortOne(mail); }
  }

  // ----- A card without a row -----

  const CARD_MAIL := Mail(0, 0, Card(OWN, Some(Name()), ""))

  function CardWorld(): World {
    World(map[CARD_MAIL := {UNREAD}], BOTH, [], map[])
  }

  /** The email of that run, killed as its card is created. */
  lemma CardMailStops(s: Sys) returns (t: Sys)
    requires s.world == CardWorld() && s.script == Then(3, Death(true))
    ensures ProcessOne(CFG, s, CARD_MAIL) == Out(t, Died)
    ensures Last(t, Entry(Create(OWN, Name(), 0), true, Died))
  {
    hide Name;
    var death := Death(true);
    Succeeds(s, Extract(CARD_MAIL), 3, death);
    var extracted := Call(s, Extract(CARD_MAIL)).sys;
    Succeeds(extracted, LookUp(OWN), 2, death);
    var known := Call(extracted, LookUp(OWN)).sys;
    assert known.world == CardWorld() && known.script == Then(1, death);
    Succeeds(known, Letterhead, 1, death);
    var rendered := Call(known, Letterhead).sys;
    Stops(rendered, Create(OWN, Name(), 0), death);
    t := Call(rendered, Create(OWN, Name(), 0)).sys;
    hide Call, Then, Apply;
  }

  lemma CardWorldHasBoth()
    ensures CardWorld().made == BOTH
  {
  }

  /** The run stops as the card is created. */
  lemma CardRunStops() returns (t: Sys, e: Entry)
    ensures var o := ProcessMailbox(CFG, Sys(CardWorld(), Then(6, Death(true)), 0, []), [CARD_MAIL], 0);
            o.sys == t && !o.result.Returned?
    ensures Last(t, e) && !Safe(e)
  {
    hide Name, ProcessMailbox, ProcessAll, ProcessOne, CardWorld, Call, Then;
    var s := ReachesMail(CardWorld(), CARD_MAIL, 6, Death(true)) by { hide *; CardWorldHasBoth(); }
    t := CardMailStops(s);
    e := Entry(Create(OWN, Name(), 0), true, Died);
    LoopOnOne(s, CARD_MAIL);
  }

  lemma CardWorldIsTruthful()
    ensures Configured(CFG) && Truthful(CFG, CardWorld())
    ensures Page([CARD_MAIL], CardWorld()) == [CARD_MAIL] && Distinct([CARD_MAIL])
  {
    NameMentions();
    hide Name;
    assert CardWorld().labels[CARD_MAIL] == {UNREAD};
    OneUnread(CardWorld(), CARD_MAIL);
  }

  /** A process killed as its card is created: the redo files a second card, and the two worlds
      differ forever. */
  lemma KilledAtCreate() returns (left: World)
    ensures left == ProcessMailbox(CFG, Sys(CardWorld(), Then(6, Death(true)), 0, []), Page([CARD_MAIL], CardWorld()), 0).sys.world
    ensures ProcessMailbox(CFG, Sys(left, [], 0, []), Page([CARD_MAIL], left), 0).sys.world
            != ProcessMailbox(CFG, Sys(CardWorld(), [], 0, []), Page([CARD_MAIL], CardWorld()), 0).sys.world
  {
    CardWorldIsTruthful();
    ThenIsDoomed(6, Death(true));
    var t, e := CardRunStops();
    left := t.world;
    assert Filter([CARD_MAIL], Labelled(CardWorld(), UNREAD)) == [CARD_MAIL] by { OneUnread(CardWorld(), CARD_MAIL); }
    hide ProcessMailbox, Truthful, Name, CardWorld, Safe;
    CrashThenRun(CFG, [CARD_MAIL], Sys(CardWorld(), Then(6, Death(true)), 0, []), Sys(left, [], 0, []),
                 Sys(CardWorld(), [], 0, []), 0, 0, 0, e);
  }

  lemma OneUnread(w: World, mail: Mail)
    requires mail in w.labels && w.labels[mail] == {UNREAD}
    ensures Filter([mail], Labelled(w, UNREAD)) == [mail]
  {
    assert [mail][1..] == [];
  }

  // ----- A comment without a label -----

  const NOTE := "@board N"
  const NOTE_MAIL := Mail(0, 0, Comment(OWN, NOTE))

  function NoteWorld(): World {
    World(map[NOTE_MAIL := {UNREAD}], BOTH, [BoardCard(OWN, Name(), true, Some(NOTE), [], false, OnList(0))], map[OWN := 0])
  }

  lemma NoteWorldIsTruthful()
    ensures Configured(CFG) && Truthful(CFG, NoteWorld())
    ensures Page([NOTE_MAIL], NoteWorld()) == [NOTE_MAIL] && Distinct([NOTE_MAIL])
  {
    NameMentions();
    hide Name;
    assert NoteWorld().labels[NOTE_MAIL] == {UNREAD};
    OneUnread(NoteWorld(), NOTE_MAIL);
  }

  /** The board search of that run: two calls. */
  lemma NoteFound(s: Sys, n: nat, fate: Fate) returns (t: Sys)
    requires s.world == NoteWorld() && s.script == Then(n, fate) && n >= 2
    ensures t.world == NoteWorld() && t.script == Then(n - 2, fate)
    ensures FindCard(CFG, s, OWN) == Out(t, Returned(Some(0)))
  {
    NameMentions();
    hide Name, Mentions;
    Succeeds(s, Browse, n, fate);
    var listed := Call(s, Browse).sys;
    Succeeds(listed, Browse, n - 1, fate);
    t := Call(listed, Browse).sys;
    assert Answers(CFG, NoteWorld().cards[0], OnList(0), OWN);
  }

  /** The email of that run, from its extraction on. */
  lemma NoteReached(s: Sys, n: nat, fate: Fate) returns (found: Sys)
    requires s.world == NoteWorld() && s.script == Then(n, fate) && n >= 3
    ensures found.world == NoteWorld() && found.script == Then(n - 3, fate)
    ensures var noted := Call(found, AddNote(0, NOTE));
            ProcessOne(CFG, s, NOTE_MAIL)
            == Out(noted.sys, if noted.result.Returned? then Returned(COMMENT) else Stop(noted.result))
  {
    Succeeds(s, Extract(NOTE_MAIL), n, fate);
    var extracted := Call(s, Extract(NOTE_MAIL)).sys;
    found := NoteFound(extracted, n - 1, fate);
    hide Then, NoteWorld, FindCard;
  }

  /** The loop over one mail, when it stops. */
  lemma LoopOnOne(s: Sys, mail: Mail)
    requires s.now == 0
    ensures var one := ProcessOne(CFG, s, mail);
            var relabel := Call(one.sys, Relabel(mail, Verdict(one.result)));
            var all := ProcessAll(CFG, s, [mail], 0, Tally(0, 0));
            && (one.result.Died? ==> all == Out(one.sys, Died))
            && (!one.result.Died? && !relabel.result.Returned? ==>
                  all.sys == relabel.sys && !all.result.Returned?)
  {
    hide ProcessOne, Call;
  }

  lemma NoteWorldHasBoth()
    ensures NoteWorld().made == BOTH
  {
  }

  /** The run stops as the comment is posted. */
  lemma NoteRunKilled() returns (t: Sys)
    ensures var o := ProcessMailbox(CFG, Sys(NoteWorld(), Then(6, Death(true)), 0, []), [NOTE_MAIL], 0);
            o.sys == t && !o.result.Returned?
    ensures Last(t, Entry(AddNote(0, NOTE), true, Died))
  {
    hide ProcessMailbox, ProcessOne, ProcessAll, NoteWorld, Then, Apply, Safe;
    var s := ReachesMail(NoteWorld(), NOTE_MAIL, 6, Death(true)) by { hide *; NoteWorldHasBoth(); }
    var found := NoteReached(s, 3, Death(true));
    Stops(found, AddNote(0, NOTE), Death(true));
    t := Call(found, AddNote(0, NOTE)).sys;
    hide Call;
    LoopOnOne(s, NOTE_MAIL);
  }

  /** The run stops one call later, at the label. */
  lemma NoteRunFails() returns (t: Sys)
    ensures var o := ProcessMailbox(CFG, Sys(NoteWorld(), Then(7, Failure(false)), 0, []), [NOTE_MAIL], 0);
            o.sys == t && !o.result.Returned?
    ensures Last(t, Entry(Relabel(NOTE_MAIL, PROCESADO), false, Threw))
  {
    hide ProcessMailbox, ProcessOne, ProcessAll, NoteWorld, Then, Apply, Safe;
    var s := ReachesMail(NoteWorld(), NOTE_MAIL, 7, Failure(false)) by { hide *; NoteWorldHasBoth(); }
    var found := NoteReached(s, 4, Failure(false));
    Succeeds(found, AddNote(0, NOTE), 1, Failure(false));
    var noted := Call(found, AddNote(0, NOTE)).sys;
    Stops(noted, Relabel(NOTE_MAIL, PROCESADO), Failure(false));
    t := Call(noted, Relabel(NOTE_MAIL, PROCESADO)).sys;
    hide Call;
    LoopOnOne(s, NOTE_MAIL);
  }

  lemma NoteRunStops(atLabel: bool) returns (t: Sys, e: Entry)
    ensures var script := if atLabel then Then(7, Failure(false)) else Then(6, Death(true));
            var o := ProcessMailbox(CFG, Sys(NoteWorld(), script, 0, []), [NOTE_MAIL], 0);
            o.sys == t && !o.result.Returned?
    ensures Last(t, e) && !Safe(e)
  {
    hide ProcessMailbox, NoteWorld, Then;
    if atLabel {
      t := NoteRunFails();
      e := Entry(Relabel(NOTE_MAIL, PROCESADO), false, Threw);
    } else {
      t := NoteRunKilled();
      e := Entry(AddNote(0, NOTE), true, Died);
    }
  }

  /** A process killed as its comment is posted, and a run that fails at the comment's label: the next
      run posts it again, and the two worlds differ forever. */
  lemma StoppedAtComment(atLabel: bool) returns (left: World)
    ensures var script := if atLabel then Then(7, Failure(false)) else Then(6, Death(true));
            left == ProcessMailbox(CFG, Sys(NoteWorld(), script, 0, []), Page([NOTE_MAIL], NoteWorld()), 0).sys.world
    ensures ProcessMailbox(CFG, Sys(left, [], 0, []), Page([NOTE_MAIL], left), 0).sys.world
            != ProcessMailbox(CFG, Sys(NoteWorld(), [], 0, []), Page([NOTE_MAIL], NoteWorld()), 0).sys.world
  {
    var n, fate := if atLabel then 7 else 6, if atLabel then Failure(false) else Death(true);
    NoteWorldIsTruthful();
    ThenIsDoomed(n, fate);
    var t, e := NoteRunStops(atLabel);
    left := t.world;
    assert Filter([NOTE_MAIL], Labelled(NoteWorld(), UNREAD)) == [NOTE_MAIL] by { OneUnread(NoteWorld(), NOTE_MAIL); }
    hide ProcessMailbox, Truthful, Name, NoteWorld;
    CrashThenRun(CFG, [NOTE_MAIL], Sys(NoteWorld(), Then(n, fate), 0, []), Sys(left, [], 0, []),
                 Sys(NoteWorld(), [], 0, []), 0, 0, 0, e);
  }

  // ----- A town that mentions another claim -----

  /** The card of 2026/41 in the town "V 2025/7" answers to 2025/7, and its name reads as 2025/7. */
  lemma TownMentionsAnother()
    ensures var other, name := Ref("2025", "7"), CardName("V 2025/7", OWN, "O");
            && Mentions(ASCII_DIGIT, name, other.Text())
            && ParseClaimRef(ASCII_DIGIT, name, false) == Some(other)
  {
    var other := Ref("2025", "7");
    var town := "V" + [' '] + other.Text();
    assert IsRef(ASCII_DIGIT, other) && IsRef(ASCII_DIGIT, OWN);
    assert other.Text() == "2025/7" && "V 2025/7" == town;
    ParseOwnText(ASCII_DIGIT, other);
    assert ParseSlashed(ASCII_DIGIT, "V") == None;
    hide Mentions, ParseSlashed, CardName, IsRef, FindSlashless;
    ParseAcross(ASCII_DIGIT, "V", ' ', other.Text());
    MentionsOther(ASCII_DIGIT, other, other);
    MentionsAcross(ASCII_DIGIT, "V", ' ', other.Text(), other.Text());
    CardAnswersTo(ASCII_DIGIT, town, OWN, "O", other);
    CardNameRoundTrip(ASCII_DIGIT, town, OWN, "O", false);
  }
}
