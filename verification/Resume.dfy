/** "UNREAD is the checkpoint": which crashes and failures a later run makes good, exactly.

    `Turns` is the reference: what a run means when nothing goes wrong.  A run that is killed at
    some call, or fails at one outside the per-email boundary, and is followed by an undisturbed one
    ends where one undisturbed run would have ended if and only if it did not stop between a write
    to Trello and the step that makes the write known. */
module Resume {
  import opened Options
  import opened ClaimData
  import opened Collections
  import opened Plans
  import opened Pipeline
  import opened Truth

  // ----- The reference -----

  /** The card the search finds, list by list and then the archive. */
  function Hit(cfg: Config, cards: seq<BoardCard>, ref: Ref, k: nat): Option<nat>
    decreases cfg.lists + 1 - k
  {
    if k > cfg.lists then None
    else
      var first := FirstAnswer(cfg, cards, PlaceOf(cfg, k), ref, 0);
      if first.Some? then first else Hit(cfg, cards, ref, k + 1)
  }

  function Marked(w: World, mail: Mail, to: Label): World {
    if mail in w.labels then w.(labels := w.labels[mail := w.labels[mail] - {UNREAD} + {to}]) else w
  }

  /** What processing one email does to the world, short of its label, when nothing goes wrong. */
  function Effect(cfg: Config, w: World, plan: Plan): (World, Label) {
    match plan
    case Reject(_) => (w, FAILED)
    case Comment(ref, text) =>
      var hit := Hit(cfg, w.cards, ref, 0);
      if hit.Some? && hit.value < |w.cards| then (WithNote(w, hit.value, text), PROCESADO) else (w, FAILED)
    case Card(ref, name, text) =>
      if ref in w.ledger then (w, PROCESADO)
      else if name.None? then (w, FAILED)
      else (Filed(cfg, w, ref, name.value, text), PROCESADO)
  }

  function Turn(cfg: Config, w: World, mail: Mail): World {
    var (w', to) := Effect(cfg, w, mail.plan);
    Marked(w', mail, to)
  }

  function Turns(cfg: Config, w: World, mails: seq<Mail>): World
    decreases |mails|
  {
    if mails == [] then w else Turns(cfg, Turn(cfg, w, mails[0]), mails[1..])
  }

  lemma {:induction false} TurnsAppend(cfg: Config, w: World, a: seq<Mail>, b: seq<Mail>)
    ensures Turns(cfg, w, a + b) == Turns(cfg, Turns(cfg, w, a), b)
    decreases |a|
  {
    if a == [] {
      assert a + b == b;
    } else {
      assert (a + b)[1..] == a[1..] + b;
      TurnsAppend(cfg, Turn(cfg, w, a[0]), a[1..], b);
    }
  }

  // ----- Scripts: undisturbed, or cut short by one call -----

  predicate Calm(script: seq<Event>) {
    forall e | e in script :: e.fate.Success?
  }

  /** Every call succeeds until one, the last of the script, raises or kills the process. */
  predicate Doomed(script: seq<Event>) {
    script != [] && if |script| == 1 then !script[0].fate.Success? else script[0].fate.Success? && Doomed(script[1..])
  }

  /** The script ends with a call that raises. */
  predicate Fails(script: seq<Event>) {
    script != [] && script[|script| - 1].fate.Failure?
  }

  predicate Smooth(script: seq<Event>) {
    Calm(script) || Doomed(script)
  }

  function Total(script: seq<Event>): nat {
    if script == [] then 0 else script[0].took + Total(script[1..])
  }

  /** The time at which the whole script will have been used up. */
  function Horizon(s: Sys): nat {
    s.now + Total(s.script)
  }

  /** Calls between `s` and `t` that all succeeded. */
  ghost predicate Onward(s: Sys, t: Sys) {
    && Smooth(t.script) && (Doomed(s.script) ==> Doomed(t.script)) && (Calm(s.script) ==> Calm(t.script))
    && (Fails(t.script) ==> Fails(s.script))
  }

  /** The raising call has come: whatever follows succeeds. */
  ghost predicate Broke<T>(s: Sys, o: Out<T>) {
    o.result.Threw? && o.sys.script == [] && Fails(s.script)
  }

  /** One call under such a script: it succeeds and leaves such a script, or it is the last. */
  lemma SmoothCall(s: Sys, op: Op)
    requires Smooth(s.script)
    ensures var o := Call(s, op);
            && Horizon(o.sys) == Horizon(s)
            && |o.sys.log| == |s.log| + 1
            && o.sys.log[|s.log|].op == op && o.sys.log[|s.log|].result == o.result
            && o.sys.world == (if o.sys.log[|s.log|].landed then Apply(s.world, op) else s.world)
            && (o.result.Returned? ==> o.sys.log[|s.log|].landed && Onward(s, o.sys))
            && (s.script == [] ==> o.sys.script == [])
            && (!o.result.Returned? ==> !Calm(s.script) && o.sys.script == [])
            && (o.result.Threw? ==> Broke(s, o))
  {
    if s.script != [] {
      assert s.script[0] in s.script;
      assert forall e | e in s.script[1..] :: e in s.script;
    }
  }

  /** The last call of a run that was killed or failed. */
  ghost predicate Last(o: Sys, e: Entry) {
    |o.log| > 0 && o.log[|o.log| - 1] == e && !e.result.Returned?
  }

  /** The stops that lose nothing: not between a write to Trello and its ledger row, nor between a
      comment and its relabel. */
  predicate Safe(e: Entry) {
    match e.op
    case Create(_, _, _) => !e.landed
    case Attach(_, _) => false
    case Announce(_, _, _) => false
    case Delete(_, _) => false
    case Record(_, _) => e.landed
    case AddNote(_, _) => !e.landed
    case Relabel(mail, to) => e.landed || to == FAILED || !mail.plan.Comment?
    case _ => true
  }

  /** What a stopped email leaves of its own: a card without a row, or a note without a label. */
  ghost predicate Damaged(cfg: Config, w: World, w': World, plan: Plan) {
    match plan
    case Reject(_) => false
    case Comment(ref, text) =>
      var hit := Hit(cfg, w.cards, ref, 0);
      hit.Some? && hit.value < |w.cards| && w' == WithNote(w, hit.value, text)
    case Card(ref, name, _) => ref !in w.ledger && name.Some? && exists c: BoardCard :: w' == Plus(w, c)
  }

  /** Nothing lost: untouched, or the claim filed and its row written. */
  ghost predicate Intact(cfg: Config, w: World, w': World, plan: Plan) {
    || w' == w
    || (plan.Card? && plan.ref !in w.ledger && plan.name.Some? && w' == Filed(cfg, w, plan.ref, plan.name.value, plan.text))
  }

  // ----- One email under a smooth script -----

  /** How a step of an email ends: as the reference says, or killed with one of the two outcomes, or
      with the failure that marks the email. */
  ghost predicate Ends(cfg: Config, w: World, s: Sys, o: Out<Action>, plan: Plan) {
    && Horizon(o.sys) == Horizon(s)
    && (!o.result.Died? ==>
          || Broke(s, o)
          || (Onward(s, o.sys) && (o.sys.world, Verdict(o.result)) == Effect(cfg, w, plan)))
    && (o.result.Died? ==> !Calm(s.script) && Stopped(cfg, w, o.sys, plan))
  }

  ghost predicate Stopped(cfg: Config, w: World, t: Sys, plan: Plan) {
    exists e :: Last(t, e) && if Safe(e) then Intact(cfg, w, t.world, plan) else Damaged(cfg, w, t.world, plan)
  }

  lemma {:induction false} SmoothSearch(cfg: Config, s: Sys, ref: Ref, k: nat)
    requires Smooth(s.script)
    ensures var o := SearchFrom(cfg, s, ref, k);
            && Horizon(o.sys) == Horizon(s) && o.sys.world == s.world
            && (o.result.Returned? ==> o.result.value == Hit(cfg, s.world.cards, ref, k) && Onward(s, o.sys))
            && (o.result.Threw? ==> Broke(s, o))
            && (o.result.Died? ==> !Calm(s.script) && exists e :: Last(o.sys, e) && Safe(e))
    decreases cfg.lists + 1 - k
  {
    if k <= cfg.lists {
      var o := Call(s, Browse);
      SmoothCall(s, Browse);
      hide Call, FirstAnswer, Smooth, Horizon;
      if o.result.Died? {
        assert Last(o.sys, o.sys.log[|s.log|]);
      } else if o.result.Returned? {
        SmoothSearch(cfg, o.sys, ref, k + 1);
      }
    }
  }

  lemma HitIsCard(cfg: Config, cards: seq<BoardCard>, ref: Ref, k: nat)
    ensures Hit(cfg, cards, ref, k).Some? ==> Hit(cfg, cards, ref, k).value < |cards|
    decreases cfg.lists + 1 - k
  {
    if k <= cfg.lists {
      FirstAnswerIs(cfg, cards, PlaceOf(cfg, k), ref, 0);
      HitIsCard(cfg, cards, ref, k + 1);
    }
  }

  lemma SmoothComment(cfg: Config, s: Sys, ref: Ref, text: string)
    requires Smooth(s.script)
    ensures Ends(cfg, s.world, s, PostComment(cfg, s, ref, text), Comment(ref, text))
  {
    hide Call, SearchFrom;
    var o := PostComment(cfg, s, ref, text);
    var browsed := Call(s, Browse);
    SmoothCall(s, Browse);
    if browsed.result.Died? {
      assert Last(o.sys, o.sys.log[|s.log|]);
    } else if browsed.result.Returned? {
      SmoothSearch(cfg, browsed.sys, ref, 0);
      HitIsCard(cfg, s.world.cards, ref, 0);
      var found := FindCard(cfg, s, ref);
      assert found == SearchFrom(cfg, browsed.sys, ref, 0);
      match found.result
      case Died =>
        var e :| Last(found.sys, e) && Safe(e);
        assert Stopped(cfg, s.world, o.sys, Comment(ref, text));
      case Threw =>
      case Returned(None) =>
      case Returned(Some(card)) =>
        var noted := Call(found.sys, AddNote(card, text));
        SmoothCall(found.sys, AddNote(card, text));
        if noted.result.Died? {
          assert Last(o.sys, o.sys.log[|found.sys.log|]);
        }
    }
  }

  /** The unit and the row, for a claim the ledger does not know. */
  lemma SmoothUnit(cfg: Config, s: Sys, ref: Ref, name: string, text: string)
    requires Smooth(s.script) && ref !in s.world.ledger
    ensures Ends(cfg, s.world, s, FileRow(CreateFullCard(cfg, s, ref, name, text), ref), Card(ref, Some(name), text))
  {
    hide Call;
    var w, n := s.world, |s.world.cards|;
    var plan := Card(ref, Some(name), text);
    var op := Create(ref, name, cfg.target);
    var bare := BoardCard(ref, name, false, None, [], false, OnList(cfg.target));
    var created := Call(s, op);
    SmoothCall(s, op);
    assert Apply(w, op) == Plus(w, bare);
    if created.result.Died? {
      assert Last(created.sys, created.sys.log[|s.log|]);
      assert Stopped(cfg, w, created.sys, plan);
    } else if created.result.Returned? {
      var attached := Call(created.sys, Attach(ref, n));
      SmoothCall(created.sys, Attach(ref, n));
      ApplyLast(w, bare, Attach(ref, n));
      var pinned := bare.(attached := true);
      if attached.result.Died? {
        assert Last(attached.sys, attached.sys.log[|created.sys.log|]);
        assert Stopped(cfg, w, attached.sys, plan);
      } else if attached.result.Threw? {
        SmoothCall(attached.sys, Delete(ref, n));
      } else {
        SmoothAnnounce(cfg, w, attached.sys, pinned, ref, name, text);
      }
    }
  }

  lemma SmoothAnnounce(cfg: Config, w: World, s: Sys, pinned: BoardCard, ref: Ref, name: string, text: string)
    requires Smooth(s.script) && ref !in w.ledger
    requires s.world == Plus(w, pinned)
    requires pinned == BoardCard(ref, name, true, None, [], false, OnList(cfg.target))
    ensures var announced := Call(s, Announce(ref, |w.cards|, text));
            && (announced.result.Threw? ==>
                  Ends(cfg, w, s, FileRow(Compensate(announced.sys, ref, |w.cards|), ref), Card(ref, Some(name), text)))
            && (!announced.result.Threw? ==>
                  Ends(cfg, w, s,
                       FileRow(Out(announced.sys, if announced.result.Died? then Died else Returned(|w.cards|)), ref),
                       Card(ref, Some(name), text)))
  {
    hide Call;
    var n := |w.cards|;
    var plan := Card(ref, Some(name), text);
    var announced := Call(s, Announce(ref, n, text));
    SmoothCall(s, Announce(ref, n, text));
    ApplyLast(w, pinned, Announce(ref, n, text));
    if announced.result.Died? {
      assert Last(announced.sys, announced.sys.log[|s.log|]);
      assert Stopped(cfg, w, announced.sys, plan);
    } else if announced.result.Threw? {
      SmoothCall(announced.sys, Delete(ref, n));
    } else {
      assert announced.sys.world == Plus(w, Whole(cfg, ref, name, text));
      var row := Call(announced.sys, Record(ref, n));
      SmoothCall(announced.sys, Record(ref, n));
      if row.result.Died? {
        assert Last(row.sys, row.sys.log[|announced.sys.log|]);
        assert Stopped(cfg, w, row.sys, plan);
      }
    }
  }

  lemma SmoothFiling(cfg: Config, s: Sys, ref: Ref, name: Option<string>, text: string)
    requires Smooth(s.script) && ref !in s.world.ledger
    ensures Ends(cfg, s.world, s, FileClaim(cfg, s, ref, name, text), Card(ref, name, text))
  {
    hide Call, CreateFullCard, FileRow;
    var o := FileClaim(cfg, s, ref, name, text);
    var letterhead := Call(s, Letterhead);
    SmoothCall(s, Letterhead);
    if letterhead.result.Died? {
      assert Last(o.sys, o.sys.log[|s.log|]);
    } else if letterhead.result.Returned? && name.Some? {
      SmoothUnit(cfg, letterhead.sys, ref, name.value, text);
    }
  }

  lemma SmoothOne(cfg: Config, s: Sys, mail: Mail)
    requires Smooth(s.script)
    ensures Ends(cfg, s.world, s, ProcessOne(cfg, s, mail), mail.plan)
  {
    hide Call, PostComment, FileClaim;
    var o := ProcessOne(cfg, s, mail);
    if mail.plan != Reject(false) {
      var extracted := Call(s, Extract(mail));
      SmoothCall(s, Extract(mail));
      if extracted.result.Died? {
        assert Last(o.sys, o.sys.log[|s.log|]);
      } else if extracted.result.Returned? {
        match mail.plan
        case Reject(_) =>
        case Comment(ref, text) => SmoothComment(cfg, extracted.sys, ref, text);
        case Card(ref, name, text) =>
          var known := Call(extracted.sys, LookUp(ref));
          SmoothCall(extracted.sys, LookUp(ref));
          if known.result.Died? {
            assert Last(o.sys, o.sys.log[|extracted.sys.log|]);
          } else if known.result.Returned? && ref !in s.world.ledger {
            SmoothFiling(cfg, known.sys, ref, name, text);
          }
      }
    }
  }

  // ----- The loop under a smooth script -----

  /** A stopped loop: `j` mails are done; the rest is as the reference left it, or the `j`-th is
      intact or damaged. */
  ghost predicate LoopStopped(cfg: Config, w: World, t: Sys, mails: seq<Mail>, j: nat) {
    && PrefixDone(w, t.world, mails, j)
    && exists e ::
         && Last(t, e)
         && if Safe(e) then Turns(cfg, t.world, mails[j..]) == Turns(cfg, w, mails)
            else j < |mails| && Damaged(cfg, Turns(cfg, w, mails[..j]), t.world, mails[j].plan)
  }

  lemma EffectKeepsLabels(cfg: Config, w: World, plan: Plan)
    ensures Effect(cfg, w, plan).0.labels == w.labels && Effect(cfg, w, plan).0.made == w.made
    ensures Effect(cfg, w, plan).1 == PROCESADO || Effect(cfg, w, plan).1 == FAILED
  {
  }

  /** Killed at the relabel, before it landed: a claim's email is intact, a comment's is damaged. */
  lemma BeforeRelabel(cfg: Config, w: World, mail: Mail)
    ensures var (w', to) := Effect(cfg, w, mail.plan);
            if to == FAILED || !mail.plan.Comment? then Intact(cfg, w, w', mail.plan)
            else Damaged(cfg, w, w', mail.plan)
  {
  }

  lemma MarkedIs(w: World, mail: Mail, to: Label)
    requires mail in w.labels && w.labels[mail] == {UNREAD}
    ensures Marked(w, mail, to).labels == w.labels[mail := {to}]
  {
    assert {UNREAD} - {UNREAD} + {to} == {to};
  }

  lemma KilledInEmail(cfg: Config, w: World, t: Sys, mails: seq<Mail>)
    requires mails != [] && Stopped(cfg, w, t, mails[0].plan)
    ensures LoopStopped(cfg, w, t, mails, 0)
  {
    var e :| Last(t, e)
             && if Safe(e) then Intact(cfg, w, t.world, mails[0].plan) else Damaged(cfg, w, t.world, mails[0].plan);
    assert mails[0..] == mails && mails[..0] == [];
    if Safe(e) { }
  }

  lemma KilledAtRelabel(cfg: Config, w: World, t: Sys, mails: seq<Mail>, e: Entry)
    requires Waiting(w, mails) && mails != []
    requires var (w', to) := Effect(cfg, w, mails[0].plan);
             && Last(t, e) && e.op == Relabel(mails[0], to)
             && t.world == if e.landed then Turn(cfg, w, mails[0]) else w'
    ensures exists j :: LoopStopped(cfg, w, t, mails, j)
  {
    var (w', to) := Effect(cfg, w, mails[0].plan);
    EffectKeepsLabels(cfg, w, mails[0].plan);
    if e.landed {
      MarkedIs(w', mails[0], to);
      assert mails[..1] == [mails[0]];
      assert LoopStopped(cfg, w, t, mails, 1);
    } else {
      BeforeRelabel(cfg, w, mails[0]);
      assert Stopped(cfg, w, t, mails[0].plan);
      KilledInEmail(cfg, w, t, mails);
    }
  }

  lemma KilledLater(cfg: Config, w: World, t: Sys, mails: seq<Mail>, j: nat)
    requires Waiting(w, mails) && mails != []
    requires LoopStopped(cfg, Turn(cfg, w, mails[0]), t, mails[1..], j)
    ensures LoopStopped(cfg, w, t, mails, j + 1)
  {
    var w1 := Turn(cfg, w, mails[0]);
    EffectKeepsLabels(cfg, w, mails[0].plan);
    MarkedIs(Effect(cfg, w, mails[0].plan).0, mails[0], Effect(cfg, w, mails[0].plan).1);
    PrefixNext(w, w1, t.world, mails, Effect(cfg, w, mails[0].plan).1, j);
    assert mails[j + 1..] == mails[1..][j..];
    assert mails[..j + 1][1..] == mails[1..][..j];
    assert Turns(cfg, w, mails[..j + 1]) == Turns(cfg, w1, mails[1..][..j]);
    assert Turns(cfg, w, mails) == Turns(cfg, w1, mails[1..]);
    hide Turns, Turn, PrefixDone, Waiting, Damaged;
    var e :| Last(t, e)
             && if Safe(e) then Turns(cfg, t.world, mails[1..][j..]) == Turns(cfg, w1, mails[1..])
                else j < |mails[1..]| && Damaged(cfg, Turns(cfg, w1, mails[1..][..j]), t.world, mails[1..][j].plan);
    assert Last(t, e);
  }

  lemma CalmNeverFails(script: seq<Event>)
    requires Calm(script)
    ensures !Fails(script) && !Doomed(script)
  {
    if script != [] {
      assert script[|script| - 1] in script && script[0] in script;
    }
    if |script| > 1 && Doomed(script) { CalmNeverFails(script[1..]); }
  }

  /** The raising call has come, inside an email. */
  ghost predicate Spent(s: Sys, t: Sys) {
    Calm(t.script) && Fails(s.script)
  }

  /** A call raised inside the `j`-th mail: the mails before it are done, it has left `v` and is marked
      failed, and the mails behind it are done from there. */
  ghost predicate Isolated(cfg: Config, w: World, end: World, mails: seq<Mail>, j: nat, v: World) {
    && j < |mails| && Extends(Turns(cfg, w, mails[..j]), v)
    && end == Turns(cfg, Marked(v, mails[j], FAILED), mails[j + 1..])
  }

  lemma {:induction false} SmoothLoop(cfg: Config, s: Sys, mails: seq<Mail>, deadline: nat, tally: Tally)
    requires Smooth(s.script) && Horizon(s) <= deadline && Waiting(s.world, mails)
    requires Configured(cfg) && Truthful(cfg, s.world)
    ensures var o := ProcessAll(cfg, s, mails, deadline, tally);
            && Horizon(o.sys) == Horizon(s)
            && (o.result.Returned? ==>
                  || (Spent(s, o.sys) && exists j, v :: Isolated(cfg, s.world, o.sys.world, mails, j, v))
                  || (&& Onward(s, o.sys)
                      && o.sys.world == Turns(cfg, s.world, mails)
                      && PrefixDone(s.world, o.sys.world, mails, |mails|)))
            && (!o.result.Returned? ==> !Calm(s.script) && exists j :: LoopStopped(cfg, s.world, o.sys, mails, j))
    decreases |mails|, 1
  {
    hide ProcessOne, Call, Stopped, LoopStopped, Isolated, Effect, Truthful, Configured;
    var w := s.world;
    if mails == [] {
      assert mails[..|mails|] == [];
    } else {
      var one := ProcessOne(cfg, s, mails[0]);
      SmoothOne(cfg, s, mails[0]);
      if one.result.Died? {
        KilledInEmail(cfg, w, one.sys, mails);
      } else if Broke(s, one) {
        BrokenLoop(cfg, s, one, mails, deadline, tally);
      } else {
        var to := Verdict(one.result);
        var op := Relabel(mails[0], to);
        var relabel := Call(one.sys, op);
        SmoothCall(one.sys, op);
        EffectKeepsLabels(cfg, w, mails[0].plan);
        assert Apply(one.sys.world, op) == Turn(cfg, w, mails[0]);
        if !relabel.result.Returned? {
          var e := relabel.sys.log[|one.sys.log|];
          assert Last(relabel.sys, e);
          KilledAtRelabel(cfg, w, relabel.sys, mails, e);
        } else {
          MarkedIs(one.sys.world, mails[0], to);
          TurnTrue(cfg, s, mails[0]);
          LoopRest(cfg, s, one, relabel, mails, deadline, tally);
        }
      }
    }
  }

  /** A call that raises inside an email marks the email; the loop goes on undisturbed. */
  lemma {:induction false} BrokenLoop(cfg: Config, s: Sys, one: Out<Action>, mails: seq<Mail>, deadline: nat, tally: Tally)
    requires mails != [] && s.now <= deadline && one == ProcessOne(cfg, s, mails[0]) && Broke(s, one)
    requires Horizon(one.sys) == Horizon(s) <= deadline && Waiting(s.world, mails)
    requires Configured(cfg) && Truthful(cfg, s.world)
    ensures var o := ProcessAll(cfg, s, mails, deadline, tally);
            && o.result.Returned? && Spent(s, o.sys) && Horizon(o.sys) == Horizon(s)
            && Isolated(cfg, s.world, o.sys.world, mails, 0, one.sys.world)
    decreases |mails|, 0
  {
    hide ProcessOne, Call, Truthful, LoopStopped;
    var w, v := s.world, one.sys.world;
    var op := Relabel(mails[0], FAILED);
    var relabel := Call(one.sys, op);
    SmoothCall(one.sys, op);
    TurnTrue(cfg, s, mails[0]);
    assert Extends(w, v) by { OneExtends(cfg, s, mails[0]); }
    assert relabel.sys.world == Marked(v, mails[0], FAILED);
    MarkedIs(v, mails[0], FAILED);
    WaitingNext(w, relabel.sys.world, mails, FAILED);
    CalmNeverFails(relabel.sys.script);
    SmoothLoop(cfg, relabel.sys, mails[1..], deadline, tally.Add(FAILED));
    assert mails[..0] == [] && Turns(cfg, w, mails[..0]) == w;
  }

  lemma OneExtends(cfg: Config, s: Sys, mail: Mail)
    requires Configured(cfg) && Truthful(cfg, s.world) && mail in s.world.labels
    ensures Extends(s.world, ProcessOne(cfg, s, mail).sys.world)
  {
    OneTrue(cfg, s, mail);
  }

  lemma IsolatedLater(cfg: Config, w: World, end: World, mails: seq<Mail>, j: nat, v: World)
    requires mails != [] && Isolated(cfg, Turn(cfg, w, mails[0]), end, mails[1..], j, v)
    ensures Isolated(cfg, w, end, mails, j + 1, v)
  {
    hide Turn, Extends;
    assert mails[..j + 1][0] == mails[0] && mails[..j + 1][1..] == mails[1..][..j];
    assert mails[1..][j] == mails[j + 1] && mails[1..][j + 1..] == mails[j + 2..];
  }

  lemma {:induction false} LoopRest(cfg: Config, s: Sys, one: Out<Action>, relabel: Out<()>, mails: seq<Mail>, deadline: nat, tally: Tally)
    requires mails != [] && Waiting(s.world, mails) && s.now <= deadline
    requires one == ProcessOne(cfg, s, mails[0]) && !one.result.Died?
    requires var to := Verdict(one.result);
             && relabel == Call(one.sys, Relabel(mails[0], to)) && relabel.result.Returned?
             && relabel.sys.world == Turn(cfg, s.world, mails[0])
             && relabel.sys.world.labels == s.world.labels[mails[0] := {to}]
    requires Onward(s, relabel.sys) && Horizon(relabel.sys) == Horizon(s) <= deadline
    requires Configured(cfg) && Truthful(cfg, relabel.sys.world)
    ensures var o := ProcessAll(cfg, s, mails, deadline, tally);
            && Horizon(o.sys) == Horizon(s)
            && (o.result.Returned? ==>
                  || (Spent(s, o.sys) && exists j, v :: Isolated(cfg, s.world, o.sys.world, mails, j, v))
                  || (&& Onward(s, o.sys)
                      && o.sys.world == Turns(cfg, s.world, mails)
                      && PrefixDone(s.world, o.sys.world, mails, |mails|)))
            && (!o.result.Returned? ==> !Calm(s.script) && exists j :: LoopStopped(cfg, s.world, o.sys, mails, j))
    decreases |mails|, 0
  {
    hide ProcessOne, Call, Turn, LoopStopped, Isolated, Waiting, PrefixDone, Truthful;
    var w, w1, to := s.world, relabel.sys.world, Verdict(one.result);
    var rest := mails[1..];
    WaitingNext(w, w1, mails, to);
    SmoothLoop(cfg, relabel.sys, rest, deadline, tally.Add(to));
    var o := ProcessAll(cfg, relabel.sys, rest, deadline, tally.Add(to));
    assert ProcessAll(cfg, s, mails, deadline, tally) == o;
    if !o.result.Returned? {
      var j :| LoopStopped(cfg, w1, o.sys, rest, j);
      KilledLater(cfg, w, o.sys, mails, j);
    } else if o.sys.world == Turns(cfg, w1, rest) && PrefixDone(w1, o.sys.world, rest, |rest|) && Onward(relabel.sys, o.sys) {
      PrefixNext(w, w1, o.sys.world, mails, to, |rest|);
    } else {
      var j, v :| Isolated(cfg, w1, o.sys.world, rest, j, v);
      IsolatedLater(cfg, w, o.sys.world, mails, j, v);
    }
  }

  // ----- A run under a smooth script -----

  /** Both labels on the server, as the first two lookups of a run leave them. */
  function Norm(w: World): World {
    w.(made := w.made + {PROCESADO, FAILED})
  }

  lemma {:induction false} TurnsMade(cfg: Config, w: World, made: set<Label>, mails: seq<Mail>)
    ensures Turns(cfg, w.(made := made), mails) == Turns(cfg, w, mails).(made := made)
    ensures Turns(cfg, w, mails).made == w.made
    decreases |mails|
  {
    if mails != [] {
      EffectKeepsLabels(cfg, w, mails[0].plan);
      assert Turn(cfg, w.(made := made), mails[0]) == Turn(cfg, w, mails[0]).(made := made);
      TurnsMade(cfg, Turn(cfg, w, mails[0]), made, mails[1..]);
    }
  }

  ghost predicate StoppedSafely(s: Sys, t: Sys) {
    !Calm(s.script) && exists e :: Last(t, e) && Safe(e)
  }

  lemma {:induction false} SmoothFetch(s: Sys, ids: seq<Mail>, deadline: nat, got: seq<Mail>)
    requires Smooth(s.script) && Horizon(s) <= deadline
    ensures var o := FetchAll(s, ids, deadline, got);
            && Horizon(o.sys) == Horizon(s) && o.sys.world == s.world
            && (o.result.Returned? ==> o.result.value == got + ids && Onward(s, o.sys))
            && (!o.result.Returned? ==> StoppedSafely(s, o.sys))
    decreases |ids|
  {
    if ids == [] {
      assert got + ids == got;
    } else {
      var o := Call(s, Fetch(ids[0]));
      SmoothCall(s, Fetch(ids[0]));
      hide Call;
      if !o.result.Returned? {
        assert Last(o.sys, o.sys.log[|s.log|]);
      } else {
        SmoothFetch(o.sys, ids[1..], deadline, got + [ids[0]]);
        assert got + [ids[0]] + ids[1..] == got + ids;
      }
    }
  }

  lemma SmoothEnsure(s: Sys, cache: set<Label>, l: Label)
    requires Smooth(s.script) && cache <= s.world.made
    ensures var o := EnsureLabel(s, cache, l);
            && Horizon(o.sys) == Horizon(s) && SameButMade(s.world, o.sys.world)
            && o.sys.world.made <= s.world.made + {l}
            && (o.result.Returned? ==>
                  && l in o.sys.world.made && l in o.result.value && o.result.value <= o.sys.world.made
                  && Onward(s, o.sys))
            && (!o.result.Returned? ==> StoppedSafely(s, o.sys))
  {
    hide Call;
    if l !in cache {
      var o := EnsureLabel(s, cache, l);
      var listed := Call(s, ListLabels);
      SmoothCall(s, ListLabels);
      if !listed.result.Returned? {
        assert Last(o.sys, o.sys.log[|s.log|]);
      } else {
        var created := Call(listed.sys, CreateLabel(l));
        SmoothCall(listed.sys, CreateLabel(l));
        if !created.result.Returned? {
          assert Last(created.sys, created.sys.log[|listed.sys.log|]);
        }
      }
    }
  }

  /** A stopped run over these mails in this order: where it stopped, and what is left of it. */
  ghost predicate RunStopped(cfg: Config, w: World, t: Sys, mails: seq<Mail>, j: nat) {
    && PrefixDone(w, t.world, mails, j)
    && w.made <= t.world.made <= Norm(w).made
    && exists e ::
         && Last(t, e)
         && if Safe(e) then Turns(cfg, Norm(t.world), mails[j..]) == Turns(cfg, Norm(w), mails)
            else j < |mails| && Damaged(cfg, Turns(cfg, Norm(w), mails[..j]), t.world, mails[j].plan)
  }

  lemma StoppedEarly(cfg: Config, w: World, s: Sys, t: Sys, mails: seq<Mail>)
    requires StoppedSafely(s, t) && SameButMade(w, t.world) && t.world.made <= Norm(w).made
    ensures RunStopped(cfg, w, t, mails, 0)
  {
    assert Norm(t.world) == Norm(w);
    assert mails[0..] == mails;
    var e :| Last(t, e) && Safe(e);
  }

  /** From a loop over the normed world to the run. */
  lemma StoppedInLoop(cfg: Config, w: World, v: World, t: Sys, mails: seq<Mail>, j: nat)
    requires LoopStopped(cfg, v, t, mails, j) && t.world.made == v.made
    requires v == Norm(w)
    ensures RunStopped(cfg, w, t, mails, j)
  {
    assert Norm(t.world) == t.world;
    var e :| Last(t, e)
             && if Safe(e) then Turns(cfg, t.world, mails[j..]) == Turns(cfg, v, mails)
                else j < |mails| && Damaged(cfg, Turns(cfg, v, mails[..j]), t.world, mails[j].plan);
    assert Last(t, e);
  }

  lemma SmoothPage(cfg: Config, w: World, s: Sys, page: seq<Mail>, deadline: nat)
    requires Smooth(s.script) && Horizon(s) <= deadline
    requires s.world == Norm(w) && Waiting(w, page)
    requires Configured(cfg) && Truthful(cfg, w)
    ensures var o := ProcessPage(cfg, s, page, deadline);
            && (o.result.Returned? ==>
                  || o.sys.world == Turns(cfg, Norm(w), InOrder(page))
                  || (Fails(s.script) && exists j, v :: Isolated(cfg, Norm(w), o.sys.world, InOrder(page), j, v)))
            && (!o.result.Returned? ==> !Calm(s.script) && exists j :: RunStopped(cfg, w, o.sys, InOrder(page), j))
  {
    hide Call, FetchAll, ProcessAll, InOrder, Turns, FailedOnPage, LoopStopped, RunStopped, Isolated, Truthful;
    var mails := InOrder(page);
    var o := ProcessPage(cfg, s, page, deadline);
    InOrderWaits(Norm(w), page);
    SameTruth(cfg, w, Norm(w));
    var listed := Call(s, ListUnread);
    SmoothCall(s, ListUnread);
    if !listed.result.Returned? {
      assert Last(listed.sys, listed.sys.log[|s.log|]);
      StoppedEarly(cfg, w, s, listed.sys, mails);
    } else {
      var got := FetchAll(listed.sys, page, deadline, []);
      SmoothFetch(listed.sys, page, deadline, []);
      if !got.result.Returned? {
        StoppedEarly(cfg, w, listed.sys, got.sys, mails);
      } else {
        assert got.result.value == page;
        SmoothLoop(cfg, got.sys, mails, deadline, Tally(0, 0));
        var k := LoopTrue(cfg, got.sys, mails, deadline, Tally(0, 0));
        var all := ProcessAll(cfg, got.sys, mails, deadline, Tally(0, 0));
        if !all.result.Returned? {
          var j :| LoopStopped(cfg, Norm(w), all.sys, mails, j);
          StoppedInLoop(cfg, w, Norm(w), all.sys, mails, j);
        } else {
          SmoothCall(all.sys, Gauge);
          if !Spent(got.sys, all.sys) { GaugeStop(cfg, w, all.sys, mails); }
        }
      }
    }
  }

  /** Killed at the gauge, after every email. */
  lemma GaugeStop(cfg: Config, w: World, s: Sys, mails: seq<Mail>)
    requires s.world == Turns(cfg, Norm(w), mails) && PrefixDone(Norm(w), s.world, mails, |mails|)
    ensures var gauge := Call(s, Gauge);
            && gauge.sys.world == s.world
            && (gauge.result.Died? ==> RunStopped(cfg, w, gauge.sys, mails, |mails|))
  {
    var gauge := Call(s, Gauge);
    TurnsMade(cfg, Norm(w), {}, mails);
    assert Norm(s.world) == s.world;
    assert mails[|mails|..] == [];
    if gauge.result.Died? {
      assert Last(gauge.sys, gauge.sys.log[|s.log|]);
    }
  }

  /** A run under such a script does what the reference does, isolates the mail in which a call raises,
      or stops as described. */
  lemma SmoothRun(cfg: Config, s: Sys, page: seq<Mail>, deadline: nat)
    requires Smooth(s.script) && Horizon(s) <= deadline && Waiting(s.world, page)
    requires Configured(cfg) && Truthful(cfg, s.world)
    ensures var o := ProcessMailbox(cfg, s, page, deadline);
            && (o.result.Returned? ==>
                  || o.sys.world == Turns(cfg, Norm(s.world), InOrder(page))
                  || (Fails(s.script) && exists j, v :: Isolated(cfg, Norm(s.world), o.sys.world, InOrder(page), j, v)))
            && (!o.result.Returned? ==> !Calm(s.script) && exists j :: RunStopped(cfg, s.world, o.sys, InOrder(page), j))
  {
    hide EnsureLabel, ProcessPage, Turns, RunStopped, Isolated, Truthful, InOrder;
    var w := s.world;
    var procesado := EnsureLabel(s, {}, PROCESADO);
    SmoothEnsure(s, {}, PROCESADO);
    if !procesado.result.Returned? {
      StoppedEarly(cfg, w, s, procesado.sys, InOrder(page));
    } else {
      var failed := EnsureLabel(procesado.sys, procesado.result.value, FAILED);
      SmoothEnsure(procesado.sys, procesado.result.value, FAILED);
      if !failed.result.Returned? {
        StoppedEarly(cfg, w, procesado.sys, failed.sys, InOrder(page));
      } else {
        assert failed.sys.world == Norm(w);
        SmoothPage(cfg, w, failed.sys, page, deadline);
      }
    }
  }

  // ----- What a damaged email leaves forever -----

  /** The cards the rest of a run adds, given the refs the ledger knows. */
  function Adds(known: set<Ref>, mails: seq<Mail>): nat
    decreases |mails|
  {
    if mails == [] then 0
    else match mails[0].plan
         case Card(ref, Some(_), _) =>
           if ref in known then Adds(known, mails[1..]) else 1 + Adds(known + {ref}, mails[1..])
         case _ => Adds(known, mails[1..])
  }

  lemma {:induction false} TurnsAdd(cfg: Config, w: World, mails: seq<Mail>)
    ensures |Turns(cfg, w, mails).cards| == |w.cards| + Adds(w.ledger.Keys, mails)
    decreases |mails|
  {
    if mails != [] {
      var w1 := Turn(cfg, w, mails[0]);
      TurnsAdd(cfg, w1, mails[1..]);
      match mails[0].plan
      case Card(ref, Some(name), _) =>
        if ref !in w.ledger { assert w1.ledger.Keys == w.ledger.Keys + {ref}; }
      case _ =>
    }
  }

  function Notes(cards: seq<BoardCard>): nat {
    if cards == [] then 0 else Notes(cards[..|cards| - 1]) + |cards[|cards| - 1].notes|
  }

  lemma {:induction false} NotesSet(cards: seq<BoardCard>, i: nat, card: BoardCard)
    requires i < |cards|
    ensures Notes(cards[i := card]) == Notes(cards) - |cards[i].notes| + |card.notes|
  {
    var n := |cards| - 1;
    if i < n {
      assert cards[i := card][..n] == cards[..n][i := card];
      NotesSet(cards[..n], i, card);
    } else {
      assert cards[i := card][..n] == cards[..n];
    }
  }

  lemma NotesPlus(cards: seq<BoardCard>, card: BoardCard)
    ensures Notes(cards + [card]) == Notes(cards) + |card.notes|
  {
    assert (cards + [card])[..|cards|] == cards;
  }

  /** Two worlds that differ at most in the notes on their cards. */
  ghost predicate Twins(v: World, w: World) {
    && v.labels == w.labels && v.ledger == w.ledger && v.made == w.made && |v.cards| == |w.cards|
    && forall i | 0 <= i < |v.cards| :: v.cards[i] == w.cards[i].(notes := v.cards[i].notes)
  }

  lemma {:induction false} TwinAnswer(cfg: Config, v: World, w: World, place: Place, ref: Ref, i: nat)
    requires Twins(v, w)
    ensures FirstAnswer(cfg, v.cards, place, ref, i) == FirstAnswer(cfg, w.cards, place, ref, i)
    decreases |v.cards| - i
  {
    if i < |v.cards| {
      TwinAnswer(cfg, v, w, place, ref, i + 1);
    }
  }

  lemma {:induction false} TwinHit(cfg: Config, v: World, w: World, ref: Ref, k: nat)
    requires Twins(v, w)
    ensures Hit(cfg, v.cards, ref, k) == Hit(cfg, w.cards, ref, k)
    decreases cfg.lists + 1 - k
  {
    if k <= cfg.lists {
      TwinAnswer(cfg, v, w, PlaceOf(cfg, k), ref, 0);
      TwinHit(cfg, v, w, ref, k + 1);
    }
  }

  lemma TwinNote(v: World, w: World, i: nat, text: string)
    requires Twins(v, w) && i < |v.cards|
    ensures Twins(WithNote(v, i, text), WithNote(w, i, text))
    ensures Notes(WithNote(v, i, text).cards) == Notes(v.cards) + 1
    ensures Notes(WithNote(w, i, text).cards) == Notes(w.cards) + 1
  {
    NotesSet(v.cards, i, WithNote(v, i, text).cards[i]);
    NotesSet(w.cards, i, WithNote(w, i, text).cards[i]);
  }

  lemma TwinFile(cfg: Config, v: World, w: World, ref: Ref, name: string, text: string)
    requires Twins(v, w)
    ensures Twins(Filed(cfg, v, ref, name, text), Filed(cfg, w, ref, name, text))
    ensures Notes(Filed(cfg, v, ref, name, text).cards) == Notes(v.cards)
    ensures Notes(Filed(cfg, w, ref, name, text).cards) == Notes(w.cards)
  {
    NotesPlus(v.cards, Whole(cfg, ref, name, text));
    NotesPlus(w.cards, Whole(cfg, ref, name, text));
  }

  lemma TwinEffect(cfg: Config, v: World, w: World, plan: Plan)
    requires Twins(v, w)
    ensures var (v', to), (w', to') := Effect(cfg, v, plan), Effect(cfg, w, plan);
            && to == to' && Twins(v', w')
            && Notes(v'.cards) - Notes(v.cards) == Notes(w'.cards) - Notes(w.cards)
  {
    assert |v.cards| == |w.cards| && v.ledger == w.ledger;
    hide Twins, Hit, Notes, WithNote, Filed;
    match plan
    case Reject(_) =>
    case Comment(ref, text) =>
      TwinHit(cfg, v, w, ref, 0);
      var hit := Hit(cfg, v.cards, ref, 0);
      if hit.Some? && hit.value < |v.cards| {
        TwinNote(v, w, hit.value, text);
      }
    case Card(ref, name, text) =>
      if ref !in v.ledger && name.Some? {
        TwinFile(cfg, v, w, ref, name.value, text);
      }
  }

  lemma TwinTurn(cfg: Config, v: World, w: World, mail: Mail)
    requires Twins(v, w)
    ensures Twins(Turn(cfg, v, mail), Turn(cfg, w, mail))
    ensures Notes(Turn(cfg, v, mail).cards) - Notes(v.cards) == Notes(Turn(cfg, w, mail).cards) - Notes(w.cards)
  {
    hide Effect, Notes;
    TwinEffect(cfg, v, w, mail.plan);
  }

  lemma {:induction false} TwinTurns(cfg: Config, v: World, w: World, mails: seq<Mail>)
    requires Twins(v, w)
    ensures Notes(Turns(cfg, v, mails).cards) - Notes(v.cards) == Notes(Turns(cfg, w, mails).cards) - Notes(w.cards)
    decreases |mails|
  {
    if mails != [] {
      TwinTurn(cfg, v, w, mails[0]);
      TwinTurns(cfg, Turn(cfg, v, mails[0]), Turn(cfg, w, mails[0]), mails[1..]);
    }
  }

  /** A damaged email never heals: redoing it adds a second card, or a second note. */
  lemma DamageLasts(cfg: Config, w: World, w': World, mails: seq<Mail>)
    requires mails != [] && Damaged(cfg, w, w', mails[0].plan)
    ensures Turns(cfg, w', mails) != Turns(cfg, w, mails)
  {
    if mails[0].plan.Card? {
      TurnsAdd(cfg, w, mails);
      TurnsAdd(cfg, w', mails);
    } else {
      var i := Hit(cfg, w.cards, mails[0].plan.ref, 0).value;
      NotesSet(w.cards, i, w'.cards[i]);
      TwinTurns(cfg, w', w, mails);
    }
  }

  // ----- The page Gmail lists, and the two runs -----

  /** One page of the UNREAD mails, in an order Gmail keeps. */
  function Page(order: seq<Mail>, w: World): seq<Mail> {
    var waiting := Filter(order, Labelled(w, UNREAD));
    if |waiting| <= PAGE then waiting else waiting[..PAGE]
  }

  lemma PageWaits(order: seq<Mail>, w: World)
    requires Distinct(order)
    ensures Waiting(w, Page(order, w)) && |Page(order, w)| <= PAGE
  {
    var waiting := Filter(order, Labelled(w, UNREAD));
    FilterDistinct(order, Labelled(w, UNREAD));
    FilterIn(order, Labelled(w, UNREAD));
    forall m | m in Page(order, w)
      ensures m in w.labels && w.labels[m] == {UNREAD}
    {
      assert m in waiting;
    }
  }

  /** After a prefix of waiting mails is done, the unread ones are those of before but the prefix. */
  lemma UnreadAfter(w: World, w': World, mails: seq<Mail>, j: nat)
    requires Waiting(w, mails) && PrefixDone(w, w', mails, j)
    ensures forall m | Labelled(w', UNREAD)(m) :: Labelled(w, UNREAD)(m)
    ensures forall m | m in mails[..j] :: !Labelled(w', UNREAD)(m)
    ensures forall m | Labelled(w, UNREAD)(m) && m !in mails[..j] :: Labelled(w', UNREAD)(m)
  {
    assert UNREAD in {UNREAD} && UNREAD !in {PROCESADO} && UNREAD !in {FAILED};
  }

  /** What is left to list after the first `j` mails of the run are done, in the run's own order. */
  lemma RestOfPage(order: seq<Mail>, w: World, w': World, j: nat)
    requires Distinct(order) && |Filter(order, Labelled(w, UNREAD))| <= PAGE
    requires PrefixDone(w, w', InOrder(Page(order, w)), j)
    ensures InOrder(Page(order, w')) == InOrder(Page(order, w))[j..]
  {
    assert j <= |InOrder(Page(order, w))|;
    hide PrefixDone;
    var p, p' := Labelled(w, UNREAD), Labelled(w', UNREAD);
    var page := Page(order, w);
    var mails := InOrder(page);
    PageWaits(order, w);
    InOrderWaits(w, page);
    UnreadAfter(w, w', mails, j);
    assert Page(order, w') == Filter(page, p') by {
      FilterFilter(order, p, p');
      FilterIn(page, p');
    }
    assert InOrder(Page(order, w')) == Filter(mails, p') by {
      EarlierIsOrder();
      FilterSort(page, Earlier, p');
    }
    forall m | m in mails[j..]
      ensures p'(m)
    {
      assert m in mails && m !in mails[..j];
    }
    FilterTail(mails, j, p');
  }

  /** UNREAD is the checkpoint.  A run that stops at call `e`, killed or failed, then an undisturbed
      run, against one undisturbed run: the same labels, board and ledger if and only if the stop was
      safe. */
  lemma CrashThenRun(cfg: Config, order: seq<Mail>, first: Sys, second: Sys, alone: Sys, d1: nat, d2: nat, d3: nat, e: Entry)
    requires Configured(cfg) && Distinct(order) && Truthful(cfg, first.world)
    requires |Filter(order, Labelled(first.world, UNREAD))| <= PAGE
    requires Doomed(first.script) && Horizon(first) <= d1
    requires !ProcessMailbox(cfg, first, Page(order, first.world), d1).result.Returned?
    requires Last(ProcessMailbox(cfg, first, Page(order, first.world), d1).sys, e)
    requires second.world == ProcessMailbox(cfg, first, Page(order, first.world), d1).sys.world
    requires Calm(second.script) && Horizon(second) <= d2
    requires alone.world == first.world && Calm(alone.script) && Horizon(alone) <= d3
    ensures ProcessMailbox(cfg, second, Page(order, second.world), d2).sys.world
            == ProcessMailbox(cfg, alone, Page(order, alone.world), d3).sys.world
            <==> Safe(e)
  {
    hide ProcessMailbox, Truthful, Safe, Damaged, Page, InOrder;
    var w, w' := first.world, second.world;
    var mails := InOrder(Page(order, w));
    PageWaits(order, w);
    PageWaits(order, w');
    SmoothRun(cfg, first, Page(order, w), d1);
    SmoothRun(cfg, alone, Page(order, w), d3);
    var killed := ProcessMailbox(cfg, first, Page(order, w), d1).sys;
    var j :| RunStopped(cfg, w, killed, mails, j);
    var _, _ := RunTrue(cfg, first, Page(order, w), d1);
    SmoothRun(cfg, second, Page(order, w'), d2);
    RestOfPage(order, w, w', j);
    Outcome(cfg, w, killed, mails, j, e);
  }

  lemma Outcome(cfg: Config, w: World, t: Sys, mails: seq<Mail>, j: nat, e: Entry)
    requires RunStopped(cfg, w, t, mails, j) && Last(t, e)
    ensures j <= |mails| && (Turns(cfg, Norm(t.world), mails[j..]) == Turns(cfg, Norm(w), mails) <==> Safe(e))
  {
    if !Safe(e) {
      var before := Turns(cfg, Norm(w), mails[..j]);
      assert mails == mails[..j] + mails[j..];
      TurnsAppend(cfg, Norm(w), mails[..j], mails[j..]);
      TurnsMade(cfg, Norm(w), {}, mails[..j]);
      assert Norm(t.world) == t.world;
      DamageLasts(cfg, before, t.world, mails[j..]);
    }
  }

  // ----- Draining a backlog -----

  /** One run: how its calls go, and when it starts. */
  datatype Sitting = Sitting(script: seq<Event>, start: nat)

  /** Every call succeeds, and the deadline is not reached. */
  ghost predicate Undisturbed(run: Sitting) {
    Calm(run.script) && Total(run.script) <= RUN_DEADLINE_US
  }

  /** One run over the page Gmail lists. */
  function RunOnce(cfg: Config, order: seq<Mail>, w: World, run: Sitting): Out<Counts> {
    ProcessMailbox(cfg, Sys(w, run.script, run.start, []), Page(order, w), run.start + RUN_DEADLINE_US)
  }

  /** The world after these runs, one after the other, nothing arriving. */
  function AfterRuns(cfg: Config, order: seq<Mail>, w: World, runs: seq<Sitting>): World {
    if runs == [] then w
    else RunOnce(cfg, order, AfterRuns(cfg, order, w, runs[..|runs| - 1]), runs[|runs| - 1]).sys.world
  }

  function Backlog(order: seq<Mail>, w: World): seq<Mail> {
    Filter(order, Labelled(w, UNREAD))
  }

  lemma {:induction false} TurnsDone(cfg: Config, w: World, mails: seq<Mail>)
    requires Waiting(w, mails)
    ensures PrefixDone(w, Turns(cfg, w, mails), mails, |mails|)
    decreases |mails|
  {
    if mails == [] {
      assert mails[..|mails|] == [];
    } else {
      var (w', to) := Effect(cfg, w, mails[0].plan);
      EffectKeepsLabels(cfg, w, mails[0].plan);
      MarkedIs(w', mails[0], to);
      var w1 := Turn(cfg, w, mails[0]);
      WaitingNext(w, w1, mails, to);
      TurnsDone(cfg, w1, mails[1..]);
      PrefixNext(w, w1, Turns(cfg, w1, mails[1..]), mails, to, |mails| - 1);
    }
  }

  /** A run relabels exactly its page. */
  lemma RunUnreads(cfg: Config, w: World, page: seq<Mail>)
    requires Waiting(w, page)
    ensures var p, p' := Labelled(w, UNREAD), Labelled(Turns(cfg, Norm(w), InOrder(page)), UNREAD);
            && (forall m | p'(m) :: p(m)) && (forall m | m in page :: !p'(m))
            && (forall m | p(m) && m !in page :: p'(m))
  {
    var mails := InOrder(page);
    InOrderWaits(Norm(w), page);
    TurnsDone(cfg, Norm(w), mails);
    SortPermutes(page, Earlier);
    assert mails[..|mails|] == mails;
    UnreadAfter(Norm(w), Turns(cfg, Norm(w), mails), mails, |mails|);
  }

  /** An undisturbed run takes its page off the front of the backlog. */
  lemma BacklogShrinks(cfg: Config, order: seq<Mail>, w: World)
    requires Distinct(order)
    ensures var w' := Turns(cfg, Norm(w), InOrder(Page(order, w)));
            Backlog(order, w') == Backlog(order, w)[|Page(order, w)|..]
  {
    hide Turns, InOrder, Norm;
    var page, backlog := Page(order, w), Backlog(order, w);
    var w' := Turns(cfg, Norm(w), InOrder(page));
    var p, p' := Labelled(w, UNREAD), Labelled(w', UNREAD);
    PageWaits(order, w);
    RunUnreads(cfg, w, page);
    FilterFilter(order, p, p');
    FilterDistinct(order, p);
    FilterIn(order, p);
    assert page == backlog[..|page|];
    forall m | m in backlog[|page|..]
      ensures p'(m)
    {
      assert m in backlog && m !in page;
    }
    FilterTail(backlog, |page|, p');
  }

  /** An undisturbed run does its whole page as the reference does. */
  lemma RunDoesPage(cfg: Config, order: seq<Mail>, w: World, run: Sitting)
    requires Configured(cfg) && Truthful(cfg, w) && Distinct(order) && Undisturbed(run)
    ensures var o := RunOnce(cfg, order, w, run);
            && o.result.Returned? && Truthful(cfg, o.sys.world)
            && o.sys.world == Turns(cfg, Norm(w), InOrder(Page(order, w)))
  {
    hide ProcessMailbox, Turns, InOrder, Truthful, Page;
    var s := Sys(w, run.script, run.start, []);
    PageWaits(order, w);
    CalmNeverFails(run.script);
    SmoothRun(cfg, s, Page(order, w), run.start + RUN_DEADLINE_US);
    var _, _ := RunTrue(cfg, s, Page(order, w), run.start + RUN_DEADLINE_US);
  }

  /** `k` undisturbed runs leave exactly max(0, n - 100k) of n unread mails. */
  lemma {:induction false} DrainBound(cfg: Config, order: seq<Mail>, w: World, runs: seq<Sitting>)
    requires Configured(cfg) && Truthful(cfg, w) && Distinct(order)
    requires forall run | run in runs :: Undisturbed(run)
    ensures var n, w' := |Backlog(order, w)|, AfterRuns(cfg, order, w, runs);
            && |Backlog(order, w')| == (if n <= 100 * |runs| then 0 else n - 100 * |runs|)
            && Truthful(cfg, w')
  {
    hide Turns, InOrder, Norm, Filter, Labelled, Truthful, RunOnce;
    if runs != [] {
      var front, run := runs[..|runs| - 1], runs[|runs| - 1];
      assert run in runs && forall r | r in front :: r in runs;
      DrainBound(cfg, order, w, front);
      var before := AfterRuns(cfg, order, w, front);
      RunDoesPage(cfg, order, before, run);
      BacklogShrinks(cfg, order, before);
    }
  }

  // ----- Any number of stops -----

  /** A run over the page that stops, killed or failed, at a safe call. */
  ghost predicate StopsSafely(cfg: Config, order: seq<Mail>, w: World, run: Sitting) {
    var o := RunOnce(cfg, order, w, run);
    && Doomed(run.script) && Total(run.script) <= RUN_DEADLINE_US && !o.result.Returned?
    && exists e :: Last(o.sys, e) && Safe(e)
  }

  ghost predicate AllStopSafely(cfg: Config, order: seq<Mail>, w: World, runs: seq<Sitting>) {
    runs == []
    || (AllStopSafely(cfg, order, w, runs[..|runs| - 1])
        && StopsSafely(cfg, order, AfterRuns(cfg, order, w, runs[..|runs| - 1]), runs[|runs| - 1]))
  }

  /** However a run ends, no more mails are UNREAD than before. */
  lemma BacklogNeverGrows(cfg: Config, order: seq<Mail>, w: World, run: Sitting)
    requires Configured(cfg) && Truthful(cfg, w) && Distinct(order)
    ensures var w' := RunOnce(cfg, order, w, run).sys.world;
            Truthful(cfg, w') && |Backlog(order, w')| <= |Backlog(order, w)|
  {
    hide ProcessMailbox, InOrder, Truthful, Page;
    var page := Page(order, w);
    PageWaits(order, w);
    var w' := RunOnce(cfg, order, w, run).sys.world;
    var fetched, k := RunTrue(cfg, Sys(w, run.script, run.start, []), page, run.start + RUN_DEADLINE_US);
    var mails := InOrder(page[..fetched]);
    InOrderWaits(w, page[..fetched]);
    UnreadAfter(w, w', mails, k);
    FilterFilter(order, Labelled(w, UNREAD), Labelled(w', UNREAD));
    FilterIn(Backlog(order, w), Labelled(w', UNREAD));
  }

  /** Any number of runs that stop safely, and then an undisturbed one, end where one undisturbed run
      does. */
  lemma {:induction false} StopsThenRun(cfg: Config, order: seq<Mail>, w: World, stops: seq<Sitting>, last: Sitting, alone: Sitting)
    requires Configured(cfg) && Truthful(cfg, w) && Distinct(order) && |Backlog(order, w)| <= PAGE
    requires AllStopSafely(cfg, order, w, stops) && Undisturbed(last) && Undisturbed(alone)
    ensures var v := AfterRuns(cfg, order, w, stops);
            && Truthful(cfg, v) && |Backlog(order, v)| <= PAGE
            && RunOnce(cfg, order, v, last).sys.world == RunOnce(cfg, order, w, alone).sys.world
  {
    hide ProcessMailbox, Truthful, Page, Turns, InOrder, Filter, Labelled;
    if stops == [] {
      RunDoesPage(cfg, order, w, last);
      RunDoesPage(cfg, order, w, alone);
    } else {
      var front, stop := stops[..|stops| - 1], stops[|stops| - 1];
      StopsThenRun(cfg, order, w, front, last, alone);
      var before := AfterRuns(cfg, order, w, front);
      BacklogNeverGrows(cfg, order, before, stop);
      OneStopThenRun(cfg, order, before, stop, last);
    }
  }

  lemma OneStopThenRun(cfg: Config, order: seq<Mail>, w: World, stop: Sitting, last: Sitting)
    requires Configured(cfg) && Truthful(cfg, w) && Distinct(order) && |Backlog(order, w)| <= PAGE
    requires StopsSafely(cfg, order, w, stop) && Undisturbed(last)
    ensures var v := RunOnce(cfg, order, w, stop).sys.world;
            RunOnce(cfg, order, v, last).sys.world == RunOnce(cfg, order, w, last).sys.world
  {
    hide ProcessMailbox, Truthful, Page, Safe;
    var v := RunOnce(cfg, order, w, stop).sys.world;
    var e :| Last(RunOnce(cfg, order, w, stop).sys, e) && Safe(e);
    var d, d' := stop.start + RUN_DEADLINE_US, last.start + RUN_DEADLINE_US;
    CrashThenRun(cfg, order, Sys(w, stop.script, stop.start, []), Sys(v, last.script, last.start, []),
                 Sys(w, last.script, last.start, []), d, d', d', e);
  }

  // ----- A comment behind its card -----

  lemma HitIfAnswered(cfg: Config, cards: seq<BoardCard>, ref: Ref, c: nat, k: nat)
    requires c < |cards| && k <= cfg.lists
    requires exists j | k <= j <= cfg.lists :: Answers(cfg, cards[c], PlaceOf(cfg, j), ref)
    ensures Hit(cfg, cards, ref, k).Some? && Hit(cfg, cards, ref, k).value < |cards|
    decreases cfg.lists - k
  {
    FirstAnswerIs(cfg, cards, PlaceOf(cfg, k), ref, 0);
    if FirstAnswer(cfg, cards, PlaceOf(cfg, k), ref, 0).None? {
      assert !Answers(cfg, cards[c], PlaceOf(cfg, k), ref);
      HitIfAnswered(cfg, cards, ref, c, k + 1);
    }
  }

  /** The search finds the card of every row. */
  lemma HitIfFiled(cfg: Config, w: World, ref: Ref)
    requires LedgerTrue(cfg, w) && ref in w.ledger
    ensures Hit(cfg, w.cards, ref, 0).Some? && Hit(cfg, w.cards, ref, 0).value < |w.cards|
  {
    var c := w.ledger[ref];
    var place := w.cards[c].place;
    var j := if place.OnList? then place.list else cfg.lists;
    assert PlaceOf(cfg, j) == place;
    assert Answers(cfg, w.cards[c], PlaceOf(cfg, j), ref);
    HitIfAnswered(cfg, w.cards, ref, c, 0);
  }

  lemma {:induction false} RowsStay(cfg: Config, w: World, mails: seq<Mail>)
    ensures w.ledger.Keys <= Turns(cfg, w, mails).ledger.Keys
    decreases |mails|
  {
    hide Hit;
    if mails != [] {
      assert w.ledger.Keys <= Turn(cfg, w, mails[0]).ledger.Keys;
      RowsStay(cfg, Turn(cfg, w, mails[0]), mails[1..]);
    }
  }

  /** The reference keeps the world truthful too. */
  lemma TurnsTrue(cfg: Config, w: World, mails: seq<Mail>)
    requires Configured(cfg) && Truthful(cfg, w) && Waiting(w, mails)
    ensures Truthful(cfg, Turns(cfg, w, mails)) && PrefixDone(w, Turns(cfg, w, mails), mails, |mails|)
  {
    hide ProcessAll, Turns, Truthful, Waiting, PrefixDone, LoopStopped, Configured;
    var s := Sys(w, [], 0, []);
    CalmNeverFails(s.script);
    SmoothLoop(cfg, s, mails, 0, Tally(0, 0));
    var _ := LoopTrue(cfg, s, mails, 0, Tally(0, 0));
  }

  lemma WaitingSplit(w: World, mails: seq<Mail>, b: nat)
    requires Waiting(w, mails) && b <= |mails|
    ensures Waiting(w, mails[..b])
    ensures forall w' | PrefixDone(w, w', mails[..b], b) :: Waiting(w', mails[b..])
  {
    forall w' | PrefixDone(w, w', mails[..b], b)
      ensures Waiting(w', mails[b..])
    {
      assert mails[..b][..b] == mails[..b];
      forall m | m in mails[b..]
        ensures m in w'.labels && w'.labels[m] == {UNREAD}
      {
        assert m in mails && m !in mails[..b];
      }
    }
  }

  /** A claim whose row exists when the run starts, or whose card email comes before. */
  ghost predicate FiledBefore(w: World, mails: seq<Mail>, b: nat, ref: Ref)
    requires b <= |mails|
  {
    ref in w.ledger || exists a | 0 <= a < b :: Files(mails[a], ref)
  }

  predicate Files(mail: Mail, ref: Ref) {
    mail.plan.Card? && mail.plan.ref == ref && mail.plan.name.Some?
  }

  lemma RowByThen(cfg: Config, w: World, mails: seq<Mail>, b: nat, ref: Ref)
    requires b <= |mails| && FiledBefore(w, mails, b, ref)
    ensures ref in Turns(cfg, w, mails[..b]).ledger
  {
    hide Turns, Hit, WithNote;
    RowsStay(cfg, w, mails[..b]);
    if ref !in w.ledger {
      var a :| 0 <= a < b && Files(mails[a], ref);
      var before := Turns(cfg, w, mails[..a]);
      var next := Turn(cfg, before, mails[a]);
      assert ref in next.ledger;
      RowsStay(cfg, next, mails[..b][a + 1..]);
      assert mails[..b] == mails[..a] + ([mails[a]] + mails[..b][a + 1..]);
      TurnsAppend(cfg, w, mails[..a], [mails[a]] + mails[..b][a + 1..]);
      TurnsCons(cfg, before, mails[a], mails[..b][a + 1..]);
    }
  }

  lemma TurnsCons(cfg: Config, w: World, mail: Mail, rest: seq<Mail>)
    ensures Turns(cfg, w, [mail] + rest) == Turns(cfg, Turn(cfg, w, mail), rest)
  {
    assert ([mail] + rest)[1..] == rest;
  }

  /** A claim with a row, or with a card email on the page that is sooner than the comment. */
  ghost predicate CardIsSooner(w: World, page: seq<Mail>, mail: Mail, ref: Ref) {
    ref in w.ledger || exists a | a in page :: Files(a, ref) && Sooner(page, a, mail)
  }

  /** In an undisturbed run a comment email of a later date than the card email of its claim is posted,
      in whatever order the page lists them: it ends as procesado, and so with its comment on a card
      that answers to the claim. */
  lemma CommentBehindItsCard(cfg: Config, s: Sys, page: seq<Mail>, deadline: nat, mail: Mail)
    requires Configured(cfg) && Truthful(cfg, s.world) && Waiting(s.world, page)
    requires Calm(s.script) && Horizon(s) <= deadline
    requires mail in page && mail.plan.Comment? && CardIsSooner(s.world, page, mail, mail.plan.ref)
    ensures var o := ProcessMailbox(cfg, s, page, deadline);
            && o.result.Returned? && mail in o.sys.world.labels && o.sys.world.labels[mail] == {PROCESADO}
            && Earned(cfg, o.sys.world, mail.plan)
  {
    hide ProcessMailbox, InOrder, Truthful, Waiting, FiledBefore, CardIsSooner;
    var mails, w := InOrder(page), Norm(s.world);
    var b := SoonerIsBefore(s.world, page, mail);
    InOrderWaits(s.world, page);
    CalmNeverFails(s.script);
    SmoothRun(cfg, s, page, deadline);
    var _, _ := RunTrue(cfg, s, page, deadline);
    SameTruth(cfg, s.world, w);
    NormKeeps(s.world, mails, b, mail.plan.ref);
    LabelOfComment(cfg, w, mails, b);
    var o := ProcessMailbox(cfg, s, page, deadline);
    assert o.sys.world == Turns(cfg, w, mails);
    ProcesadoIsEarned(cfg, o.sys.world, mail);
  }

  /** The sort puts the card email first. */
  lemma SoonerIsBefore(w: World, page: seq<Mail>, mail: Mail) returns (b: nat)
    requires Waiting(w, page) && mail in page && mail.plan.Comment? && CardIsSooner(w, page, mail, mail.plan.ref)
    ensures b < |InOrder(page)| && InOrder(page)[b] == mail && FiledBefore(w, InOrder(page), b, mail.plan.ref)
  {
    var mails := InOrder(page);
    EarlierIsOrder();
    SortStable(page, Earlier);
    SortPermutes(page, Earlier);
    hide StableSort;
    b :| 0 <= b < |mails| && mails[b] == mail;
    if mail.plan.ref !in w.ledger {
      var card :| card in page && Files(card, mail.plan.ref) && Sooner(page, card, mail);
      var a :| 0 <= a < |mails| && mails[a] == card;
      assert a != b;
      NotBothBefore(page, card, mail);
      assert a < b;
    }
  }

  lemma NotBothBefore(page: seq<Mail>, a: Mail, b: Mail)
    requires Distinct(page)
    ensures !(Before(page, a, b) && Before(page, b, a))
  {
  }

  lemma NormKeeps(w: World, mails: seq<Mail>, b: nat, ref: Ref)
    requires b <= |mails|
    ensures Waiting(w, mails) == Waiting(Norm(w), mails)
    ensures FiledBefore(w, mails, b, ref) == FiledBefore(Norm(w), mails, b, ref)
  {
  }

  lemma ProcesadoIsEarned(cfg: Config, w: World, mail: Mail)
    requires Truthful(cfg, w) && mail in w.labels && w.labels[mail] == {PROCESADO}
    ensures Earned(cfg, w, mail.plan)
  {
  }

  lemma LabelOfComment(cfg: Config, w: World, mails: seq<Mail>, b: nat)
    requires Configured(cfg) && Truthful(cfg, w) && Waiting(w, mails)
    requires b < |mails| && mails[b].plan.Comment? && FiledBefore(w, mails, b, mails[b].plan.ref)
    ensures mails[b] in Turns(cfg, w, mails).labels && Turns(cfg, w, mails).labels[mails[b]] == {PROCESADO}
  {
    hide Turns, Turn, Truthful, Waiting, FiledBefore, LedgerTrue, PrefixDone, Configured;
    var mail, rest := mails[b], mails[b + 1..];
    var before := Turns(cfg, w, mails[..b]);
    WaitingSplit(w, mails, b);
    TurnsTrue(cfg, w, mails[..b]);
    assert Waiting(before, mails[b..]);
    RowByThen(cfg, w, mails, b, mail.plan.ref);
    assert LedgerTrue(cfg, before) by { TruthfulLedger(cfg, before); }
    var next := Turn(cfg, before, mail);
    assert mails[b..][0] == mail && mails[b..][1..] == rest;
    assert mail in before.labels && before.labels[mail] == {UNREAD} by { WaitsFirst(before, mails[b..]); }
    CommentTurn(cfg, before, mail);
    WaitingNext(before, next, mails[b..], PROCESADO);
    TurnsDone(cfg, next, rest);
    assert mails == mails[..b] + ([mail] + rest);
    TurnsAppend(cfg, w, mails[..b], [mail] + rest);
    TurnsCons(cfg, before, mail, rest);
    StaysDone(w, mails, b, next, Turns(cfg, next, rest));
  }

  /** A comment email of a claim the ledger knows ends its turn as procesado. */
  lemma CommentTurn(cfg: Config, w: World, mail: Mail)
    requires LedgerTrue(cfg, w) && mail.plan.Comment? && mail.plan.ref in w.ledger
    requires mail in w.labels && w.labels[mail] == {UNREAD}
    ensures Turn(cfg, w, mail).labels == w.labels[mail := {PROCESADO}]
  {
    HitIfFiled(cfg, w, mail.plan.ref);
    EffectKeepsLabels(cfg, w, mail.plan);
    hide Hit, WithNote, LedgerTrue;
    MarkedIs(Effect(cfg, w, mail.plan).0, mail, PROCESADO);
  }

  lemma TruthfulLedger(cfg: Config, w: World)
    requires Truthful(cfg, w)
    ensures LedgerTrue(cfg, w)
  {
  }

  lemma WaitsFirst(w: World, mails: seq<Mail>)
    requires Waiting(w, mails) && mails != []
    ensures mails[0] in w.labels && w.labels[mails[0]] == {UNREAD}
  {
  }

  lemma StaysDone(w: World, mails: seq<Mail>, b: nat, next: World, end: World)
    requires Waiting(w, mails) && b < |mails| && PrefixDone(next, end, mails[b + 1..], |mails| - b - 1)
    requires mails[b] in next.labels
    ensures mails[b] in end.labels && end.labels[mails[b]] == next.labels[mails[b]]
  {
    assert mails[b] !in mails[b + 1..];
  }

  /** The mail in which a call raises ends as failed. */
  lemma RaisedMailFails(cfg: Config, w: World, end: World, mails: seq<Mail>, j: nat, v: World)
    requires Waiting(w, mails) && Isolated(cfg, w, end, mails, j, v)
    ensures mails[j] in end.labels && end.labels[mails[j]] == {FAILED}
  {
    hide Turns, Waiting;
    var before, mail := Turns(cfg, w, mails[..j]), mails[j];
    WaitingSplit(w, mails, j);
    TurnsDone(cfg, w, mails[..j]);
    assert Waiting(before, mails[j..]);
    WaitsFirst(before, mails[j..]);
    MarkedIs(v, mail, FAILED);
    var next := Marked(v, mail, FAILED);
    assert Waiting(v, mails[j..]) by { WaitsAlike(before, v, mails[j..]); }
    assert mails[j..][0] == mail && mails[j..][1..] == mails[j + 1..];
    WaitingNext(v, next, mails[j..], FAILED);
    TurnsDone(cfg, next, mails[j + 1..]);
    StaysDone(w, mails, j, next, end);
  }

  lemma WaitsAlike(w: World, v: World, mails: seq<Mail>)
    requires Waiting(w, mails) && v.labels == w.labels
    ensures Waiting(v, mails)
  {
  }
}
