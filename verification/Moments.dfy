/** The states inside a run: after any number of its calls the world is the one that a kill at the next
    call leaves behind, so what holds after every killed run holds at every moment. */
module Moments {
  import opened Options
  import opened ClaimData
  import opened Collections
  import opened Plans
  import opened Pipeline
  import opened Truth

  // ----- Cutting a script -----

  /** The first `n` calls go as the script says, the next kills the process and does nothing. */
  function CutAt(script: seq<Event>, n: nat): seq<Event> {
    if n == 0 then [Event(Death(false), 0)]
    else if script == [] then [Event(Success, 0)] + CutAt([], n - 1)
    else [script[0]] + CutAt(script[1..], n - 1)
  }

  /** The world after these calls. */
  function WorldAfter(w: World, entries: seq<Entry>): World {
    if entries == [] then w
    else
      var last := entries[|entries| - 1];
      var before := WorldAfter(w, entries[..|entries| - 1]);
      if last.landed then Apply(before, last.op) else before
  }

  lemma {:induction false} WorldAppend(w: World, a: seq<Entry>, b: seq<Entry>)
    ensures WorldAfter(w, a + b) == WorldAfter(WorldAfter(w, a), b)
  {
    hide Apply;
    if b == [] {
      assert a + b == a;
    } else {
      assert (a + b)[..|a + b| - 1] == a + b[..|b| - 1];
      WorldAppend(w, a, b[..|b| - 1]);
    }
  }

  /** The calls between two systems. */
  function Made(s: Sys, t: Sys): seq<Entry> {
    if |s.log| <= |t.log| then t.log[|s.log|..] else []
  }

  /** The call is none that would relabel an email the world does not know. */
  predicate Knows(w: World, op: Op) {
    op.Relabel? ==> op.mail in w.labels
  }

  /** The log tells what happened to the world: no email was added, and none but known ones relabelled. */
  ghost predicate Told(s: Sys, t: Sys) {
    && s.log <= t.log && t.world == WorldAfter(s.world, Made(s, t))
    && t.world.labels.Keys == s.world.labels.Keys
    && forall e | e in Made(s, t) :: Knows(s.world, e.op)
  }

  /** `t` is `s` with the process killed after `n` more calls; their logs may differ. */
  ghost predicate Cut(s: Sys, t: Sys, n: nat) {
    t.world == s.world && t.now == s.now && t.script == CutAt(s.script, n)
  }

  /** What a step makes of the cut: nothing if it ends before; otherwise it is killed after the same
      `n` calls. */
  ghost predicate CutShort<T(!new)>(s: Sys, t: Sys, n: nat, o: Out<T>, o': Out<T>) {
    var k := |Made(s, o.sys)|;
    && Told(s, o.sys) && Told(t, o'.sys)
    && (k <= n ==> Made(t, o'.sys) == Made(s, o.sys) && o'.result == o.result && Cut(o.sys, o'.sys, n - k))
    && (k > n ==>
          && o'.result.Died? && |Made(t, o'.sys)| == n + 1
          && Made(t, o'.sys)[..n] == Made(s, o.sys)[..n] && !Made(t, o'.sys)[n].landed)
  }

  lemma WorldAfterOne(w: World, e: Entry)
    ensures WorldAfter(w, [e]) == if e.landed then Apply(w, e.op) else w
  {
    hide Apply;
    assert [e][..0] == [] && WorldAfter(w, []) == w;
  }

  lemma MadeOne(s: Sys, op: Op)
    requires Knows(s.world, op)
    ensures var o := Call(s, op);
            && |Made(s, o.sys)| == 1 && Told(s, o.sys)
            && Made(s, o.sys)[0] == Entry(op, s.Next().fate.Success? || s.Next().fate.landed, o.result)
  {
    KeysKept(s.world, op);
    hide Apply;
    var o := Call(s, op);
    var e := o.sys.log[|s.log|];
    assert Made(s, o.sys) == [e];
    WorldAfterOne(s.world, e);
  }

  lemma KeysKept(w: World, op: Op)
    requires Knows(w, op)
    ensures Apply(w, op).labels.Keys == w.labels.Keys
  {
  }

  lemma CutCall(s: Sys, t: Sys, n: nat, op: Op)
    requires Cut(s, t, n) && Knows(s.world, op)
    ensures CutShort(s, t, n, Call(s, op), Call(t, op)) && |Made(s, Call(s, op).sys)| == 1
  {
    MadeOne(s, op);
    MadeOne(t, op);
    hide WorldAfter, Made, Apply;
    if n > 0 {
      var rest := CutAt(if s.script == [] then [] else s.script[1..], n - 1);
      assert t.script == [s.Next()] + rest;
      assert t.script[1..] == rest;
      var made, made' := Made(s, Call(s, op).sys), Made(t, Call(t, op).sys);
      assert made == [made[0]] && made' == [made'[0]];
    } else {
      assert Made(t, Call(t, op).sys)[..0] == Made(s, Call(s, op).sys)[..0];
    }
  }

  lemma MadeJoin(s: Sys, t: Sys, u: Sys)
    requires Told(s, t) && Told(t, u)
    ensures Told(s, u) && Made(s, u) == Made(s, t) + Made(t, u)
  {
    assert Made(s, u) == Made(s, t) + Made(t, u);
    WorldAppend(s.world, Made(s, t), Made(t, u));
  }

  /** Where the second step of two runs on: behind the first, or not at all. */
  function Behind<T>(n: nat, s: Sys, o: Out<T>, o': Out<T>): Sys {
    if |Made(s, o.sys)| <= n then o'.sys else o.sys.(script := CutAt(o.sys.script, 0))
  }

  function Left<T>(n: nat, s: Sys, o: Out<T>): nat {
    if |Made(s, o.sys)| <= n then n - |Made(s, o.sys)| else 0
  }

  /** Two steps in a row, the first of which is not cut. */
  lemma ThenGoes<T(!new), U(!new)>(s: Sys, t: Sys, n: nat, o: Out<T>, o': Out<T>, p: Out<U>, q: Out<U>)
    requires CutShort(s, t, n, o, o') && |Made(s, o.sys)| <= n
    requires CutShort(o.sys, o'.sys, n - |Made(s, o.sys)|, p, q)
    ensures CutShort(s, t, n, p, q)
  {
    hide WorldAfter, CutAt, Made, Told, Cut;
    MadeJoin(s, o.sys, p.sys);
    MadeJoin(t, o'.sys, q.sys);
    var first, second, second' := Made(s, o.sys), Made(o.sys, p.sys), Made(o'.sys, q.sys);
    assert Made(t, o'.sys) == first;
    assert Made(s, p.sys) == first + second && Made(t, q.sys) == first + second';
    Prefixes(first, second, second', n);
  }

  /** What two continuations of the same calls share. */
  lemma Prefixes(first: seq<Entry>, second: seq<Entry>, second': seq<Entry>, n: nat)
    requires |first| <= n
    ensures |second| > n - |first| ==> (first + second)[..n] == first + second[..n - |first|]
    ensures |second'| > n - |first| ==>
              (first + second')[..n] == first + second'[..n - |first|] && (first + second')[n] == second'[n - |first|]
  {
  }

  /** Two steps in a row, the first of which is cut. */
  lemma ThenKilled<T(!new), U(!new)>(s: Sys, t: Sys, n: nat, o: Out<T>, o': Out<T>, p: Out<U>, p': Out<U>)
    requires CutShort(s, t, n, o, o') && |Made(s, o.sys)| > n
    requires Told(o.sys, p.sys) && p'.sys == o'.sys && p'.result.Died?
    ensures CutShort(s, t, n, p, p')
  {
    hide WorldAfter, CutAt, Made, Told, Cut;
    MadeJoin(s, o.sys, p.sys);
    var first, second := Made(s, o.sys), Made(o.sys, p.sys);
    assert (first + second)[..n] == first[..n];
  }

  /** Two steps in a row. */
  lemma Then<T(!new), U(!new)>(s: Sys, t: Sys, n: nat, o: Out<T>, o': Out<T>, p: Out<U>, q: Out<U>, p': Out<U>)
    requires CutShort(s, t, n, o, o')
    requires CutShort(o.sys, Behind(n, s, o, o'), Left(n, s, o), p, q)
    requires if |Made(s, o.sys)| <= n then p' == q else p'.sys == o'.sys && p'.result.Died?
    ensures CutShort(s, t, n, p, p')
  {
    hide WorldAfter, CutAt, Made, Told, Cut;
    if |Made(s, o.sys)| <= n {
      ThenGoes(s, t, n, o, o', p, q);
    } else {
      ThenKilled(s, t, n, o, o', p, p');
    }
  }

  lemma Still<T(!new)>(s: Sys, t: Sys, n: nat, r: Result<T>)
    requires Cut(s, t, n)
    ensures CutShort(s, t, n, Out(s, r), Out(t, r))
  {
    assert Made(s, s) == [] && Made(t, t) == [];
  }

  // ----- Every step of the pipeline can be cut -----

  lemma {:induction false} CutSearch(cfg: Config, s: Sys, t: Sys, n: nat, ref: Ref, k: nat)
    requires Cut(s, t, n)
    ensures CutShort(s, t, n, SearchFrom(cfg, s, ref, k), SearchFrom(cfg, t, ref, k))
    decreases cfg.lists + 1 - k
  {
    hide Call, CutAt, WorldAfter, Made, FirstAnswer;
    var p, p' := SearchFrom(cfg, s, ref, k), SearchFrom(cfg, t, ref, k);
    if k > cfg.lists {
      Still<Option<nat>>(s, t, n, Returned(None));
    } else {
      var o, o' := Call(s, Browse), Call(t, Browse);
      CutCall(s, t, n, Browse);
      if o.result.Returned? && FirstAnswer(cfg, o.sys.world.cards, PlaceOf(cfg, k), ref, 0).None? {
        var u := Behind(n, s, o, o');
        CutSearch(cfg, o.sys, u, Left(n, s, o), ref, k + 1);
        Then(s, t, n, o, o', SearchFrom(cfg, o.sys, ref, k + 1), SearchFrom(cfg, u, ref, k + 1), p');
      } else {
      }
    }
  }

  lemma CutFind(cfg: Config, s: Sys, t: Sys, n: nat, ref: Ref)
    requires Cut(s, t, n)
    ensures CutShort(s, t, n, FindCard(cfg, s, ref), FindCard(cfg, t, ref))
  {
    hide Call, CutAt, WorldAfter, Made, SearchFrom;
    var p, p' := FindCard(cfg, s, ref), FindCard(cfg, t, ref);
    var o, o' := Call(s, Browse), Call(t, Browse);
    CutCall(s, t, n, Browse);
    if o.result.Returned? {
      var u := Behind(n, s, o, o');
      CutSearch(cfg, o.sys, u, Left(n, s, o), ref, 0);
      Then(s, t, n, o, o', SearchFrom(cfg, o.sys, ref, 0), SearchFrom(cfg, u, ref, 0), p');
    } else {
    }
  }

  lemma CutCompensate(s: Sys, t: Sys, n: nat, ref: Ref, card: nat)
    requires Cut(s, t, n)
    ensures CutShort(s, t, n, Compensate(s, ref, card), Compensate(t, ref, card))
  {
    hide Call, CutAt, WorldAfter, Made;
    var op := Delete(ref, card);
    CutCall(s, t, n, op);
  }

  /** The end of the unit, from the announcement on. */
  function FromAnnounce(s: Sys, ref: Ref, card: nat, text: string): Out<nat> {
    var announced := Call(s, Announce(ref, card, text));
    if announced.result.Died? then Out(announced.sys, Died)
    else if announced.result.Threw? then Compensate(announced.sys, ref, card)
    else Out(announced.sys, Returned(card))
  }

  lemma CutAnnounce(s: Sys, t: Sys, n: nat, ref: Ref, card: nat, text: string)
    requires Cut(s, t, n)
    ensures CutShort(s, t, n, FromAnnounce(s, ref, card, text), FromAnnounce(t, ref, card, text))
  {
    hide Call, CutAt, WorldAfter, Made, Compensate;
    var p, p' := FromAnnounce(s, ref, card, text), FromAnnounce(t, ref, card, text);
    var op := Announce(ref, card, text);
    var o, o' := Call(s, op), Call(t, op);
    CutCall(s, t, n, op);
    if o.result.Threw? {
      var u := Behind(n, s, o, o');
      CutCompensate(o.sys, u, Left(n, s, o), ref, card);
      Then(s, t, n, o, o', Compensate(o.sys, ref, card), Compensate(u, ref, card), p');
    } else {
    }
  }

  lemma AttachThenAnnounce(s: Sys, ref: Ref, card: nat, text: string)
    ensures var o := Call(s, Attach(ref, card));
            FromAttach(s, ref, card, text)
            == match o.result
               case Died => Out(o.sys, Died)
               case Threw => Compensate(o.sys, ref, card)
               case Returned(_) => FromAnnounce(o.sys, ref, card, text)
  {
    hide Call, Compensate;
  }

  lemma CutAttach(s: Sys, t: Sys, n: nat, ref: Ref, card: nat, text: string)
    requires Cut(s, t, n)
    ensures CutShort(s, t, n, FromAttach(s, ref, card, text), FromAttach(t, ref, card, text))
  {
    AttachThenAnnounce(s, ref, card, text);
    AttachThenAnnounce(t, ref, card, text);
    hide Call, CutAt, WorldAfter, Made, Compensate, FromAnnounce, FromAttach;
    var p, p' := FromAttach(s, ref, card, text), FromAttach(t, ref, card, text);
    var op := Attach(ref, card);
    var o, o' := Call(s, op), Call(t, op);
    CutCall(s, t, n, op);
    if o.result.Died? {
    } else {
      var u := Behind(n, s, o, o');
      if o.result.Threw? {
        CutCompensate(o.sys, u, Left(n, s, o), ref, card);
        Then(s, t, n, o, o', Compensate(o.sys, ref, card), Compensate(u, ref, card), p');
      } else {
        CutAnnounce(o.sys, u, Left(n, s, o), ref, card, text);
        Then(s, t, n, o, o', FromAnnounce(o.sys, ref, card, text), FromAnnounce(u, ref, card, text), p');
      }
    }
  }

  lemma CutUnit(cfg: Config, s: Sys, t: Sys, n: nat, ref: Ref, name: string, text: string)
    requires Cut(s, t, n)
    ensures CutShort(s, t, n, CreateFullCard(cfg, s, ref, name, text), CreateFullCard(cfg, t, ref, name, text))
  {
    hide Call, CutAt, WorldAfter, Made, FromAttach;
    var p, p' := CreateFullCard(cfg, s, ref, name, text), CreateFullCard(cfg, t, ref, name, text);
    var op := Create(ref, name, cfg.target);
    var card := |s.world.cards|;
    var o, o' := Call(s, op), Call(t, op);
    CutCall(s, t, n, op);
    if o.result.Returned? {
      var u := Behind(n, s, o, o');
      CutAttach(o.sys, u, Left(n, s, o), ref, card, text);
      Then(s, t, n, o, o', FromAttach(o.sys, ref, card, text), FromAttach(u, ref, card, text), p');
    } else {
    }
  }

  lemma CutComment(cfg: Config, s: Sys, t: Sys, n: nat, ref: Ref, text: string)
    requires Cut(s, t, n)
    ensures CutShort(s, t, n, PostComment(cfg, s, ref, text), PostComment(cfg, t, ref, text))
  {
    hide Call, CutAt, WorldAfter, Made, FindCard;
    var p, p' := PostComment(cfg, s, ref, text), PostComment(cfg, t, ref, text);
    var o, o' := FindCard(cfg, s, ref), FindCard(cfg, t, ref);
    CutFind(cfg, s, t, n, ref);
    if o.result.Returned? && o.result.value.Some? {
      var op := AddNote(o.result.value.value, text);
      var u := Behind(n, s, o, o');
      CutCall(o.sys, u, Left(n, s, o), op);
      var q, q' := Call(o.sys, op), Call(u, op);
      Then(s, t, n, o, o', p, ReadNote(q'), p');
    } else {
    }
  }

  function ReadNote(o: Out<()>): Out<Action> {
    Out(o.sys, if o.result.Returned? then Returned(COMMENT) else Stop(o.result))
  }

  lemma CutRow(s: Sys, t: Sys, n: nat, unit: Out<nat>, unit': Out<nat>, ref: Ref)
    requires CutShort(s, t, n, unit, unit')
    ensures CutShort(s, t, n, FileRow(unit, ref), FileRow(unit', ref))
  {
    hide Call, CutAt, WorldAfter, Made;
    var p, p' := FileRow(unit, ref), FileRow(unit', ref);
    if unit.result.Returned? {
      var op := Record(ref, unit.result.value);
      var u := Behind(n, s, unit, unit');
      CutCall(unit.sys, u, Left(n, s, unit), op);
      var q, q' := Call(unit.sys, op), Call(u, op);
      Then(s, t, n, unit, unit', p, ReadRow(q'), p');
    } else {
    }
  }

  function ReadRow(o: Out<()>): Out<Action> {
    Out(o.sys, if o.result.Returned? then Returned(CARD) else Stop(o.result))
  }

  lemma CutFiling(cfg: Config, s: Sys, t: Sys, n: nat, ref: Ref, name: Option<string>, text: string)
    requires Cut(s, t, n)
    ensures CutShort(s, t, n, FileClaim(cfg, s, ref, name, text), FileClaim(cfg, t, ref, name, text))
  {
    hide Call, CutAt, WorldAfter, Made, FileRow, CreateFullCard;
    var p, p' := FileClaim(cfg, s, ref, name, text), FileClaim(cfg, t, ref, name, text);
    var o, o' := Call(s, Letterhead), Call(t, Letterhead);
    CutCall(s, t, n, Letterhead);
    if o.result.Returned? && name.Some? {
      var u := Behind(n, s, o, o');
      CutUnit(cfg, o.sys, u, Left(n, s, o), ref, name.value, text);
      var unit, unit' := CreateFullCard(cfg, o.sys, ref, name.value, text), CreateFullCard(cfg, u, ref, name.value, text);
      CutRow(o.sys, u, Left(n, s, o), unit, unit', ref);
      Then(s, t, n, o, o', FileRow(unit, ref), FileRow(unit', ref), p');
    } else {
    }
  }

  /** An email behind its ledger check. */
  function Checked(cfg: Config, s: Sys, ref: Ref, name: Option<string>, text: string): Out<Action> {
    if ref in s.world.ledger then Out(s, Returned(DEDUP_SKIP)) else FileClaim(cfg, s, ref, name, text)
  }

  /** An email behind its extraction. */
  function Extracted(cfg: Config, s: Sys, plan: Plan): Out<Action> {
    match plan
    case Reject(_) => Out(s, Threw)
    case Comment(ref, text) => PostComment(cfg, s, ref, text)
    case Card(ref, name, text) =>
      var known := Call(s, LookUp(ref));
      if !known.result.Returned? then Out(known.sys, Stop(known.result)) else Checked(cfg, known.sys, ref, name, text)
  }

  lemma CutChecked(cfg: Config, s: Sys, t: Sys, n: nat, ref: Ref, name: Option<string>, text: string)
    requires Cut(s, t, n)
    ensures CutShort(s, t, n, Checked(cfg, s, ref, name, text), Checked(cfg, t, ref, name, text))
  {
    hide Call, CutAt, WorldAfter, Made, FileClaim;
    if ref in s.world.ledger {
      Still(s, t, n, Returned(DEDUP_SKIP));
    } else {
      CutFiling(cfg, s, t, n, ref, name, text);
    }
  }

  lemma CutExtracted(cfg: Config, s: Sys, t: Sys, n: nat, plan: Plan)
    requires Cut(s, t, n)
    ensures CutShort(s, t, n, Extracted(cfg, s, plan), Extracted(cfg, t, plan))
  {
    hide Call, CutAt, WorldAfter, Made, PostComment, Checked;
    var p, p' := Extracted(cfg, s, plan), Extracted(cfg, t, plan);
    match plan
    case Reject(_) => Still<Action>(s, t, n, Threw);
    case Comment(ref, text) => CutComment(cfg, s, t, n, ref, text);
    case Card(ref, name, text) =>
      var o, o' := Call(s, LookUp(ref)), Call(t, LookUp(ref));
      CutCall(s, t, n, LookUp(ref));
      if o.result.Returned? {
        var u := Behind(n, s, o, o');
        CutChecked(cfg, o.sys, u, Left(n, s, o), ref, name, text);
        Then(s, t, n, o, o', Checked(cfg, o.sys, ref, name, text), Checked(cfg, u, ref, name, text), p');
      } else {
      }
  }

  lemma OneIsExtracted(cfg: Config, s: Sys, mail: Mail)
    ensures ProcessOne(cfg, s, mail)
            == if mail.plan == Reject(false) then Out(s, Threw)
               else
                 var o := Call(s, Extract(mail));
                 if o.result.Returned? then Extracted(cfg, o.sys, mail.plan) else Out(o.sys, Stop(o.result))
  {
    hide Call, PostComment, FileClaim;
  }

  lemma CutOne(cfg: Config, s: Sys, t: Sys, n: nat, mail: Mail)
    requires Cut(s, t, n)
    ensures CutShort(s, t, n, ProcessOne(cfg, s, mail), ProcessOne(cfg, t, mail))
  {
    OneIsExtracted(cfg, s, mail);
    OneIsExtracted(cfg, t, mail);
    hide Call, CutAt, WorldAfter, Made, ProcessOne, Extracted;
    var p, p' := ProcessOne(cfg, s, mail), ProcessOne(cfg, t, mail);
    if mail.plan == Reject(false) {
      Still<Action>(s, t, n, Threw);
    } else {
      var o, o' := Call(s, Extract(mail)), Call(t, Extract(mail));
      CutCall(s, t, n, Extract(mail));
      if o.result.Returned? {
        var u := Behind(n, s, o, o');
        CutExtracted(cfg, o.sys, u, Left(n, s, o), mail.plan);
        Then(s, t, n, o, o', Extracted(cfg, o.sys, mail.plan), Extracted(cfg, u, mail.plan), p');
      } else {
      }
    }
  }

  // ----- The run -----

  /** The loop behind an email: its label, then the rest. */
  function Labelling(cfg: Config, s: Sys, mails: seq<Mail>, to: Label, deadline: nat, tally: Tally): Out<Tally>
    requires mails != []
  {
    var relabel := Call(s, Relabel(mails[0], to));
    if !relabel.result.Returned? then Out(relabel.sys, Stop(relabel.result))
    else ProcessAll(cfg, relabel.sys, mails[1..], deadline, tally.Add(to))
  }

  ghost predicate AllKnown(w: World, mails: seq<Mail>) {
    forall m | m in mails :: m in w.labels
  }

  lemma {:induction false} CutLoop(cfg: Config, s: Sys, t: Sys, n: nat, mails: seq<Mail>, deadline: nat, tally: Tally)
    requires Cut(s, t, n) && AllKnown(s.world, mails)
    ensures CutShort(s, t, n, ProcessAll(cfg, s, mails, deadline, tally), ProcessAll(cfg, t, mails, deadline, tally))
    decreases |mails|, 1
  {
    hide Call, CutAt, WorldAfter, Made, ProcessOne;
    var p, p' := ProcessAll(cfg, s, mails, deadline, tally), ProcessAll(cfg, t, mails, deadline, tally);
    if mails == [] || s.now > deadline {
      Still(s, t, n, Returned(tally));
    } else {
      var o, o' := ProcessOne(cfg, s, mails[0]), ProcessOne(cfg, t, mails[0]);
      CutOne(cfg, s, t, n, mails[0]);
      if o.result.Died? {
      } else {
        var to := Verdict(o.result);
        var u := Behind(n, s, o, o');
        CutLabelling(cfg, o.sys, u, Left(n, s, o), mails, to, deadline, tally);
        Then(s, t, n, o, o', Labelling(cfg, o.sys, mails, to, deadline, tally),
             Labelling(cfg, u, mails, to, deadline, tally), p');
      }
    }
  }

  lemma {:induction false} CutLabelling(cfg: Config, s: Sys, t: Sys, n: nat, mails: seq<Mail>, to: Label, deadline: nat, tally: Tally)
    requires Cut(s, t, n) && mails != [] && AllKnown(s.world, mails)
    ensures CutShort(s, t, n, Labelling(cfg, s, mails, to, deadline, tally), Labelling(cfg, t, mails, to, deadline, tally))
    decreases |mails|, 0
  {
    hide Call, CutAt, WorldAfter, Made, ProcessAll;
    var p, p' := Labelling(cfg, s, mails, to, deadline, tally), Labelling(cfg, t, mails, to, deadline, tally);
    var op := Relabel(mails[0], to);
    var o, o' := Call(s, op), Call(t, op);
    CutCall(s, t, n, op);
    if o.result.Returned? {
      var u := Behind(n, s, o, o');
      CutLoop(cfg, o.sys, u, Left(n, s, o), mails[1..], deadline, tally.Add(to));
      Then(s, t, n, o, o', ProcessAll(cfg, o.sys, mails[1..], deadline, tally.Add(to)),
           ProcessAll(cfg, u, mails[1..], deadline, tally.Add(to)), p');
    } else {
    }
  }

  lemma {:induction false} CutFetch(s: Sys, t: Sys, n: nat, ids: seq<Mail>, deadline: nat, got: seq<Mail>)
    requires Cut(s, t, n)
    ensures CutShort(s, t, n, FetchAll(s, ids, deadline, got), FetchAll(t, ids, deadline, got))
    decreases |ids|
  {
    hide Call, CutAt, WorldAfter, Made;
    var p, p' := FetchAll(s, ids, deadline, got), FetchAll(t, ids, deadline, got);
    if ids == [] || s.now > deadline {
      Still(s, t, n, Returned(got));
    } else {
      var op := Fetch(ids[0]);
      var o, o' := Call(s, op), Call(t, op);
      CutCall(s, t, n, op);
      if o.result.Returned? {
        var u := Behind(n, s, o, o');
        CutFetch(o.sys, u, Left(n, s, o), ids[1..], deadline, got + [ids[0]]);
        Then(s, t, n, o, o', FetchAll(o.sys, ids[1..], deadline, got + [ids[0]]),
             FetchAll(u, ids[1..], deadline, got + [ids[0]]), p');
      } else {
      }
    }
  }

  /** The second half of a label look-up, behind the list of labels. */
  function Ensured(s: Sys, cache: set<Label>, mark: Label): Out<set<Label>> {
    var known := cache + s.world.made;
    if mark in known then Out(s, Returned(known))
    else
      var created := Call(s, CreateLabel(mark));
      Out(created.sys, if created.result.Returned? then Returned(known + {mark}) else Stop(created.result))
  }

  lemma CutEnsured(s: Sys, t: Sys, n: nat, cache: set<Label>, mark: Label)
    requires Cut(s, t, n)
    ensures CutShort(s, t, n, Ensured(s, cache, mark), Ensured(t, cache, mark))
  {
    hide Call, CutAt, WorldAfter, Made;
    var p, p' := Ensured(s, cache, mark), Ensured(t, cache, mark);
    if mark in cache + s.world.made {
      Still(s, t, n, Returned(cache + s.world.made));
    } else {
      CutCall(s, t, n, CreateLabel(mark));
    }
  }

  lemma CutEnsure(s: Sys, t: Sys, n: nat, cache: set<Label>, mark: Label)
    requires Cut(s, t, n)
    ensures CutShort(s, t, n, EnsureLabel(s, cache, mark), EnsureLabel(t, cache, mark))
  {
    hide Call, CutAt, WorldAfter, Made;
    var p, p' := EnsureLabel(s, cache, mark), EnsureLabel(t, cache, mark);
    if mark in cache {
      Still(s, t, n, Returned(cache));
    } else {
      var o, o' := Call(s, ListLabels), Call(t, ListLabels);
      CutCall(s, t, n, ListLabels);
      if o.result.Returned? {
        var u := Behind(n, s, o, o');
        CutEnsured(o.sys, u, Left(n, s, o), cache, mark);
        Then(s, t, n, o, o', Ensured(o.sys, cache, mark), Ensured(u, cache, mark), p');
      } else {
      }
    }
  }

  lemma CutFinish(s: Sys, t: Sys, n: nat, tally: Tally)
    requires Cut(s, t, n)
    ensures CutShort(s, t, n, Finish(s, tally), Finish(t, tally))
  {
    hide Call, CutAt, WorldAfter, Made, FailedOnPage;
    CutCall(s, t, n, Gauge);
  }

  /** The run behind its fetch phase. */
  function Fetched(cfg: Config, s: Sys, mails: seq<Mail>, deadline: nat): Out<Counts> {
    var all := ProcessAll(cfg, s, InOrder(mails), deadline, Tally(0, 0));
    match all.result
    case Threw => Out(all.sys, Threw)
    case Died => Out(all.sys, Died)
    case Returned(tally) => Finish(all.sys, tally)
  }

  /** The run behind its list of ids. */
  function Listed(cfg: Config, s: Sys, page: seq<Mail>, deadline: nat): Out<Counts> {
    var fetched := FetchAll(s, page, deadline, []);
    match fetched.result
    case Threw => Out(fetched.sys, Threw)
    case Died => Out(fetched.sys, Died)
    case Returned(mails) => Fetched(cfg, fetched.sys, mails, deadline)
  }

  /** The run behind its first label. */
  function Prepared(cfg: Config, s: Sys, cache: set<Label>, page: seq<Mail>, deadline: nat): Out<Counts> {
    var failed := EnsureLabel(s, cache, FAILED);
    match failed.result
    case Threw => Out(failed.sys, Threw)
    case Died => Out(failed.sys, Died)
    case Returned(_) => ProcessPage(cfg, failed.sys, page, deadline)
  }

  lemma SortedKnown(w: World, mails: seq<Mail>)
    requires AllKnown(w, mails)
    ensures AllKnown(w, InOrder(mails))
  {
    SortPermutes(mails, Earlier);
  }

  lemma CutFetched(cfg: Config, s: Sys, t: Sys, n: nat, mails: seq<Mail>, deadline: nat)
    requires Cut(s, t, n) && AllKnown(s.world, mails)
    ensures CutShort(s, t, n, Fetched(cfg, s, mails, deadline), Fetched(cfg, t, mails, deadline))
  {
    hide CutAt, WorldAfter, Made, ProcessAll, InOrder, Finish;
    var p, p' := Fetched(cfg, s, mails, deadline), Fetched(cfg, t, mails, deadline);
    var all := InOrder(mails);
    var o, o' := ProcessAll(cfg, s, all, deadline, Tally(0, 0)), ProcessAll(cfg, t, all, deadline, Tally(0, 0));
    SortedKnown(s.world, mails);
    CutLoop(cfg, s, t, n, all, deadline, Tally(0, 0));
    if o.result.Returned? {
      var u := Behind(n, s, o, o');
      CutFinish(o.sys, u, Left(n, s, o), o.result.value);
      Then(s, t, n, o, o', Finish(o.sys, o.result.value), Finish(u, o.result.value), p');
    } else {
    }
  }

  lemma CutListed(cfg: Config, s: Sys, t: Sys, n: nat, page: seq<Mail>, deadline: nat)
    requires Cut(s, t, n) && AllKnown(s.world, page)
    ensures CutShort(s, t, n, Listed(cfg, s, page, deadline), Listed(cfg, t, page, deadline))
  {
    hide CutAt, WorldAfter, Made, FetchAll, Fetched;
    var p, p' := Listed(cfg, s, page, deadline), Listed(cfg, t, page, deadline);
    var o, o' := FetchAll(s, page, deadline, []), FetchAll(t, page, deadline, []);
    CutFetch(s, t, n, page, deadline, []);
    if o.result.Returned? {
      var u := Behind(n, s, o, o');
      var f := FetchKeeps(s, page, deadline, []);
      assert o.result.value == page[..f];
      CutFetched(cfg, o.sys, u, Left(n, s, o), o.result.value, deadline);
      Then(s, t, n, o, o', Fetched(cfg, o.sys, o.result.value, deadline), Fetched(cfg, u, o.result.value, deadline), p');
    } else {
    }
  }

  lemma PageIsListed(cfg: Config, s: Sys, page: seq<Mail>, deadline: nat)
    ensures var o := Call(s, ListUnread);
            ProcessPage(cfg, s, page, deadline)
            == if o.result.Returned? then Listed(cfg, o.sys, page, deadline) else Out(o.sys, Stop(o.result))
  {
    hide Call, FetchAll, ProcessAll, InOrder, Finish;
  }

  lemma CutPage(cfg: Config, s: Sys, t: Sys, n: nat, page: seq<Mail>, deadline: nat)
    requires Cut(s, t, n) && AllKnown(s.world, page)
    ensures CutShort(s, t, n, ProcessPage(cfg, s, page, deadline), ProcessPage(cfg, t, page, deadline))
  {
    PageIsListed(cfg, s, page, deadline);
    PageIsListed(cfg, t, page, deadline);
    hide Call, CutAt, WorldAfter, Made, Listed, ProcessPage;
    var p, p' := ProcessPage(cfg, s, page, deadline), ProcessPage(cfg, t, page, deadline);
    var o, o' := Call(s, ListUnread), Call(t, ListUnread);
    CutCall(s, t, n, ListUnread);
    if o.result.Returned? {
      var u := Behind(n, s, o, o');
      CutListed(cfg, o.sys, u, Left(n, s, o), page, deadline);
      Then(s, t, n, o, o', Listed(cfg, o.sys, page, deadline), Listed(cfg, u, page, deadline), p');
    } else {
    }
  }

  lemma CutPrepared(cfg: Config, s: Sys, t: Sys, n: nat, cache: set<Label>, page: seq<Mail>, deadline: nat)
    requires Cut(s, t, n) && AllKnown(s.world, page)
    ensures CutShort(s, t, n, Prepared(cfg, s, cache, page, deadline), Prepared(cfg, t, cache, page, deadline))
  {
    hide CutAt, WorldAfter, Made, EnsureLabel, ProcessPage;
    var p, p' := Prepared(cfg, s, cache, page, deadline), Prepared(cfg, t, cache, page, deadline);
    var o, o' := EnsureLabel(s, cache, FAILED), EnsureLabel(t, cache, FAILED);
    CutEnsure(s, t, n, cache, FAILED);
    if o.result.Returned? {
      var u := Behind(n, s, o, o');
      CutPage(cfg, o.sys, u, Left(n, s, o), page, deadline);
      Then(s, t, n, o, o', ProcessPage(cfg, o.sys, page, deadline), ProcessPage(cfg, u, page, deadline), p');
    } else {
    }
  }

  /** A run killed at any of its calls does up to there what the run does, and nothing more. */
  lemma CutRun(cfg: Config, s: Sys, t: Sys, n: nat, page: seq<Mail>, deadline: nat)
    requires Cut(s, t, n) && AllKnown(s.world, page)
    ensures CutShort(s, t, n, ProcessMailbox(cfg, s, page, deadline), ProcessMailbox(cfg, t, page, deadline))
  {
    hide CutAt, WorldAfter, Made, EnsureLabel, ProcessPage;
    var p, p' := ProcessMailbox(cfg, s, page, deadline), ProcessMailbox(cfg, t, page, deadline);
    var o, o' := EnsureLabel(s, {}, PROCESADO), EnsureLabel(t, {}, PROCESADO);
    CutEnsure(s, t, n, {}, PROCESADO);
    if o.result.Returned? {
      var u := Behind(n, s, o, o');
      CutPrepared(cfg, o.sys, u, Left(n, s, o), o.result.value, page, deadline);
      Then(s, t, n, o, o', Prepared(cfg, o.sys, o.result.value, page, deadline),
           Prepared(cfg, u, o.result.value, page, deadline), p');
    } else {
    }
  }

  // ----- Every moment of every run -----

  /** The world of a run after its first `n` calls is truthful, whatever becomes of the run. */
  lemma EveryMoment(cfg: Config, s: Sys, page: seq<Mail>, deadline: nat, n: nat)
    requires Configured(cfg) && Truthful(cfg, s.world) && Waiting(s.world, page)
    requires n <= |Made(s, ProcessMailbox(cfg, s, page, deadline).sys)|
    ensures Truthful(cfg, WorldAfter(s.world, Made(s, ProcessMailbox(cfg, s, page, deadline).sys)[..n]))
  {
    var t := s.(script := CutAt(s.script, n));
    CutRun(cfg, s, t, n, page, deadline);
    var o, o' := ProcessMailbox(cfg, s, page, deadline), ProcessMailbox(cfg, t, page, deadline);
    var _, _ := RunTrue(cfg, t, page, deadline);
    hide ProcessMailbox, Truthful, CutAt;
    KilledWorld(s, t, n, o, o');
  }

  /** The killed run leaves the world of that moment. */
  lemma KilledWorld<T(!new)>(s: Sys, t: Sys, n: nat, o: Out<T>, o': Out<T>)
    requires CutShort(s, t, n, o, o') && s.world == t.world && n <= |Made(s, o.sys)|
    ensures o'.sys.world == WorldAfter(s.world, Made(s, o.sys)[..n])
  {
    var made, made' := Made(s, o.sys), Made(t, o'.sys);
    if |made| == n {
      assert made[..n] == made;
    } else {
      assert made'[..|made'| - 1] == made[..n];
    }
  }
}
