/** One run over the mailbox: per email the ledger check, the card as one unit with its
    compensating delete, the ledger row, and the relabel last.

    Gmail, the Trello board and the ledger are one `World`.  Every external call goes through
    `Call`, which reads from a script whether the call succeeds, raises or kills the process,
    whether its effect landed all the same, and how long it took; a script that has run out
    means success in no time.  These functions are what the code of `PipelineCode` computes. */
module Pipeline {
  import opened Options
  import opened ClaimData
  import opened Collections
  import opened Plans

  // ----- The world outside -----

  datatype Label = UNREAD | PROCESADO | FAILED

  /** An email of the mailbox with the decision `PlanOf` makes about it. */
  datatype Mail = Mail(id: nat, date: int, plan: Plan)

  datatype Place = OnList(list: nat) | Archived

  /** A card of the board; its id is its position, its URL a function of the id.
      `attached` and the comment `announced` are the two other parts of the unit that creates it. */
  datatype BoardCard = BoardCard(ref: Ref, name: string, attached: bool, announced: Option<string>,
                                 notes: seq<string>, deleted: bool, place: Place)

  datatype World = World(labels: map<Mail, set<Label>>, made: set<Label>,
                         cards: seq<BoardCard>, ledger: map<Ref, nat>)

  /** The board as configured, and Python's digits. */
  datatype Config = Config(digit: DigitClass, lists: nat, target: nat)

  // ----- Calls -----

  datatype Op =
    | ListLabels | CreateLabel(mark: Label)
    | ListUnread | Fetch(mail: Mail)
    | Extract(mail: Mail)
    | LookUp(ref: Ref) | Letterhead
    | Create(ref: Ref, name: string, list: nat) | Attach(ref: Ref, card: nat)
    | Announce(ref: Ref, card: nat, text: string) | Delete(ref: Ref, card: nat)
    | Record(ref: Ref, card: nat)
    | Browse
    | AddNote(card: nat, text: string)
    | Relabel(mail: Mail, to: Label)
    | Gauge

  function Apply(w: World, op: Op): World {
    match op
    case CreateLabel(mark) => w.(made := w.made + {mark})
    case Create(ref, name, list) =>
      w.(cards := w.cards + [BoardCard(ref, name, false, None, [], false, OnList(list))])
    case Attach(_, i) => if i < |w.cards| then w.(cards := w.cards[i := w.cards[i].(attached := true)]) else w
    case Announce(_, i, text) =>
      if i < |w.cards| then w.(cards := w.cards[i := w.cards[i].(announced := Some(text))]) else w
    case Delete(_, i) => if i < |w.cards| then w.(cards := w.cards[i := w.cards[i].(deleted := true)]) else w
    case Record(ref, i) => w.(ledger := w.ledger[ref := i])
    case AddNote(i, text) =>
      if i < |w.cards| then w.(cards := w.cards[i := w.cards[i].(notes := w.cards[i].notes + [text])]) else w
    case Relabel(mail, to) =>
      if mail in w.labels then w.(labels := w.labels[mail := w.labels[mail] - {UNREAD} + {to}]) else w
    case _ => w
  }

  datatype Fate = Success | Failure(landed: bool) | Death(landed: bool)

  datatype Event = Event(fate: Fate, took: nat)

  /** How a call, or a function of the pipeline, ends. */
  datatype Result<+T> = Returned(value: T) | Threw | Died

  datatype Entry = Entry(op: Op, landed: bool, result: Result<()>)

  datatype Sys = Sys(world: World, script: seq<Event>, now: nat, log: seq<Entry>) {
    function Next(): Event {
      if script == [] then Event(Success, 0) else script[0]
    }
  }

  datatype Out<+T> = Out(sys: Sys, result: Result<T>)

  function Call(s: Sys, op: Op): Out<()> {
    var event := s.Next();
    var landed := event.fate.Success? || event.fate.landed;
    var result := match event.fate
                  case Success => Returned(())
                  case Failure(_) => Threw
                  case Death(_) => Died;
    Out(Sys(if landed then Apply(s.world, op) else s.world,
            if s.script == [] then [] else s.script[1..],
            s.now + event.took,
            s.log + [Entry(op, landed, result)]),
        result)
  }

  /** The outcome of a step that stopped, in the caller's type. */
  function Stop<T>(r: Result<()>): Result<T>
    requires !r.Returned?
  {
    if r.Threw? then Threw else Died
  }

  // ----- Trello -----

  predicate Answers(cfg: Config, card: BoardCard, place: Place, ref: Ref) {
    !card.deleted && card.place == place && Mentions(cfg.digit, card.name, ref.Text())
  }

  /** The first card at this place, from position `i` on, that the search pattern matches. */
  function FirstAnswer(cfg: Config, cards: seq<BoardCard>, place: Place, ref: Ref, i: nat): Option<nat>
    decreases |cards| - i
  {
    if i >= |cards| then None
    else if Answers(cfg, cards[i], place, ref) then Some(i)
    else FirstAnswer(cfg, cards, place, ref, i + 1)
  }

  function PlaceOf(cfg: Config, k: nat): Place {
    if k < cfg.lists then OnList(k) else Archived
  }

  /** `find_card_by_claim_ref` from list `k` on: every list, then the archive. */
  function SearchFrom(cfg: Config, s: Sys, ref: Ref, k: nat): Out<Option<nat>>
    decreases cfg.lists + 1 - k
  {
    if k > cfg.lists then Out(s, Returned(None))
    else
      var o := Call(s, Browse);
      if !o.result.Returned? then Out(o.sys, Stop(o.result))
      else
        var hit := FirstAnswer(cfg, o.sys.world.cards, PlaceOf(cfg, k), ref, 0);
        if hit.Some? then Out(o.sys, Returned(hit)) else SearchFrom(cfg, o.sys, ref, k + 1)
  }

  function FindCard(cfg: Config, s: Sys, ref: Ref): Out<Option<nat>> {
    var o := Call(s, Browse);
    if !o.result.Returned? then Out(o.sys, Stop(o.result)) else SearchFrom(cfg, o.sys, ref, 0)
  }

  /** The best-effort delete; the original failure surfaces either way. */
  function Compensate(s: Sys, ref: Ref, card: nat): Out<nat> {
    var o := Call(s, Delete(ref, card));
    Out(o.sys, if o.result.Died? then Died else Threw)
  }

  /** Create, attach and comment as one unit; the result is the card. */
  function CreateFullCard(cfg: Config, s: Sys, ref: Ref, name: string, text: string): Out<nat> {
    var created := Call(s, Create(ref, name, cfg.target));
    if !created.result.Returned? then Out(created.sys, Stop(created.result))
    else FromAttach(created.sys, ref, |s.world.cards|, text)
  }

  function FromAttach(s: Sys, ref: Ref, card: nat, text: string): Out<nat> {
    var attached := Call(s, Attach(ref, card));
    if attached.result.Died? then Out(attached.sys, Died)
    else if attached.result.Threw? then Compensate(attached.sys, ref, card)
    else
      var announced := Call(attached.sys, Announce(ref, card, text));
      if announced.result.Died? then Out(announced.sys, Died)
      else if announced.result.Threw? then Compensate(announced.sys, ref, card)
      else Out(announced.sys, Returned(card))
  }

  // ----- One email -----

  datatype Action = CARD | COMMENT | DEDUP_SKIP

  function PostComment(cfg: Config, s: Sys, ref: Ref, text: string): Out<Action> {
    var found := FindCard(cfg, s, ref);
    match found.result
    case Threw => Out(found.sys, Threw)
    case Died => Out(found.sys, Died)
    case Returned(None) => Out(found.sys, Threw)
    case Returned(Some(card)) =>
      var noted := Call(found.sys, AddNote(card, text));
      Out(noted.sys, if noted.result.Returned? then Returned(COMMENT) else Stop(noted.result))
  }

  /** From a claim the ledger does not know to its row. */
  function FileClaim(cfg: Config, s: Sys, ref: Ref, name: Option<string>, text: string): Out<Action> {
    var letterhead := Call(s, Letterhead);
    if !letterhead.result.Returned? then Out(letterhead.sys, Stop(letterhead.result))
    else if name.None? then Out(letterhead.sys, Threw)
    else
      FileRow(CreateFullCard(cfg, letterhead.sys, ref, name.value, text), ref)
  }

  function FileRow(unit: Out<nat>, ref: Ref): Out<Action> {
    match unit.result
    case Threw => Out(unit.sys, Threw)
    case Died => Out(unit.sys, Died)
    case Returned(card) =>
      var row := Call(unit.sys, Record(ref, card));
      Out(row.sys, if row.result.Returned? then Returned(CARD) else Stop(row.result))
  }

  /** `_process_one`. */
  function ProcessOne(cfg: Config, s: Sys, mail: Mail): Out<Action> {
    if mail.plan == Reject(false) then Out(s, Threw)
    else
      var extracted := Call(s, Extract(mail));
      if !extracted.result.Returned? then Out(extracted.sys, Stop(extracted.result))
      else
        match mail.plan
        case Reject(_) => Out(extracted.sys, Threw)
        case Comment(ref, text) => PostComment(cfg, extracted.sys, ref, text)
        case Card(ref, name, text) =>
          var known := Call(extracted.sys, LookUp(ref));
          if !known.result.Returned? then Out(known.sys, Stop(known.result))
          else if ref in known.sys.world.ledger then Out(known.sys, Returned(DEDUP_SKIP))
          else FileClaim(cfg, known.sys, ref, name, text)
  }

  function Verdict(r: Result<Action>): Label {
    if r.Returned? then PROCESADO else FAILED
  }

  // ----- One run -----

  /** RUN_DEADLINE_S, in microseconds. */
  const RUN_DEADLINE_US: nat := 120 * 1_000_000
  const PAGE: nat := 100

  datatype Tally = Tally(processed: nat, failed: nat) {
    function Add(mark: Label): Tally {
      if mark == PROCESADO then Tally(processed + 1, failed) else Tally(processed, failed + 1)
    }
  }

  /** The email loop of `process_mailbox` on the mails still to come. */
  function ProcessAll(cfg: Config, s: Sys, mails: seq<Mail>, deadline: nat, tally: Tally): Out<Tally>
    decreases |mails|
  {
    if mails == [] || s.now > deadline then Out(s, Returned(tally))
    else
      var one := ProcessOne(cfg, s, mails[0]);
      if one.result.Died? then Out(one.sys, Died)
      else
        var relabel := Call(one.sys, Relabel(mails[0], Verdict(one.result)));
        if !relabel.result.Returned? then Out(relabel.sys, Stop(relabel.result))
        else ProcessAll(cfg, relabel.sys, mails[1..], deadline, tally.Add(Verdict(one.result)))
  }

  /** The fetch loop: it stops early, keeping what it has, once the deadline has passed. */
  function FetchAll(s: Sys, ids: seq<Mail>, deadline: nat, got: seq<Mail>): Out<seq<Mail>>
    decreases |ids|
  {
    if ids == [] || s.now > deadline then Out(s, Returned(got))
    else
      var o := Call(s, Fetch(ids[0]));
      if !o.result.Returned? then Out(o.sys, Stop(o.result))
      else FetchAll(o.sys, ids[1..], deadline, got + [ids[0]])
  }

  /** `get_or_create_label_id`, with the labels this run already knows. */
  function EnsureLabel(s: Sys, cache: set<Label>, mark: Label): Out<set<Label>> {
    if mark in cache then Out(s, Returned(cache))
    else
      var listed := Call(s, ListLabels);
      if !listed.result.Returned? then Out(listed.sys, Stop(listed.result))
      else
        var known := cache + listed.sys.world.made;
        if mark in known then Out(listed.sys, Returned(known))
        else
          var created := Call(listed.sys, CreateLabel(mark));
          Out(created.sys, if created.result.Returned? then Returned(known + {mark}) else Stop(created.result))
  }

  predicate Earlier(a: Mail, b: Mail) {
    a.date <= b.date
  }

  function InOrder(mails: seq<Mail>): seq<Mail> {
    StableSort(mails, Earlier)
  }

  datatype Counts = Counts(tally: Tally, failedTotal: Option<nat>)

  /** `count_messages_with_label`: one page, and 101 for more. */
  function FailedOnPage(w: World): nat {
    var n := |set m | m in w.labels && FAILED in w.labels[m]|;
    if n > PAGE then PAGE + 1 else n
  }

  function Finish(s: Sys, tally: Tally): Out<Counts> {
    var gauge := Call(s, Gauge);
    match gauge.result
    case Died => Out(gauge.sys, Died)
    case Threw => Out(gauge.sys, Returned(Counts(tally, None)))
    case Returned(_) => Out(gauge.sys, Returned(Counts(tally, Some(FailedOnPage(gauge.sys.world)))))
  }

  /** `process_mailbox` after its label lookups, on the page of ids Gmail answers with. */
  function ProcessPage(cfg: Config, s: Sys, page: seq<Mail>, deadline: nat): Out<Counts> {
    var listed := Call(s, ListUnread);
    if !listed.result.Returned? then Out(listed.sys, Stop(listed.result))
    else
      var fetched := FetchAll(listed.sys, page, deadline, []);
      match fetched.result
      case Threw => Out(fetched.sys, Threw)
      case Died => Out(fetched.sys, Died)
      case Returned(mails) =>
        var all := ProcessAll(cfg, fetched.sys, InOrder(mails), deadline, Tally(0, 0));
        match all.result
        case Threw => Out(all.sys, Threw)
        case Died => Out(all.sys, Died)
        case Returned(tally) => Finish(all.sys, tally)
  }

  function ProcessMailbox(cfg: Config, s: Sys, page: seq<Mail>, deadline: nat): Out<Counts> {
    var procesado := EnsureLabel(s, {}, PROCESADO);
    match procesado.result
    case Threw => Out(procesado.sys, Threw)
    case Died => Out(procesado.sys, Died)
    case Returned(cache) =>
      var failed := EnsureLabel(procesado.sys, cache, FAILED);
      match failed.result
      case Threw => Out(failed.sys, Threw)
      case Died => Out(failed.sys, Died)
      case Returned(_) => ProcessPage(cfg, failed.sys, page, deadline)
  }
}
