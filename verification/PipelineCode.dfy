/** The run as the code performs it: clients that change the world call by call, loops with early
    exits, counters.  Every method is proved to compute the function of `Pipeline` that the
    theorems are about. */
module PipelineCode {
  import opened Options
  import opened ClaimData
  import opened Plans
  import opened Pipeline

  class WakeRun {
    const cfg: Config
    var sys: Sys
    var labelIds: set<Label>     // the per-run cache of GmailClient

    constructor (cfg: Config, sys: Sys)
      ensures this.cfg == cfg && this.sys == sys && labelIds == {}
    {
      this.cfg := cfg;
      this.sys := sys;
      labelIds := {};
    }

    method Request(op: Op) returns (r: Result<()>)
      modifies this`sys
      ensures Out(sys, r) == Call(old(sys), op)
    {
      var o := Call(sys, op);
      sys := o.sys;
      r := o.result;
    }

    method GetOrCreateLabel(name: Label) returns (r: Result<()>)
      modifies this
      ensures var o := EnsureLabel(old(sys), old(labelIds), name);
              && sys == o.sys
              && r == (match o.result case Returned(_) => Returned(()) case Threw => Threw case Died => Died)
              && (o.result.Returned? ==> labelIds == o.result.value)
    {
      if name in labelIds { return Returned(()); }
      r := Request(ListLabels);
      if !r.Returned? { return; }
      labelIds := labelIds + sys.world.made;
      if name in labelIds { return Returned(()); }
      r := Request(CreateLabel(name));
      if r.Returned? { labelIds := labelIds + {name}; }
    }

    /** The inner loop of the search: the cards of one list, or of the archive. */
    method FirstOn(place: Place, ref: Ref) returns (hit: Option<nat>)
      ensures hit == FirstAnswer(cfg, sys.world.cards, place, ref, 0)
    {
      var cards := sys.world.cards;
      for i := 0 to |cards|
        invariant FirstAnswer(cfg, cards, place, ref, 0) == FirstAnswer(cfg, cards, place, ref, i)
      {
        if Answers(cfg, cards[i], place, ref) { return Some(i); }
      }
      return None;
    }

    method FindCardByClaimRef(ref: Ref) returns (r: Result<Option<nat>>)
      modifies this`sys
      ensures Out(sys, r) == FindCard(cfg, old(sys), ref)
    {
      var got := Request(Browse);
      if !got.Returned? { return Stop(got); }
      ghost var listed := sys;
      for k := 0 to cfg.lists
        invariant SearchFrom(cfg, listed, ref, 0) == SearchFrom(cfg, sys, ref, k)
      {
        got := Request(Browse);
        if !got.Returned? { return Stop(got); }
        var hit := FirstOn(OnList(k), ref);
        if hit.Some? { return Returned(hit); }
      }
      got := Request(Browse);
      if !got.Returned? { return Stop(got); }
      var hit := FirstOn(Archived, ref);
      return Returned(hit);
    }

    method CreateFullCard(ref: Ref, name: string, text: string) returns (r: Result<nat>)
      modifies this`sys
      ensures Out(sys, r) == Pipeline.CreateFullCard(cfg, old(sys), ref, name, text)
    {
      var card := |sys.world.cards|;
      var done := Request(Create(ref, name, cfg.target));
      if !done.Returned? { return Stop(done); }
      done := Request(Attach(ref, card));
      if done.Returned? {
        done := Request(Announce(ref, card, text));
      }
      if done.Threw? {
        // The original failure surfaces, not the delete's.
        var undone := Request(Delete(ref, card));
        if !undone.Died? { return Threw; }
        return Died;
      }
      if done.Died? { return Died; }
      return Returned(card);
    }

    method ProcessOne(mail: Mail) returns (r: Result<Action>)
      modifies this`sys
      ensures Out(sys, r) == Pipeline.ProcessOne(cfg, old(sys), mail)
    {
      if mail.plan == Reject(false) { return Threw; }
      var got := Request(Extract(mail));
      if !got.Returned? { return Stop(got); }
      if mail.plan.Reject? { return Threw; }
      var ref := mail.plan.ref;
      if mail.plan.Comment? {
        var found := FindCardByClaimRef(ref);
        if found.Died? { return Died; }
        if found.Threw? || found.value.None? { return Threw; }
        got := Request(AddNote(found.value.value, mail.plan.text));
        return if got.Returned? then Returned(COMMENT) else Stop(got);
      }
      got := Request(LookUp(ref));
      if !got.Returned? { return Stop(got); }
      if ref in sys.world.ledger { return Returned(DEDUP_SKIP); }
      got := Request(Letterhead);
      if !got.Returned? { return Stop(got); }
      if mail.plan.name.None? { return Threw; }
      var unit := CreateFullCard(ref, mail.plan.name.value, mail.plan.text);
      if unit.Died? { return Died; }
      if unit.Threw? { return Threw; }
      got := Request(Record(ref, unit.value));
      return if got.Returned? then Returned(CARD) else Stop(got);
    }

    /** The fetch phase of `process_mailbox`. */
    method FetchPage(page: seq<Mail>, deadline: nat) returns (r: Result<seq<Mail>>)
      modifies this`sys
      ensures Out(sys, r) == FetchAll(old(sys), page, deadline, [])
    {
      var messages: seq<Mail> := [];
      var i := 0;
      while i < |page| && sys.now <= deadline
        invariant 0 <= i <= |page|
        invariant FetchAll(old(sys), page, deadline, []) == FetchAll(sys, page[i..], deadline, messages)
      {
        var got := Request(Fetch(page[i]));
        if !got.Returned? { return Stop(got); }
        assert page[i..][1..] == page[i + 1..];
        messages := messages + [page[i]];
        i := i + 1;
      }
      return Returned(messages);
    }

    /** The email loop of `process_mailbox`: the relabel is outside the per-email boundary. */
    method ProcessEmails(messages: seq<Mail>, deadline: nat) returns (r: Result<Tally>)
      modifies this`sys
      ensures Out(sys, r) == ProcessAll(cfg, old(sys), messages, deadline, Tally(0, 0))
    {
      hide Pipeline.ProcessOne;
      var processed, failed := 0, 0;
      var i := 0;
      while i < |messages| && sys.now <= deadline
        invariant 0 <= i <= |messages| && processed >= 0 && failed >= 0
        invariant ProcessAll(cfg, old(sys), messages, deadline, Tally(0, 0))
                  == ProcessAll(cfg, sys, messages[i..], deadline, Tally(processed, failed))
      {
        var message := messages[i];
        assert messages[i..][0] == message && messages[i..][1..] == messages[i + 1..];
        var action := ProcessOne(message);
        if action.Died? { return Died; }
        var to := if action.Returned? then PROCESADO else FAILED;
        var relabelled := Request(Relabel(message, to));
        if !relabelled.Returned? { return Stop(relabelled); }
        if action.Returned? { processed := processed + 1; } else { failed := failed + 1; }
        i := i + 1;
      }
      return Returned(Tally(processed, failed));
    }

    method ProcessMailbox(page: seq<Mail>, deadline: nat) returns (r: Result<Counts>)
      requires labelIds == {}
      modifies this
      ensures Out(sys, r) == Pipeline.ProcessMailbox(cfg, old(sys), page, deadline)
    {
      var got := GetOrCreateLabel(PROCESADO);
      if !got.Returned? { return Stop(got); }
      got := GetOrCreateLabel(FAILED);
      if !got.Returned? { return Stop(got); }
      got := Request(ListUnread);
      if !got.Returned? { return Stop(got); }
      var messages := FetchPage(page, deadline);
      if messages.Died? { return Died; }
      if messages.Threw? { return Threw; }
      var tally := ProcessEmails(InOrder(messages.value), deadline);
      if tally.Died? { return Died; }
      if tally.Threw? { return Threw; }
      got := Request(Gauge);
      if got.Died? { return Died; }
      // A failing gauge does not fail the run.
      return Returned(Counts(tally.value, if got.Returned? then Some(FailedOnPage(sys.world)) else None));
    }
  }
}
