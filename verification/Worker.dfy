/** The wake around the run: outcome classification, the heartbeat on every exit, its append-only
    history, and what the dashboard reads out of that history. */
module Worker {
  import opened Options
  import opened Collections
  import opened Decimal
  import opened Pipeline
  import opened Truth

  // ----- History rows -----

  datatype Status = SKIPPED_DISABLED | RAN | FAILED_RUN | SKIPPED_NO_ACCESS | SKIPPED_BUSY

  /** The counts are present exactly on a completed run. */
  datatype Heartbeat = Heartbeat(status: Status, counts: Option<Counts>)

  const TWO_63: nat := 0x8000_0000_0000_0000

  /** `f"{2**63 - time_ns():020d}"`. */
  function HistoryKey(t: nat): string
    requires t <= TWO_63
  {
    PadStart(Print(TWO_63 - t), 20)
  }

  lemma KeyIsFixed(t: nat)
    requires t <= TWO_63
    ensures HistoryKey(t) == Fixed(TWO_63 - t, 20)
  {
    PowTwenty();
    hide Pow10, Print, Fixed, PadStart;
    PaddedIsFixed(TWO_63 - t, 20);
  }

  lemma EarlierKeyIsAbove(t1: nat, t2: nat)
    requires t1 < t2 <= TWO_63
    ensures Less(HistoryKey(t2), HistoryKey(t1))
  {
    KeyIsFixed(t1);
    KeyIsFixed(t2);
    PowTwenty();
    hide HistoryKey, Pow10, Print, Fixed, PadStart, Less;
    FixedOrder(TWO_63 - t2, TWO_63 - t1, 20);
  }

  /** The keys run against time: of two moments, the later one has the smaller key. */
  lemma KeysReverseTime(t1: nat, t2: nat)
    requires t1 <= TWO_63 && t2 <= TWO_63
    ensures Less(HistoryKey(t2), HistoryKey(t1)) <==> t1 < t2
    ensures HistoryKey(t1) == HistoryKey(t2) ==> t1 == t2
    ensures |HistoryKey(t1)| == 20 && AllDigits(HistoryKey(t1))
  {
    KeyIsDigits(t1);
    hide HistoryKey, Less;
    NotBelowItself(HistoryKey(t1));
    if t1 < t2 {
      EarlierKeyIsAbove(t1, t2);
    } else if t2 < t1 {
      EarlierKeyIsAbove(t2, t1);
      LessAsymmetric(HistoryKey(t1), HistoryKey(t2));
    }
  }

  lemma KeyIsDigits(t: nat)
    requires t <= TWO_63
    ensures |HistoryKey(t)| == 20 && AllDigits(HistoryKey(t))
  {
    KeyIsFixed(t);
    PrintIsDigits(TWO_63 - t);
    hide Fixed, Print, Pow10;
    FixedLength(TWO_63 - t, 20);
  }

  lemma PowTwenty()
    ensures Pow10(20) == 100_000_000_000_000_000_000
  {
    assert Pow10(4) == 10_000;
    assert Pow10(8) == 10_000 * Pow10(4);
    assert Pow10(12) == 10_000 * Pow10(8);
    assert Pow10(16) == 10_000 * Pow10(12);
    assert Pow10(20) == 10_000 * Pow10(16);
  }

  lemma NotBelowItself(s: string)
    ensures !Less(s, s)
  {
    if Less(s, s) { LessAsymmetric(s, s); }
  }

  /** One row of the history partition, with the clock reading its key was made from. */
  datatype Row = Row(t: nat, beat: Heartbeat) {
    function Key(): string
      requires t <= TWO_63
    {
      HistoryKey(t)
    }
  }

  /** The partition in key order, as the Table service keeps and returns it. */
  ghost predicate InKeyOrder(rows: seq<Row>) {
    && (forall row | row in rows :: row.t <= TWO_63)
    && forall i, j | 0 <= i < j < |rows| :: Less(rows[i].Key(), rows[j].Key())
  }

  ghost predicate NewestFirst(rows: seq<Row>) {
    && (forall row | row in rows :: row.t <= TWO_63)
    && forall i, j | 0 <= i < j < |rows| :: rows[i].t > rows[j].t
  }

  /** An ascending scan of the keys reads the history newest first. */
  lemma ScanIsNewestFirst(rows: seq<Row>)
    ensures InKeyOrder(rows) <==> NewestFirst(rows)
  {
    if forall row | row in rows :: row.t <= TWO_63 {
      forall i, j | 0 <= i < j < |rows|
        ensures Less(rows[i].Key(), rows[j].Key()) <==> rows[i].t > rows[j].t
      {
        KeysReverseTime(rows[j].t, rows[i].t);
      }
    }
  }

  /** `create_entity`: a row at its key's position; an existing key is a conflict and changes nothing. */
  function Placed(rows: seq<Row>, row: Row): seq<Row>
    requires row.t <= TWO_63 && forall r | r in rows :: r.t <= TWO_63
  {
    if rows == [] || Less(row.Key(), rows[0].Key()) then [row] + rows
    else if rows[0].Key() == row.Key() then rows
    else [rows[0]] + Placed(rows[1..], row)
  }

  /** The same position found by time. */
  function ByTime(rows: seq<Row>, row: Row): seq<Row> {
    if rows == [] || rows[0].t < row.t then [row] + rows
    else if rows[0].t == row.t then rows
    else [rows[0]] + ByTime(rows[1..], row)
  }

  lemma {:induction false} PlacedIsByTime(rows: seq<Row>, row: Row)
    requires row.t <= TWO_63 && forall r | r in rows :: r.t <= TWO_63
    ensures Placed(rows, row) == ByTime(rows, row)
  {
    if rows != [] {
      assert rows[0] in rows;
      KeysReverseTime(rows[0].t, row.t);
      PlacedIsByTime(rows[1..], row);
    }
  }

  ghost predicate Fresh(rows: seq<Row>, t: nat) {
    forall row | row in rows :: row.t != t
  }

  lemma {:induction false} ByTimeIn(rows: seq<Row>, row: Row)
    requires NewestFirst(rows) && row.t <= TWO_63
    ensures forall r :: r in ByTime(rows, row) <==> r in rows || (r == row && Fresh(rows, row.t))
  {
    if rows != [] {
      var rest := rows[1..];
      assert rows == [rows[0]] + rest;
      if row.t < rows[0].t { ByTimeIn(rest, row); }
    }
  }

  lemma NewestCons(row: Row, rows: seq<Row>)
    requires NewestFirst(rows) && row.t <= TWO_63 && forall r | r in rows :: r.t < row.t
    ensures NewestFirst([row] + rows)
  {
  }

  lemma {:induction false} ByTimeKeepsOrder(rows: seq<Row>, row: Row)
    requires NewestFirst(rows) && row.t <= TWO_63
    ensures NewestFirst(ByTime(rows, row))
  {
    if rows == [] || rows[0].t < row.t {
      NewestCons(row, rows);
    } else if row.t < rows[0].t {
      ByTimeIn(rows[1..], row);
      ByTimeKeepsOrder(rows[1..], row);
      NewestCons(rows[0], ByTime(rows[1..], row));
    }
  }

  lemma PlacedKeepsOrder(rows: seq<Row>, row: Row)
    requires NewestFirst(rows) && row.t <= TWO_63
    ensures NewestFirst(Placed(rows, row))
    ensures forall r :: r in Placed(rows, row) <==> r in rows || (r == row && Fresh(rows, row.t))
  {
    PlacedIsByTime(rows, row);
    ByTimeIn(rows, row);
    ByTimeKeepsOrder(rows, row);
  }

  // ----- What the dashboard reads -----

  datatype Totals = Totals(processed: nat, failed: nat, failedRuns: nat) {
    function Plus(beat: Heartbeat): Totals {
      var tally := if beat.counts.Some? then beat.counts.value.tally else Tally(0, 0);
      Totals(processed + tally.processed, failed + tally.failed,
             failedRuns + if beat.status == FAILED_RUN then 1 else 0)
    }
  }

  function TotalsOf(rows: seq<Row>): Totals {
    if rows == [] then Totals(0, 0, 0) else TotalsOf(rows[1..]).Plus(rows[0].beat)
  }

  lemma TotalsCons(row: Row, rows: seq<Row>)
    ensures TotalsOf([row] + rows) == TotalsOf(rows).Plus(row.beat)
  {
    assert ([row] + rows)[1..] == rows;
  }

  lemma {:induction false} ByTimeAdds(rows: seq<Row>, row: Row)
    requires NewestFirst(rows) && row.t <= TWO_63
    ensures TotalsOf(ByTime(rows, row)) == if Fresh(rows, row.t) then TotalsOf(rows).Plus(row.beat) else TotalsOf(rows)
  {
    hide TotalsOf;
    TotalsCons(row, rows);
    if rows != [] {
      var rest := rows[1..];
      assert rows == [rows[0]] + rest;
      TotalsCons(rows[0], rest);
      if row.t < rows[0].t {
        ByTimeAdds(rest, row);
        TotalsCons(rows[0], ByTime(rest, row));
      }
    }
  }

  function FailedOf(beat: Heartbeat): nat {
    if beat.counts.Some? then beat.counts.value.tally.failed else 0
  }

  function HasFailures(row: Row): bool {
    FailedOf(row.beat) > 0
  }

  function SumFailed(rows: seq<Row>): nat {
    if rows == [] then 0 else FailedOf(rows[0].beat) + SumFailed(rows[1..])
  }

  /** The error events of the graph add up to the total of the card. */
  lemma {:induction false} ErrorRunsAddUp(rows: seq<Row>)
    ensures SumFailed(Filter(rows, HasFailures)) == TotalsOf(rows).failed
  {
    if rows != [] {
      ErrorRunsAddUp(rows[1..]);
      assert rows == [rows[0]] + rows[1..];
      FilterCons(rows[0], rows[1..], HasFailures);
      assert ([rows[0]] + Filter(rows[1..], HasFailures))[1..] == Filter(rows[1..], HasFailures);
    }
  }

  function ProcessedOf(beat: Heartbeat): nat {
    if beat.counts.Some? then beat.counts.value.tally.processed else 0
  }

  function SumProcessed(rows: seq<Row>): nat {
    if rows == [] then 0 else ProcessedOf(rows[0].beat) + SumProcessed(rows[1..])
  }

  /** What the three numbers mean: two sums over the counts, absent ones as nothing, and the number of
      rows whose status is a failed run. */
  lemma {:induction false} TotalsMean(rows: seq<Row>)
    ensures TotalsOf(rows).processed == SumProcessed(rows) && TotalsOf(rows).failed == SumFailed(rows)
    ensures TotalsOf(rows).failedRuns == Count(rows, (row: Row) => row.beat.status == FAILED_RUN)
  {
    var p := (row: Row) => row.beat.status == FAILED_RUN;
    if rows != [] {
      var rest := rows[1..];
      TotalsMean(rest);
      assert rows == [rows[0]] + rest;
      CountAppend([rows[0]], rest, p);
      CountSnoc([], rows[0], p);
      assert [] + [rows[0]] == [rows[0]];
    }
  }

  // ----- The store and the wake -----

  /** How the two writes of one heartbeat go, and the clock reading between them. */
  datatype Beat = Beat(t: nat, upsert: Fate, append: Fate)

  predicate Landed(fate: Fate) {
    fate.Success? || fate.landed
  }

  predicate Appends(b: Beat) {
    b.upsert.Success? && Landed(b.append)
  }

  function RowsAfter(rows: seq<Row>, beat: Heartbeat, b: Beat): seq<Row>
    requires b.t <= TWO_63 && forall r | r in rows :: r.t <= TWO_63
  {
    if Appends(b) then Placed(rows, Row(b.t, beat)) else rows
  }

  /** How `pipeline()` ends, as `_execute_wake` tells the ends apart. */
  datatype RunEnd = Completed(counts: Counts) | BusyError | NoAccessError | OtherError | Killed

  function HeartbeatOf(end: RunEnd): Heartbeat
    requires !end.Killed?
  {
    match end
    case Completed(counts) => Heartbeat(RAN, Some(counts))
    case BusyError => Heartbeat(SKIPPED_BUSY, None)
    case NoAccessError => Heartbeat(SKIPPED_NO_ACCESS, None)
    case OtherError => Heartbeat(FAILED_RUN, None)
  }

  /** What a heartbeat has to say of a wake that was enabled or not and whose pipeline ended so. */
  ghost predicate SaysEnd(enabled: bool, end: RunEnd, beat: Heartbeat) {
    if !enabled then beat.status == SKIPPED_DISABLED && beat.counts == None
    else
      && (end.Completed? ==> beat.status == RAN && beat.counts == Some(end.counts))
      && (!end.Completed? ==> beat.counts == None)
      && (end.BusyError? ==> beat.status == SKIPPED_BUSY)
      && (end.NoAccessError? ==> beat.status == SKIPPED_NO_ACCESS)
      && (end.OtherError? ==> beat.status == FAILED_RUN)
  }

  class StateStore {
    var last: Option<Heartbeat>
    var rows: seq<Row>

    ghost predicate Valid()
      reads this
    {
      NewestFirst(rows)
    }

    /** The dual write: the append is diagnostic and cannot fail the run. */
    method WriteHeartbeat(beat: Heartbeat, b: Beat) returns (r: Result<()>)
      requires Valid() && b.t <= TWO_63
      modifies this
      ensures Valid() && rows == RowsAfter(old(rows), beat, b)
      ensures rows == if b.upsert.Success? && Landed(b.append) then Placed(old(rows), Row(b.t, beat)) else old(rows)
      ensures last == if Landed(b.upsert) then Some(beat) else old(last)
      ensures r == if b.upsert.Death? || (b.upsert.Success? && b.append.Death?) then Died
                   else if b.upsert.Failure? then Threw else Returned(())
    {
      PlacedKeepsOrder(rows, Row(b.t, beat));
      if Landed(b.upsert) { last := Some(beat); }
      if b.upsert.Death? { return Died; }
      if b.upsert.Failure? { return Threw; }
      if Landed(b.append) { rows := Placed(rows, Row(b.t, beat)); }
      return if b.append.Death? then Died else Returned(());
    }

    /** `history_totals`: one scan, three numbers. */
    method HistoryTotals() returns (totals: Totals)
      ensures totals == TotalsOf(rows)
      ensures totals.processed == SumProcessed(rows) && totals.failed == SumFailed(rows)
      ensures totals.failedRuns == Count(rows, (row: Row) => row.beat.status == FAILED_RUN)
    {
      TotalsMean(rows);
      var i := |rows|;
      totals := Totals(0, 0, 0);
      assert rows[i..] == [];
      while i > 0
        invariant 0 <= i <= |rows| && totals == TotalsOf(rows[i..])
      {
        i := i - 1;
        assert rows[i..][1..] == rows[i + 1..];
        totals := totals.Plus(rows[i].beat);
      }
      assert rows[0..] == rows;
    }

    method ListErrorRuns() returns (errors: seq<Row>)
      ensures errors == Filter(rows, HasFailures)
      ensures forall row :: row in errors <==> row in rows && row.beat.counts.Some? && row.beat.counts.value.tally.failed > 0
      ensures SumFailed(errors) == TotalsOf(rows).failed
    {
      errors := [];
      var i := |rows|;
      assert rows[i..] == [];
      while i > 0
        invariant 0 <= i <= |rows| && errors == Filter(rows[i..], HasFailures)
      {
        i := i - 1;
        assert rows[i..][0] == rows[i] && rows[i..][1..] == rows[i + 1..];
        if HasFailures(rows[i]) { errors := [rows[i]] + errors; }
      }
      assert rows[0..] == rows;
      FilterIn(rows, HasFailures);
      ErrorRunsAddUp(rows);
    }
  }

  /** `_execute_wake`, given what `read_enabled` and the pipeline answer: one heartbeat per wake that
      lives to write one, with the status of its end and counts on a completed run only; it returns that
      status exactly when the write went well, and a failed run still raises. */
  method ExecuteWake(store: StateStore, enabled: Result<bool>, end: RunEnd, b: Beat) returns (r: Result<Status>)
    requires store.Valid() && b.t <= TWO_63
    modifies store
    ensures store.Valid()
    ensures !enabled.Returned? || (enabled.value && end.Killed?) ==>
              store.rows == old(store.rows) && store.last == old(store.last)
              && r == if enabled.Threw? then Threw else Died
    ensures enabled.Returned? && !(enabled.value && end.Killed?) ==>
              exists beat ::
                && SaysEnd(enabled.value, end, beat)
                && store.rows == RowsAfter(old(store.rows), beat, b)
                && store.last == (if Landed(b.upsert) then Some(beat) else old(store.last))
                && r == (if b.upsert.Death? || (b.upsert.Success? && b.append.Death?) then Died
                         else if b.upsert.Failure? || beat.status == FAILED_RUN then Threw
                         else Returned(beat.status))
  {
    if enabled.Threw? { return Threw; }
    if enabled.Died? || (enabled.value && end.Killed?) { return Died; }
    var beat := if enabled.value then HeartbeatOf(end) else Heartbeat(SKIPPED_DISABLED, None);
    assert SaysEnd(enabled.value, end, beat);
    var written := store.WriteHeartbeat(beat, b);
    if written.Died? { return Died; }
    if written.Threw? || beat.status == FAILED_RUN { return Threw; }
    return Returned(beat.status);
  }

  // ----- The dashboard against the mailbox -----

  /** A happening of the mailbox, a run with the heartbeat of its wake, or a wake that ran nothing. */
  datatype Wake =
    | Ran(run: Happening, beat: Beat)
    | Skipped(status: Status, beat: Beat)
    | Meanwhile(h: Happening)

  datatype Now = Now(past: Past, rows: seq<Row>)

  function EndOf(r: Result<Counts>): RunEnd {
    match r
    case Returned(counts) => Completed(counts)
    case Threw => OtherError
    case Died => Killed
  }

  function RowsOfRun(rows: seq<Row>, end: RunEnd, b: Beat): seq<Row>
    requires b.t <= TWO_63 && forall r | r in rows :: r.t <= TWO_63
  {
    if end.Killed? then rows else RowsAfter(rows, HeartbeatOf(end), b)
  }

  ghost predicate Admissible(cfg: Config, now: Now, wake: Wake) {
    match wake
    case Ran(run, b) => run.Run? && Possible(cfg, now.past.world, run) && b.t <= TWO_63 && Fresh(now.rows, b.t)
    case Skipped(status, b) => status != RAN && b.t <= TWO_63 && Fresh(now.rows, b.t)
    case Meanwhile(h) => !h.Run? && Possible(cfg, now.past.world, h)
  }

  function Then(cfg: Config, now: Now, wake: Wake): Now
    requires (forall r | r in now.rows :: r.t <= TWO_63) && (!wake.Meanwhile? ==> wake.beat.t <= TWO_63)
    requires wake.Ran? ==> wake.run.Run?
  {
    match wake
    case Ran(run, b) =>
      Now(Happen(cfg, now.past, run), RowsOfRun(now.rows, EndOf(RunOf(cfg, now.past, run).result), b))
    case Skipped(status, b) => now.(rows := RowsAfter(now.rows, Heartbeat(status, None), b))
    case Meanwhile(h) => now.(past := Happen(cfg, now.past, h))
  }

  const AT_FIRST := Now(NOTHING, [])

  ghost predicate Lived(cfg: Config, wakes: seq<Wake>)
    decreases |wakes|, 0
  {
    wakes == [] || (Lived(cfg, wakes[..|wakes| - 1]) && Admissible(cfg, After(cfg, wakes[..|wakes| - 1]), wakes[|wakes| - 1]))
  }

  ghost function After(cfg: Config, wakes: seq<Wake>): (now: Now)
    requires Lived(cfg, wakes)
    ensures NewestFirst(now.rows)
    decreases |wakes|, 1
  {
    if wakes == [] then AT_FIRST
    else
      var before := After(cfg, wakes[..|wakes| - 1]);
      ThenKeepsRows(cfg, before, wakes[|wakes| - 1]);
      Then(cfg, before, wakes[|wakes| - 1])
  }

  lemma ThenKeepsRows(cfg: Config, now: Now, wake: Wake)
    requires NewestFirst(now.rows) && Admissible(cfg, now, wake)
    ensures NewestFirst(Then(cfg, now, wake).rows)
  {
    hide Placed, Happen, RunOf;
    if !wake.Meanwhile? {
      forall beat: Heartbeat ensures NewestFirst(Placed(now.rows, Row(wake.beat.t, beat))) {
        PlacedKeepsOrder(now.rows, Row(wake.beat.t, beat));
      }
    }
  }

  /** What a wake reports, if its history row landed: the counts of a run that returned, a failed run
      for one that raised, nothing for one that was killed. */
  function Report(cfg: Config, past: Past, wake: Wake): Option<Heartbeat>
    requires wake.Ran? ==> wake.run.Run?
  {
    match wake
    case Meanwhile(_) => None
    case Skipped(status, b) => if Appends(b) then Some(Heartbeat(status, None)) else None
    case Ran(run, b) =>
      if !Appends(b) then None
      else
        match RunOf(cfg, past, run).result
        case Returned(counts) => Some(Heartbeat(RAN, Some(counts)))
        case Threw => Some(Heartbeat(FAILED_RUN, None))
        case Died => None
  }

  /** The sums over the wakes of a history, wake by wake. */
  ghost function Reported(cfg: Config, wakes: seq<Wake>): Totals
    requires Lived(cfg, wakes)
  {
    if wakes == [] then Totals(0, 0, 0)
    else
      var n := |wakes| - 1;
      var report := Report(cfg, After(cfg, wakes[..n]).past, wakes[n]);
      if report.Some? then Reported(cfg, wakes[..n]).Plus(report.value) else Reported(cfg, wakes[..n])
  }

  lemma ThenAdds(cfg: Config, now: Now, wake: Wake)
    requires NewestFirst(now.rows) && Admissible(cfg, now, wake)
    ensures TotalsOf(Then(cfg, now, wake).rows)
            == (match Report(cfg, now.past, wake)
                case Some(beat) => TotalsOf(now.rows).Plus(beat)
                case None => TotalsOf(now.rows))
  {
    hide Placed, TotalsOf, Happen, RunOf, Possible;
    if !wake.Meanwhile? {
      forall beat: Heartbeat
        ensures TotalsOf(Placed(now.rows, Row(wake.beat.t, beat))) == TotalsOf(now.rows).Plus(beat)
      {
        PlacedIsByTime(now.rows, Row(wake.beat.t, beat));
        ByTimeAdds(now.rows, Row(wake.beat.t, beat));
      }
    }
  }

  /** The three totals of the history are the sums over exactly the wakes whose row landed. */
  lemma {:induction false} TotalsAreSums(cfg: Config, wakes: seq<Wake>)
    requires Lived(cfg, wakes)
    ensures TotalsOf(After(cfg, wakes).rows) == Reported(cfg, wakes)
  {
    hide TotalsOf, Then, Admissible, Report;
    if wakes == [] {
      assert TotalsOf([]) == Totals(0, 0, 0) by { NothingTotal(); }
    } else {
      var n := |wakes| - 1;
      TotalsAreSums(cfg, wakes[..n]);
      ThenAdds(cfg, After(cfg, wakes[..n]), wakes[n]);
    }
  }

  lemma NothingTotal()
    ensures TotalsOf([]) == Totals(0, 0, 0)
  {
  }

  /** The `i`-th wake failed and its history row landed: a run that raised, or a wake that failed before
      its mailbox run. */
  ghost predicate FailedWake(cfg: Config, wakes: seq<Wake>, i: nat)
    requires i < |wakes|
  {
    && Lived(cfg, wakes[..i]) && !wakes[i].Meanwhile? && Appends(wakes[i].beat)
    && match wakes[i]
       case Skipped(status, _) => status == FAILED_RUN
       case Ran(run, _) => run.Run? && RunOf(cfg, After(cfg, wakes[..i]).past, run).result.Threw?
       case Meanwhile(_) => false
  }

  ghost function FailedWakes(cfg: Config, wakes: seq<Wake>): set<nat> {
    set i: nat | i < |wakes| && FailedWake(cfg, wakes, i)
  }

  lemma FailedWakesSnoc(cfg: Config, wakes: seq<Wake>)
    requires wakes != []
    ensures var n := |wakes| - 1;
            FailedWakes(cfg, wakes)
            == FailedWakes(cfg, wakes[..n]) + if FailedWake(cfg, wakes, n) then {n} else {}
  {
    var n := |wakes| - 1;
    assert forall i: nat | i < n :: wakes[..n][..i] == wakes[..i];
  }

  /** Over any history of wakes the failed runs of the dashboard are exactly the failed wakes whose row
      landed. */
  lemma {:induction false} FailedRunsAreFailedWakes(cfg: Config, wakes: seq<Wake>)
    requires Lived(cfg, wakes)
    ensures TotalsOf(After(cfg, wakes).rows).failedRuns == |FailedWakes(cfg, wakes)|
  {
    hide TotalsOf, RunOf, Admissible, FailedWake, FailedWakes, Appends;
    if wakes == [] {
      assert FailedWakes(cfg, []) == {} by { NoWakes(cfg); }
      NothingTotal();
    } else {
      var n := |wakes| - 1;
      FailedRunsAreFailedWakes(cfg, wakes[..n]);
      FailedWakesSnoc(cfg, wakes);
      ThenCountsFailed(cfg, wakes);
      assert n !in FailedWakes(cfg, wakes[..n]) by { OnlyEarlier(cfg, wakes[..n]); }
    }
  }

  lemma NoWakes(cfg: Config)
    ensures FailedWakes(cfg, []) == {}
  {
  }

  lemma OnlyEarlier(cfg: Config, wakes: seq<Wake>)
    ensures |wakes| !in FailedWakes(cfg, wakes)
  {
  }

  lemma ThenCountsFailed(cfg: Config, wakes: seq<Wake>)
    requires Lived(cfg, wakes) && wakes != []
    ensures var n := |wakes| - 1;
            TotalsOf(After(cfg, wakes).rows).failedRuns
            == TotalsOf(After(cfg, wakes[..n]).rows).failedRuns + if FailedWake(cfg, wakes, n) then 1 else 0
  {
    var n := |wakes| - 1;
    ThenAdds(cfg, After(cfg, wakes[..n]), wakes[n]);
    hide TotalsOf, RunOf, Then, Appends;
  }

  /** The mails with this label. */
  ghost function Holding(w: World, l: Label): set<Mail> {
    set m | m in w.labels && w.labels[m] == {l}
  }

  lemma HoldersAfter(w: World, w': World, mails: seq<Mail>, k: nat, l: Label)
    requires Waiting(w, mails) && PrefixDone(w, w', mails, k) && l != UNREAD
    ensures forall m | m in mails[..k] :: m !in Holding(w, l) && (m in Holding(w', l) <==> Labelled(w', l)(m))
    ensures forall m | m !in mails[..k] :: m in Holding(w', l) <==> m in Holding(w, l)
  {
    assert {l} != {UNREAD} by { assert l in {l}; }
    assert forall m | m in mails[..k] :: m in mails;
  }

  /** A run adds to the holders of a label exactly those it put there. */
  lemma RunHolds(w: World, w': World, mails: seq<Mail>, k: nat, l: Label)
    requires Waiting(w, mails) && PrefixDone(w, w', mails, k) && l != UNREAD
    ensures |Holding(w', l)| == |Holding(w, l)| + Count(mails[..k], Labelled(w', l))
  {
    var done, p := mails[..k], Labelled(w', l);
    assert Distinct(done);
    HoldersAfter(w, w', mails, k, l);
    hide Waiting, PrefixDone, Labelled, Holding;
    PickedSize(done, p);
    PickedIn(done, p);
    hide Picked, Count;
    assert Holding(w', l) == Holding(w, l) + Picked(done, p);
    assert Holding(w, l) !! Picked(done, p);
  }

  /** What the totals say of one label against the mailbox. */
  ghost predicate NeverOver(now: Now) {
    && TotalsOf(now.rows).processed <= |Holding(now.past.world, PROCESADO)|
    && TotalsOf(now.rows).failed <= |Holding(now.past.world, FAILED)|
  }

  ghost predicate Exact(now: Now) {
    && TotalsOf(now.rows).processed == |Holding(now.past.world, PROCESADO)|
    && TotalsOf(now.rows).failed == |Holding(now.past.world, FAILED)|
  }

  /** A run that completed and whose history row landed. */
  ghost predicate Told(cfg: Config, now: Now, wake: Wake) {
    wake.Ran? && wake.run.Run? ==> RunOf(cfg, now.past, wake.run).result.Returned? && Appends(wake.beat)
  }

  lemma OtherHolds(cfg: Config, past: Past, h: Happening, l: Label)
    requires Possible(cfg, past.world, h) && !h.Run? && l != UNREAD
    ensures Holding(Happen(cfg, past, h).world, l) == Holding(past.world, l)
  {
    assert {UNREAD} != {l} by { assert l in {l}; }
  }

  lemma RunTold(cfg: Config, now: Now, run: Happening, b: Beat)
    requires Configured(cfg) && Truthful(cfg, now.past.world) && NewestFirst(now.rows)
    requires Admissible(cfg, now, Ran(run, b))
    ensures NeverOver(now) ==> NeverOver(Then(cfg, now, Ran(run, b)))
    ensures Exact(now) && Told(cfg, now, Ran(run, b)) ==> Exact(Then(cfg, now, Ran(run, b)))
  {
    hide ProcessMailbox, Placed, TotalsOf, Truthful, InOrder;
    var w := now.past.world;
    var s := Sys(w, run.script, run.start, now.past.log);
    var o := RunOf(cfg, now.past, run);
    var fetched, k := RunTrue(cfg, s, run.page, run.start + RUN_DEADLINE_US);
    var mails := InOrder(run.page[..fetched]);
    InOrderWaits(w, run.page[..fetched]);
    RunHolds(w, o.sys.world, mails, k, PROCESADO);
    RunHolds(w, o.sys.world, mails, k, FAILED);
    if !o.result.Died? {
      var row := Row(b.t, HeartbeatOf(EndOf(o.result)));
      PlacedIsByTime(now.rows, row);
      ByTimeAdds(now.rows, row);
    }
  }

  lemma SkipTold(now: Now, status: Status, b: Beat)
    requires NewestFirst(now.rows) && b.t <= TWO_63 && Fresh(now.rows, b.t)
    ensures var rows := RowsAfter(now.rows, Heartbeat(status, None), b);
            TotalsOf(rows).processed == TotalsOf(now.rows).processed && TotalsOf(rows).failed == TotalsOf(now.rows).failed
  {
    var row := Row(b.t, Heartbeat(status, None));
    PlacedIsByTime(now.rows, row);
    ByTimeAdds(now.rows, row);
  }

  lemma WakeTold(cfg: Config, now: Now, wake: Wake)
    requires Configured(cfg) && Truthful(cfg, now.past.world) && NewestFirst(now.rows) && Admissible(cfg, now, wake)
    ensures NeverOver(now) ==> NeverOver(Then(cfg, now, wake))
    ensures Exact(now) && Told(cfg, now, wake) ==> Exact(Then(cfg, now, wake))
    ensures Truthful(cfg, Then(cfg, now, wake).past.world)
  {
    hide Truthful, Placed, TotalsOf, Happen, Configured, RunOf, Possible;
    match wake
    case Ran(run, b) =>
      RunTold(cfg, now, run, b);
      HappenTrue(cfg, now.past, run);
    case Skipped(status, b) => SkipTold(now, status, b);
    case Meanwhile(h) =>
      OtherHolds(cfg, now.past, h, PROCESADO);
      OtherHolds(cfg, now.past, h, FAILED);
      HappenTrue(cfg, now.past, h);
  }

  /** Over any history of wakes, whatever failed or was killed, the dashboard's totals never exceed
      the labels in the mailbox; and they are equal to them when every run completed and every
      history row landed. */
  lemma {:induction false} DashboardNeverOver(cfg: Config, wakes: seq<Wake>)
    requires Configured(cfg) && Lived(cfg, wakes)
    ensures Truthful(cfg, After(cfg, wakes).past.world)
    ensures NeverOver(After(cfg, wakes))
    ensures (forall i | 0 <= i < |wakes| :: Lived(cfg, wakes[..i]) && Told(cfg, After(cfg, wakes[..i]), wakes[i]))
            ==> Exact(After(cfg, wakes))
  {
    hide Truthful, Then, Exact, NeverOver, Admissible, Configured, Told;
    if wakes == [] {
      DashboardAtFirst(cfg);
    } else {
      var n := |wakes| - 1;
      var before := wakes[..n];
      DashboardNeverOver(cfg, before);
      WakeTold(cfg, After(cfg, before), wakes[n]);
      if forall i | 0 <= i < |wakes| :: Lived(cfg, wakes[..i]) && Told(cfg, After(cfg, wakes[..i]), wakes[i]) {
        forall i | 0 <= i < n
          ensures Lived(cfg, before[..i]) && Told(cfg, After(cfg, before[..i]), before[i])
        {
          assert before[..i] == wakes[..i];
        }
      }
    }
  }

  lemma DashboardAtFirst(cfg: Config)
    ensures Truthful(cfg, AT_FIRST.past.world) && NeverOver(AT_FIRST) && Exact(AT_FIRST)
  {
    NothingTrue(cfg);
    assert Holding(AT_FIRST.past.world, PROCESADO) == {};
    assert Holding(AT_FIRST.past.world, FAILED) == {};
  }
}
