/** Windows, bucket keys and `buildBuckets`: what the chart counts, against what the table lists. */
module Buckets {
  import opened Options
  import opened Calendar
  import opened Collections
  import opened Decimal
  import opened IsoWeeks

  datatype Granularity = Hour | Day | Week | Month

  datatype Window = D1 | D7 | D30 | D90 | Y1 | All

  function WindowDays(window: Window): int
    requires window != All
  {
    match window
    case D1 => 1
    case D7 => 7
    case D30 => 30
    case D90 => 90
    case Y1 => 365
  }

  // ----- Keys -----

  function PrintInt(n: int): string {
    if n < 0 then "-" + Print(-n) else Print(n)
  }

  function Pad(n: int): string {
    PadStart(PrintInt(n), 2)
  }

  function MonthKey(t: int): string {
    PrintInt(FullYear(t)) + "-" + Pad(Calendar.Month(t) + 1)
  }

  function DayKey(t: int): string {
    PrintInt(FullYear(t)) + "-" + Pad(Calendar.Month(t) + 1) + "-" + Pad(Date(t))
  }

  function HourKey(t: int): string {
    DayKey(t) + " " + Pad(HourOf(t)) + ":00"
  }

  function IsoWeekKey(t: int): string {
    PrintInt(WeekYear(t)) + "-W" + Pad(WeekNumber(t))
  }

  function BucketKey(t: int, g: Granularity): string {
    match g
    case Hour => HourKey(t)
    case Week => IsoWeekKey(t)
    case Month => MonthKey(t)
    case Day => DayKey(t)
  }

  function BucketStart(t: int, g: Granularity): int {
    match g
    case Hour => StartOfHour(t)
    case Week => StartOfIsoWeek(t)
    case Month => StartOfMonth(t)
    case Day => StartOfDay(t)
  }

  function Advance(cursor: int, g: Granularity): int {
    match g
    case Hour => AddHours(cursor, 1)
    case Week => AddDays(cursor, 7)
    case Month => MakeTime(FullYear(cursor), Calendar.Month(cursor) + 1, 1, 0)
    case Day => AddDays(cursor, 1)
  }

  lemma PrintIntSign(n: int)
    ensures PrintInt(n) != "" && (PrintInt(n)[0] == '-' <==> n < 0)
  {
    hide Print;
    PrintIsDigits(if n < 0 then -n else n);
  }

  lemma PrintIntInjective(a: int, b: int)
    requires PrintInt(a) == PrintInt(b)
    ensures a == b
  {
    hide Print;
    PrintIntSign(a);
    PrintIntSign(b);
    if a < 0 {
      assert PrintInt(a)[1..] == Print(-a) && PrintInt(b)[1..] == Print(-b);
      PrintInjective(-a, -b);
    } else {
      PrintInjective(a, b);
    }
  }

  lemma PadIs(n: int)
    requires 0 <= n < 100
    ensures |Pad(n)| == 2
    ensures Pad(n) == [DigitChar(n / 10), DigitChar(n % 10)]
  {
    assert Pow10(2) == 100;
    PaddedIsFixed(n, 2);
    assert Fixed(n, 2) == Fixed(n / 10, 1) + [DigitChar(n % 10)];
    assert Fixed(n / 10, 1) == Fixed(n / 100, 0) + [DigitChar(n / 10)];
  }

  lemma PadInjective(a: int, b: int)
    requires 0 <= a < 100 && 0 <= b < 100 && Pad(a) == Pad(b)
    ensures a == b
  {
    PadIs(a);
    PadIs(b);
  }

  lemma SameSuffix(a: string, b: string, c: string, d: string)
    requires a + b == c + d && |b| == |d|
    ensures a == c && b == d
  {
    assert a == (a + b)[..|a|] && c == (c + d)[..|c|];
    assert b == (a + b)[|a|..] && d == (c + d)[|c|..];
  }

  // ----- A key names a bucket -----

  /** What a bucket is counted by: hours, days, Mondays or months. */
  function Index(t: int, g: Granularity): int {
    match g
    case Hour => t / HOUR_MS
    case Day => DayOf(t)
    case Week => Monday(DayOf(t))
    case Month => MonthOf(DayOf(t))
  }

  function Unit(index: int, g: Granularity): int {
    match g
    case Hour => index * HOUR_MS
    case Day => index * DAY_MS
    case Week => index * DAY_MS
    case Month => MonthStart(index) * DAY_MS
  }

  lemma StartIsUnit(t: int, g: Granularity)
    ensures BucketStart(t, g) == Unit(Index(t, g), g)
  {
    hide StartOfHour, StartOfDay, StartOfIsoWeek, StartOfMonth, MonthStart, MonthOf, Monday;
    StartsInDays(t);
    MonthStartInDays(t);
  }

  lemma UnitsIncrease(i: int, j: int, g: Granularity)
    requires i < j
    ensures Unit(i, g) < Unit(j, g)
  {
    hide MonthStart;
    MonthsApart(i, j);
  }

  lemma SameStart(a: int, b: int, g: Granularity)
    ensures BucketStart(a, g) == BucketStart(b, g) <==> Index(a, g) == Index(b, g)
  {
    hide BucketStart, Index, Unit;
    StartIsUnit(a, g);
    StartIsUnit(b, g);
    if Index(a, g) < Index(b, g) { UnitsIncrease(Index(a, g), Index(b, g), g); }
    if Index(b, g) < Index(a, g) { UnitsIncrease(Index(b, g), Index(a, g), g); }
  }

  lemma MonthFields(t: int)
    ensures 0 <= Calendar.Month(t) <= 11 && 1 <= Date(t) <= 31
    ensures MonthOf(DayOf(t)) == 12 * FullYear(t) + Calendar.Month(t)
    ensures DayOf(t) == MonthStart(12 * FullYear(t) + Calendar.Month(t)) + Date(t) - 1
  {
    hide MonthStart, MonthOf;
    MonthOfIs(DayOf(t));
    MonthLength(MonthOf(DayOf(t)));
  }

  lemma SameMonthKey(a: int, b: int)
    ensures MonthKey(a) == MonthKey(b) <==> MonthOf(DayOf(a)) == MonthOf(DayOf(b))
  {
    hide MonthStart, MonthOf, FullYear, Calendar.Month, PrintInt, Pad, Date;
    MonthFields(a);
    MonthFields(b);
    var ma, mb := Calendar.Month(a) + 1, Calendar.Month(b) + 1;
    PadIs(ma);
    PadIs(mb);
    if MonthKey(a) == MonthKey(b) {
      SameSuffix(PrintInt(FullYear(a)) + "-", Pad(ma), PrintInt(FullYear(b)) + "-", Pad(mb));
      SameSuffix(PrintInt(FullYear(a)), "-", PrintInt(FullYear(b)), "-");
      PrintIntInjective(FullYear(a), FullYear(b));
      PadInjective(ma, mb);
    }
  }

  lemma SameDayKey(a: int, b: int)
    ensures DayKey(a) == DayKey(b) <==> DayOf(a) == DayOf(b)
  {
    hide MonthStart, MonthOf, FullYear, Calendar.Month, PrintInt, Pad, Date;
    MonthFields(a);
    MonthFields(b);
    PadIs(Date(a));
    PadIs(Date(b));
    if DayKey(a) == DayKey(b) {
      SameSuffix(MonthKey(a) + "-", Pad(Date(a)), MonthKey(b) + "-", Pad(Date(b)));
      SameSuffix(MonthKey(a), "-", MonthKey(b), "-");
      SameMonthKey(a, b);
      PadInjective(Date(a), Date(b));
    }
    if DayOf(a) == DayOf(b) { }
  }

  lemma SameHourKey(a: int, b: int)
    ensures HourKey(a) == HourKey(b) <==> a / HOUR_MS == b / HOUR_MS
  {
    hide DayKey, Pad, HourOf;
    HoursOfDay(a);
    HoursOfDay(b);
    PadIs(HourOf(a));
    PadIs(HourOf(b));
    SameDayKey(a, b);
    if HourKey(a) == HourKey(b) {
      SameSuffix(DayKey(a) + " " + Pad(HourOf(a)), ":00", DayKey(b) + " " + Pad(HourOf(b)), ":00");
      SameSuffix(DayKey(a) + " ", Pad(HourOf(a)), DayKey(b) + " ", Pad(HourOf(b)));
      SameSuffix(DayKey(a), " ", DayKey(b), " ");
      PadInjective(HourOf(a), HourOf(b));
    }
  }

  lemma SameWeekKey(a: int, b: int)
    ensures IsoWeekKey(a) == IsoWeekKey(b) <==> Monday(DayOf(a)) == Monday(DayOf(b))
  {
    hide PrintInt, Pad, WeekYear, WeekNumber, IsoYear, IsoWeek, Monday, DayOf;
    WeekInDays(a);
    WeekInDays(b);
    WeekInRange(DayOf(a));
    WeekInRange(DayOf(b));
    PadIs(WeekNumber(a));
    PadIs(WeekNumber(b));
    SameWeek(DayOf(a), DayOf(b));
    if IsoWeekKey(a) == IsoWeekKey(b) {
      SameSuffix(PrintInt(WeekYear(a)) + "-W", Pad(WeekNumber(a)), PrintInt(WeekYear(b)) + "-W", Pad(WeekNumber(b)));
      SameSuffix(PrintInt(WeekYear(a)), "-W", PrintInt(WeekYear(b)), "-W");
      PrintIntInjective(WeekYear(a), WeekYear(b));
      PadInjective(WeekNumber(a), WeekNumber(b));
    }
  }

  /** Two instants share a key exactly when they share a bucket. */
  lemma KeyNamesBucket(a: int, b: int, g: Granularity)
    ensures BucketKey(a, g) == BucketKey(b, g) <==> BucketStart(a, g) == BucketStart(b, g)
  {
    hide BucketStart, HourKey, DayKey, IsoWeekKey, MonthKey, MonthOf, Monday;
    SameStart(a, b, g);
    match g
    case Hour => SameHourKey(a, b);
    case Day => SameDayKey(a, b);
    case Week => SameWeekKey(a, b);
    case Month => SameMonthKey(a, b);
  }

  function TwoDigits(n: int): string
    requires 0 <= n < 100
  {
    [DigitChar(n / 10), DigitChar(n % 10)]
  }

  /** `key` is that of the bucket that starts in this year, month, day and hour. */
  ghost predicate Spells(key: string, g: Granularity, start: int, y: int, m: int, d: int, h: int) {
    && 1 <= m <= 12 && 1 <= d <= 31 && 0 <= h < 24 && MakeTime(y, m - 1, d, h) == start
    && match g
       case Hour => key == PrintInt(y) + "-" + TwoDigits(m) + "-" + TwoDigits(d) + " " + TwoDigits(h) + ":00"
       case Day => key == PrintInt(y) + "-" + TwoDigits(m) + "-" + TwoDigits(d) && h == 0
       case Month => key == PrintInt(y) + "-" + TwoDigits(m) && d == 1 && h == 0
       case Week => false
  }

  /** A key spells the moment its bucket starts, or the week date of its days. */
  lemma KeySpells(t: int, g: Granularity)
    ensures g != Week ==> exists y, m, d, h :: Spells(BucketKey(t, g), g, BucketStart(t, g), y, m, d, h)
    ensures 1 <= IsoWeek(DayOf(t)) <= 53
    ensures g == Week ==> BucketKey(t, g) == PrintInt(IsoYear(DayOf(t))) + "-W" + TwoDigits(IsoWeek(DayOf(t)))
  {
    MonthFields(t);
    HoursOfDay(t);
    WeekInDays(t);
    WeekInRange(DayOf(t));
    hide FullYear, Calendar.Month, Date, HourOf, MonthOf, MonthStart, MakeTime, PrintInt, Pad, WeekYear, WeekNumber, IsoYear, IsoWeek, DayOf;
    var y, m, d, h := FullYear(t), Calendar.Month(t) + 1, Date(t), HourOf(t);
    PadIs(m);
    PadIs(d);
    PadIs(h);
    PadIs(WeekNumber(t));
    match g
    case Hour => assert Spells(BucketKey(t, g), g, BucketStart(t, g), y, m, d, h);
    case Day => assert Spells(BucketKey(t, g), g, BucketStart(t, g), y, m, d, 0);
    case Month => assert Spells(BucketKey(t, g), g, BucketStart(t, g), y, m, 1, 0);
    case Week =>
  }

  // ----- Buckets tile the time line -----

  /** The index of the next bucket. */
  function Succ(index: int, g: Granularity): int {
    if g == Week then index + 7 else index + 1
  }

  /** Every instant lies in its own bucket, which ends where the next begins. */
  lemma InOwnBucket(t: int, g: Granularity)
    ensures Unit(Index(t, g), g) <= t < Unit(Succ(Index(t, g), g), g)
  {
    hide MonthStart, MonthOf;
    MonthOfIs(DayOf(t));
    MondayIs(DayOf(t));
  }

  lemma AdvanceIsSucc(t: int, g: Granularity)
    requires g == Week ==> (DayOf(t) + 3) % 7 == 0
    ensures Advance(t, g) == Unit(Succ(Index(t, g), g), g)
  {
    hide AddHours, AddDays, MonthStart, MonthOf;
    AddInDays(t, 1);
    AddInDays(t, 7);
    MonthFields(t);
  }

  lemma IndexOfUnit(t: int, g: Granularity)
    ensures var s := Unit(Index(t, g), g);
            Index(s, g) == Index(t, g) && BucketStart(s, g) == s && (g == Week ==> (DayOf(s) + 3) % 7 == 0)
  {
    hide BucketStart, MonthOf, MonthStart, Monday;
    var i := Index(t, g);
    var s := Unit(i, g);
    assert Index(s, g) == i && (g == Week ==> (DayOf(s) + 3) % 7 == 0) by {
      match g
      case Hour =>
      case Day =>
      case Week => MondayOfUnit(t);
      case Month => MonthOfUnit(i);
    }
    hide Unit, Index;
    StartIsUnit(s, g);
  }

  lemma MondayOfUnit(t: int)
    ensures var s := Monday(DayOf(t)) * DAY_MS;
            DayOf(s) == Monday(DayOf(t)) && Monday(DayOf(s)) == Monday(DayOf(t)) && (DayOf(s) + 3) % 7 == 0
  {
    MondayIs(DayOf(t));
    MondayIs(Monday(DayOf(t)));
    hide Monday;
  }

  lemma MonthOfUnit(i: int)
    ensures MonthOf(DayOf(MonthStart(i) * DAY_MS)) == i
  {
    MonthLength(i);
    hide MonthOf, MonthStart;
    assert DayOf(MonthStart(i) * DAY_MS) == MonthStart(i);
    MonthIs(MonthStart(i), i);
  }

  /** An instant at which a bucket starts. */
  ghost predicate Aligned(t: int, g: Granularity) {
    match g
    case Hour => t % HOUR_MS == 0
    case Day => t % DAY_MS == 0
    case Week => t % DAY_MS == 0 && (DayOf(t) + 3) % 7 == 0
    case Month => exists m :: MonthStart(m) * DAY_MS == t
  }

  lemma AlignedIs(t: int, g: Granularity)
    ensures Aligned(t, g) <==> BucketStart(t, g) == t
  {
    hide BucketStart, MonthOf, MonthStart, Monday;
    StartIsUnit(t, g);
    match g
    case Hour =>
    case Day =>
    case Week =>
      MondayIs(DayOf(t));
    case Month =>
      if m :| MonthStart(m) * DAY_MS == t { MonthOfUnit(m); }
      assert MonthStart(MonthOf(DayOf(t))) * DAY_MS == BucketStart(t, g);
  }

  lemma StartsAreAligned(t: int, g: Granularity)
    ensures Aligned(BucketStart(t, g), g)
  {
    hide BucketStart, Index, Unit, Aligned;
    StartIsUnit(t, g);
    IndexOfUnit(t, g);
    AlignedIs(BucketStart(t, g), g);
  }

  /** From an aligned cursor, `advance` steps to the next aligned instant, and the instants in between
      are exactly those of the cursor's bucket. */
  lemma AdvanceTiles(c: int, g: Granularity)
    requires Aligned(c, g)
    ensures c < Advance(c, g) && Aligned(Advance(c, g), g)
    ensures forall t :: c <= t < Advance(c, g) <==> BucketStart(t, g) == c
  {
    hide BucketStart, Index, Unit, Advance, Aligned;
    AlignedIs(c, g);
    StartIsUnit(c, g);
    IndexOfUnit(c, g);
    InOwnBucket(c, g);
    AdvanceIsSucc(c, g);
    NextIsAligned(c, g);
    forall t
      ensures c <= t < Advance(c, g) <==> BucketStart(t, g) == c
    {
      Between(c, t, g);
    }
  }

  lemma Between(c: int, t: int, g: Granularity)
    requires Aligned(c, g)
    ensures c <= t < Advance(c, g) <==> BucketStart(t, g) == c
  {
    hide BucketStart, Unit, Advance, Aligned;
    AlignedIs(c, g);
    StartIsUnit(c, g);
    IndexOfUnit(c, g);
    AdvanceIsSucc(c, g);
    StartIsUnit(t, g);
    InOwnBucket(t, g);
    InOwnBucket(c, g);
    SameStart(c, t, g);
    Spaced(Index(c, g), Index(t, g), c, t, g);
  }

  /** Distinct bucket indices are a whole bucket apart. */
  lemma Spaced(i: int, j: int, a: int, b: int, g: Granularity)
    requires i == Index(a, g) && j == Index(b, g)
    ensures i < j ==> Unit(Succ(i, g), g) <= Unit(j, g)
    ensures j < i ==> Unit(Succ(j, g), g) <= Unit(i, g)
  {
    hide Unit, MonthOf, Monday;
    MondayIs(DayOf(a));
    MondayIs(DayOf(b));
    if i < j && Succ(i, g) < j { UnitsIncrease(Succ(i, g), j, g); }
    if j < i && Succ(j, g) < i { UnitsIncrease(Succ(j, g), i, g); }
  }

  lemma NextIsAligned(c: int, g: Granularity)
    requires Index(c, g) == Index(Unit(Index(c, g), g), g)
    ensures Aligned(Unit(Succ(Index(c, g), g), g), g)
  {
    hide BucketStart, MonthOf, MonthStart, Monday;
    var j := Succ(Index(c, g), g);
    var s := Unit(j, g);
    match g {
      case Hour =>
      case Day =>
      case Week =>
        MondayIs(DayOf(c));
        MondayIs(j);
        assert DayOf(s) == j;
      case Month =>
        assert DayOf(s) == MonthStart(j);
        MonthLength(j);
        MonthIs(MonthStart(j), j);
    }
    StartIsUnit(s, g);
    hide Unit, Index;
    AlignedIs(s, g);
  }

  // ----- Windows -----

  function WindowStart(window: Window, g: Granularity, now: int, earliest: Option<int>): int {
    if window == All then BucketStart(if earliest.Some? then earliest.value else now, g)
    else if g == Hour then AddHours(StartOfHour(now), -(WindowDays(window) * 24 - 1))
    else BucketStart(AddDays(StartOfDay(now), -(WindowDays(window) - 1)), g)
  }

  lemma WindowIsAligned(window: Window, g: Granularity, now: int, earliest: Option<int>)
    ensures Aligned(WindowStart(window, g, now, earliest), g)
  {
    hide BucketStart, StartOfHour, StartOfDay, AddHours, AddDays, Aligned;
    if window == All {
      StartsAreAligned(if earliest.Some? then earliest.value else now, g);
    } else if g == Hour {
      var n := -(WindowDays(window) * 24 - 1);
      AddInDays(StartOfHour(now), n);
      HourMultiple(StartOfHour(now) / HOUR_MS + n);
    } else {
      StartsAreAligned(AddDays(StartOfDay(now), -(WindowDays(window) - 1)), g);
    }
  }

  lemma HourMultiple(k: int)
    ensures Aligned(k * HOUR_MS, Hour)
  {
  }

  datatype Item = Item(at: int, weight: int)

  datatype Bucket = Bucket(key: string, count: int)

  /** `claimsInWindow`. */
  function ItemsInWindow(items: seq<Item>, window: Window, g: Granularity, now: int): seq<Item> {
    if window == All then items else Since(items, WindowStart(window, g, now, None))
  }

  function Since(items: seq<Item>, start: int): seq<Item> {
    if items == [] then []
    else
      var rest := Since(items[..|items| - 1], start);
      if items[|items| - 1].at >= start then rest + [items[|items| - 1]] else rest
  }

  /** The table of a bounded window lists the items from its start on, in their order, and no others; that
      of "all" lists everything. */
  lemma TableShows(items: seq<Item>, window: Window, g: Granularity, now: int)
    ensures window == All ==> ItemsInWindow(items, window, g, now) == items
    ensures window != All ==>
              var start := WindowStart(window, g, now, None);
              ItemsInWindow(items, window, g, now) == Filter(items, (item: Item) => item.at >= start)
  {
    hide WindowStart;
    if window != All { SinceFilters(items, WindowStart(window, g, now, None)); }
  }

  lemma {:induction false} SinceFilters(items: seq<Item>, start: int)
    ensures Since(items, start) == Filter(items, (item: Item) => item.at >= start)
  {
    var p := (item: Item) => item.at >= start;
    if items != [] {
      var front, last := items[..|items| - 1], items[|items| - 1];
      SinceFilters(front, start);
      FilterAppend(front, [last], p);
      assert items == front + [last] && [last][1..] == [];
    }
  }

  function EarliestAt(items: seq<Item>): Option<int> {
    if items == [] then None
    else
      var rest := EarliestAt(items[1..]);
      if rest.Some? && rest.value < items[0].at then rest else Some(items[0].at)
  }

  lemma {:induction false} EarliestIsLeast(items: seq<Item>)
    ensures EarliestAt(items).None? <==> items == []
    ensures EarliestAt(items).Some? ==>
              && (forall item | item in items :: EarliestAt(items).value <= item.at)
              && exists item | item in items :: item.at == EarliestAt(items).value
  {
    if items != [] {
      EarliestIsLeast(items[1..]);
      assert items == [items[0]] + items[1..];
    }
  }

  // ----- The series, declaratively -----

  /** The bucket starts of the chart. */
  function Cursors(start: int, now: int, g: Granularity): seq<int>
    requires Aligned(start, g)
    decreases now - start
  {
    if start > now then []
    else
      AdvanceTiles(start, g);
      [start] + Cursors(Advance(start, g), now, g)
  }

  /** The end of the last bucket. */
  function End(start: int, now: int, g: Granularity): int
    requires Aligned(start, g)
    decreases now - start
  {
    if start > now then start
    else
      AdvanceTiles(start, g);
      End(Advance(start, g), now, g)
  }

  /** The weight of the items from `lo` to before `hi`. */
  function Weigh(items: seq<Item>, lo: int, hi: int): int {
    if items == [] then 0
    else
      var last := items[|items| - 1];
      Weigh(items[..|items| - 1], lo, hi) + if lo <= last.at < hi then last.weight else 0
  }

  /** One bucket per cursor, with the weight of the items in it. */
  function Series(items: seq<Item>, start: int, now: int, g: Granularity): seq<Bucket>
    requires Aligned(start, g)
    decreases now - start
  {
    if start > now then []
    else
      AdvanceTiles(start, g);
      [Bucket(BucketKey(start, g), Weigh(items, start, Advance(start, g)))] + Series(items, Advance(start, g), now, g)
  }

  lemma {:induction false} SeriesAt(items: seq<Item>, start: int, now: int, g: Granularity)
    requires Aligned(start, g)
    ensures var cs := Cursors(start, now, g);
            && |Series(items, start, now, g)| == |cs|
            && forall i | 0 <= i < |cs| ::
                 Series(items, start, now, g)[i] == Bucket(BucketKey(cs[i], g), Weigh(items, cs[i], Advance(cs[i], g)))
    decreases now - start
  {
    hide Aligned, Advance, BucketStart, BucketKey, Weigh;
    if start <= now {
      AdvanceTiles(start, g);
      SeriesAt(items, Advance(start, g), now, g);
    }
  }

  /** The cursors are the bucket starts from `start` to `now`, in order; the last bucket holds `now`. */
  lemma {:induction false} CursorsTile(start: int, now: int, g: Granularity)
    requires Aligned(start, g)
    ensures var cs := Cursors(start, now, g);
            && (forall i | 0 <= i < |cs| :: Aligned(cs[i], g) && start <= cs[i] <= now)
            && (forall i, j | 0 <= i < j < |cs| :: cs[i] < cs[j])
            && (forall t | start <= t < End(start, now, g) :: BucketStart(t, g) in cs)
            && now < End(start, now, g) && start <= End(start, now, g)
            && (start <= now ==> cs != [] && cs[|cs| - 1] == BucketStart(now, g))
    decreases now - start
  {
    hide Aligned, Advance, BucketStart, Cursors, End;
    CursorsNext(start, now, g);
    EndNext(start, now, g);
    if start <= now {
      AdvanceTiles(start, g);
      var next := Advance(start, g);
      CursorsTile(next, now, g);
      forall t | start <= t < End(start, now, g)
        ensures BucketStart(t, g) in Cursors(start, now, g)
      {
        if t < next { assert BucketStart(t, g) == start; }
      }
    }
  }

  lemma HourStep(a: int)
    ensures Aligned(a * HOUR_MS, Hour) && Advance(a * HOUR_MS, Hour) == (a + 1) * HOUR_MS
  {
    AddInDays(a * HOUR_MS, 1);
    assert a * HOUR_MS / HOUR_MS == a;
    hide AddHours;
  }

  lemma DayStep(a: int)
    ensures Aligned(a * DAY_MS, Day) && Advance(a * DAY_MS, Day) == (a + 1) * DAY_MS
  {
    AddInDays(a * DAY_MS, 1);
    assert a * DAY_MS / DAY_MS == a;
    hide AddDays;
  }

  lemma {:induction false} HourCursors(a: int, now: int)
    ensures Aligned(a * HOUR_MS, Hour)
    ensures |Cursors(a * HOUR_MS, now, Hour)| == if now / HOUR_MS < a then 0 else now / HOUR_MS - a + 1
    decreases now - a * HOUR_MS
  {
    hide Cursors, Aligned, Advance;
    HourStep(a);
    CursorsNext(a * HOUR_MS, now, Hour);
    if a * HOUR_MS <= now { HourCursors(a + 1, now); }
  }

  lemma {:induction false} DayCursors(a: int, now: int)
    ensures Aligned(a * DAY_MS, Day)
    ensures |Cursors(a * DAY_MS, now, Day)| == if now / DAY_MS < a then 0 else now / DAY_MS - a + 1
    decreases now - a * DAY_MS
  {
    hide Cursors, Aligned, Advance;
    DayStep(a);
    CursorsNext(a * DAY_MS, now, Day);
    if a * DAY_MS <= now { DayCursors(a + 1, now); }
  }

  function DaysOf(window: Window): int {
    match window
    case D1 => 1
    case D7 => 7
    case D30 => 30
    case D90 => 90
    case Y1 => 365
    case All => 0
  }

  /** A bounded window holds its number of days: as many buckets by day, 24 times as many by hour, and by
      week or month the buckets from the one with its first day; "all" starts with the bucket of the
      earliest item, or of now. */
  lemma WindowHolds(window: Window, g: Granularity, now: int, earliest: Option<int>)
    ensures var start, days := WindowStart(window, g, now, earliest), DaysOf(window);
            && Aligned(start, g)
            && (window == All ==> start == BucketStart(earliest.UnwrapOr(now), g))
            && (window != All ==>
                  && (g == Day ==> |Cursors(start, now, g)| == days)
                  && (g == Hour ==> |Cursors(start, now, g)| == 24 * days)
                  && (g == Week || g == Month ==> start == BucketStart((DayOf(now) - days + 1) * DAY_MS, g)))
  {
    WindowIsAligned(window, g, now, earliest);
    if window != All {
      hide Cursors, Aligned, WindowStart, WindowDays, DaysOf, DayOf, BucketStart;
      match g
      case Hour => HourWindow(window, now, earliest);
      case Day => DayWindow(window, now, earliest);
      case Week => DayStart(window, g, now, earliest);
      case Month => DayStart(window, g, now, earliest);
    } else {
      hide Cursors, Aligned, BucketStart;
    }
  }

  function FirstHour(window: Window, now: int): int {
    now / HOUR_MS - 24 * DaysOf(window) + 1
  }

  function FirstDay(window: Window, now: int): int {
    DayOf(now) - DaysOf(window) + 1
  }

  lemma HourWindow(window: Window, now: int, earliest: Option<int>)
    requires window != All
    ensures var start := WindowStart(window, Hour, now, earliest);
            Aligned(start, Hour) && |Cursors(start, now, Hour)| == 24 * DaysOf(window)
  {
    FirstIs(window, now);
    hide Cursors, Aligned, WindowStart, DaysOf, FirstHour;
    HourStart(window, now, earliest);
    HourCursors(FirstHour(window, now), now);
  }

  lemma DayWindow(window: Window, now: int, earliest: Option<int>)
    requires window != All
    ensures var start := WindowStart(window, Day, now, earliest);
            Aligned(start, Day) && |Cursors(start, now, Day)| == DaysOf(window)
  {
    FirstIs(window, now);
    hide Cursors, Aligned, WindowStart, DaysOf, FirstDay;
    DayStart(window, Day, now, earliest);
    DayCursors(FirstDay(window, now), now);
  }

  lemma FirstIs(window: Window, now: int)
    requires window != All
    ensures DaysOf(window) >= 1
    ensures now / DAY_MS - FirstDay(window, now) + 1 == DaysOf(window)
    ensures now / HOUR_MS - FirstHour(window, now) + 1 == 24 * DaysOf(window)
  {
    hide DAY_MS, HOUR_MS;
  }

  lemma DaysAgree(window: Window)
    requires window != All
    ensures WindowDays(window) == DaysOf(window) >= 1
  {
  }

  lemma HourStart(window: Window, now: int, earliest: Option<int>)
    requires window != All
    ensures WindowStart(window, Hour, now, earliest) == FirstHour(window, now) * HOUR_MS
  {
    hide AddDays, AddHours, StartOfHour, StartOfDay, StartOfIsoWeek, Monday, DayOf, WindowDays, DaysOf;
    DaysAgree(window);
    StartsInDays(now);
    HourOfUnit(now / HOUR_MS);
    AddInDays(now / HOUR_MS * HOUR_MS, -(WindowDays(window) * 24 - 1));
  }

  lemma HourOfUnit(hour: int)
    ensures hour * HOUR_MS / HOUR_MS == hour
  {
  }

  lemma DayOfUnit(day: int)
    ensures DayOf(day * DAY_MS) == day && StartOfDay(day * DAY_MS) == day * DAY_MS
  {
    StartsInDays(day * DAY_MS);
    hide StartOfDay, StartOfHour, StartOfIsoWeek, Monday;
  }

  lemma DayStart(window: Window, g: Granularity, now: int, earliest: Option<int>)
    requires window != All && g != Hour
    ensures WindowStart(window, g, now, earliest) == BucketStart((DayOf(now) - DaysOf(window) + 1) * DAY_MS, g)
    ensures g == Day ==> WindowStart(window, g, now, earliest) == FirstDay(window, now) * DAY_MS
  {
    hide WindowDays, DaysOf, AddDays, AddHours, StartOfHour, StartOfDay, StartOfIsoWeek, StartOfMonth, Monday, DayOf;
    DaysAgree(window);
    var days, today := DaysOf(window), DayOf(now);
    StartsInDays(now);
    DayOfUnit(today);
    AddInDays(today * DAY_MS, 1 - days);
    assert WindowStart(window, g, now, earliest) == BucketStart(AddDays(today * DAY_MS, 1 - days), g);
    assert AddDays(today * DAY_MS, 1 - days) == (today + (1 - days)) * DAY_MS;
    DayOfUnit(today - days + 1);
  }

  lemma EndNext(start: int, now: int, g: Granularity)
    requires Aligned(start, g)
    ensures start > now ==> End(start, now, g) == start
    ensures start <= now ==> Aligned(Advance(start, g), g) && End(start, now, g) == End(Advance(start, g), now, g)
  {
    hide Aligned, Advance, BucketStart;
    AdvanceTiles(start, g);
  }

  lemma {:induction false} WeighSplit(items: seq<Item>, lo: int, mid: int, hi: int)
    requires lo <= mid <= hi
    ensures Weigh(items, lo, hi) == Weigh(items, lo, mid) + Weigh(items, mid, hi)
  {
    if items != [] {
      WeighSplit(items[..|items| - 1], lo, mid, hi);
    }
  }

  lemma {:induction false} WeighNothing(items: seq<Item>, lo: int)
    ensures Weigh(items, lo, lo) == 0
  {
    if items != [] { WeighNothing(items[..|items| - 1], lo); }
  }

  function Total(buckets: seq<Bucket>): int {
    if buckets == [] then 0 else buckets[0].count + Total(buckets[1..])
  }

  /** Nothing is lost between the buckets and nothing counted twice. */
  lemma {:induction false} SeriesConserves(items: seq<Item>, start: int, now: int, g: Granularity)
    requires Aligned(start, g)
    ensures Total(Series(items, start, now, g)) == Weigh(items, start, End(start, now, g))
    decreases now - start
  {
    hide Aligned, Advance, BucketStart, BucketKey;
    if start > now {
      WeighNothing(items, start);
    } else {
      AdvanceTiles(start, g);
      var next := Advance(start, g);
      SeriesConserves(items, next, now, g);
      CursorsTile(next, now, g);
      WeighSplit(items, start, next, End(next, now, g));
      var head := Bucket(BucketKey(start, g), Weigh(items, start, next));
      assert Series(items, start, now, g)[1..] == Series(items, next, now, g);
    }
  }

  lemma {:induction false} UnitWeights(items: seq<Item>, start: int, end: int)
    requires forall item | item in items :: item.weight == 1 && item.at < end
    ensures Weigh(items, start, end) == |Since(items, start)|
  {
    if items != [] {
      assert items[|items| - 1] in items;
      UnitWeights(items[..|items| - 1], start, end);
    }
  }

  lemma {:induction false} SinceAll(items: seq<Item>, start: int)
    requires forall item | item in items :: start <= item.at
    ensures Since(items, start) == items
  {
    if items != [] {
      assert items[|items| - 1] in items;
      SinceAll(items[..|items| - 1], start);
    }
  }

  /** The chart's total is the length of the table: with unit weights and nothing dated after `now`,
      and for "all" an earliest that precedes every item. */
  lemma ChartMatchesTable(items: seq<Item>, window: Window, g: Granularity, now: int, earliest: Option<int>)
    requires forall item | item in items :: item.weight == 1 && item.at <= now
    requires window == All && items != [] ==> earliest.Some? && forall item | item in items :: earliest.value <= item.at
    ensures Aligned(WindowStart(window, g, now, earliest), g)
    ensures Total(Series(items, WindowStart(window, g, now, earliest), now, g))
            == |ItemsInWindow(items, window, g, now)|
  {
    hide Aligned, BucketStart;
    var start := WindowStart(window, g, now, earliest);
    WindowIsAligned(window, g, now, earliest);
    SeriesConserves(items, start, now, g);
    CursorsTile(start, now, g);
    UnitWeights(items, start, End(start, now, g));
    if window == All && items != [] {
      StartBefore(earliest.value, g);
      SinceAll(items, start);
    }
  }

  lemma StartBefore(t: int, g: Granularity)
    ensures BucketStart(t, g) <= t
  {
    hide Aligned, BucketStart, Index, Unit;
    StartIsUnit(t, g);
    InOwnBucket(t, g);
  }

  /** The labels of the axis: distinct, and the same for every series with the same start. */
  lemma KeysAreDistinct(items: seq<Item>, others: seq<Item>, start: int, now: int, g: Granularity)
    requires Aligned(start, g)
    ensures var a, b := Series(items, start, now, g), Series(others, start, now, g);
            && |a| == |b| && (forall i | 0 <= i < |a| :: a[i].key == b[i].key)
            && forall i, j | 0 <= i < j < |a| :: a[i].key != a[j].key
  {
    hide Aligned, BucketStart, BucketKey, Advance, Weigh, Series, Cursors, End;
    SeriesAt(items, start, now, g);
    SeriesAt(others, start, now, g);
    CursorsTile(start, now, g);
    var cs := Cursors(start, now, g);
    forall i, j | 0 <= i < j < |cs|
      ensures BucketKey(cs[i], g) != BucketKey(cs[j], g)
    {
      AlignedIs(cs[i], g);
      AlignedIs(cs[j], g);
      KeyNamesBucket(cs[i], cs[j], g);
    }
  }

  // ----- buildBuckets -----

  /** The zero-filled keys, in insertion order, with their counts. */
  ghost predicate ZeroFilled(keys: seq<string>, counts: map<string, int>, cs: seq<int>, g: Granularity) {
    && |keys| == |cs| && counts.Keys == (set key | key in keys)
    && forall i | 0 <= i < |cs| :: keys[i] == BucketKey(cs[i], g)
  }

  /** The counts after the first `n` items. */
  ghost predicate Weighed(counts: map<string, int>, cs: seq<int>, items: seq<Item>, g: Granularity) {
    forall i | 0 <= i < |cs| ::
      BucketKey(cs[i], g) in counts && counts[BucketKey(cs[i], g)] == Weigh(items, cs[i], Advance(cs[i], g))
  }

  lemma KeyIsNew(cs: seq<int>, cursor: int, g: Granularity)
    requires (forall i | 0 <= i < |cs| :: Aligned(cs[i], g) && cs[i] < cursor) && Aligned(cursor, g)
    ensures forall i | 0 <= i < |cs| :: BucketKey(cs[i], g) != BucketKey(cursor, g)
  {
    hide Aligned, BucketStart, BucketKey;
    forall i | 0 <= i < |cs|
      ensures BucketKey(cs[i], g) != BucketKey(cursor, g)
    {
      AlignedIs(cs[i], g);
      AlignedIs(cursor, g);
      KeyNamesBucket(cs[i], cursor, g);
    }
  }

  /** The bucket an item is added to is the one whose span holds it. */
  lemma ItemLands(c: int, at: int, g: Granularity)
    requires Aligned(c, g)
    ensures BucketKey(c, g) == BucketKey(at, g) <==> c <= at < Advance(c, g)
  {
    hide Aligned, BucketStart, BucketKey, Advance;
    AlignedIs(c, g);
    KeyNamesBucket(c, at, g);
    AdvanceTiles(c, g);
  }

  lemma WeighNext(items: seq<Item>, item: Item, lo: int, hi: int)
    ensures Weigh(items + [item], lo, hi) == Weigh(items, lo, hi) + if lo <= item.at < hi then item.weight else 0
  {
    assert (items + [item])[..|items|] == items;
  }

  lemma WeighedNext(counts: map<string, int>, cs: seq<int>, items: seq<Item>, item: Item, start: int, g: Granularity)
    requires Weighed(counts, cs, items, g) && forall i | 0 <= i < |cs| :: Aligned(cs[i], g) && start <= cs[i]
    requires counts.Keys == set i | 0 <= i < |cs| :: BucketKey(cs[i], g)
    ensures var key := BucketKey(item.at, g);
            var counts' := if item.at >= start && key in counts then counts[key := counts[key] + item.weight] else counts;
            Weighed(counts', cs, items + [item], g)
  {
    hide Aligned, BucketStart, BucketKey, Advance, Weigh;
    var key := BucketKey(item.at, g);
    forall i | 0 <= i < |cs|
      ensures BucketKey(cs[i], g) == key <==> cs[i] <= item.at < Advance(cs[i], g)
      ensures Weigh(items + [item], cs[i], Advance(cs[i], g))
              == Weigh(items, cs[i], Advance(cs[i], g)) + if BucketKey(cs[i], g) == key then item.weight else 0
    {
      ItemLands(cs[i], item.at, g);
      WeighNext(items, item, cs[i], Advance(cs[i], g));
    }
  }

  method ZeroFill(start: int, now: int, g: Granularity) returns (keys: seq<string>, counts: map<string, int>)
    requires Aligned(start, g)
    ensures ZeroFilled(keys, counts, Cursors(start, now, g), g)
    ensures Weighed(counts, Cursors(start, now, g), [], g)
  {
    hide Aligned, BucketStart, BucketKey, Advance, Cursors, Weighed;
    keys, counts := [], map[];
    var cursor := start;
    ghost var cs: seq<int> := [];
    assert [] + Cursors(start, now, g) == Cursors(start, now, g);
    while cursor <= now
      invariant Aligned(cursor, g) && cs + Cursors(cursor, now, g) == Cursors(start, now, g)
      invariant forall i | 0 <= i < |cs| :: Aligned(cs[i], g) && cs[i] < cursor
      invariant ZeroFilled(keys, counts, cs, g) && forall key | key in counts :: counts[key] == 0
      decreases now - cursor
    {
      KeyIsNew(cs, cursor, g);
      AdvanceTiles(cursor, g);
      CursorsNext(cursor, now, g);
      assert cs + ([cursor] + Cursors(Advance(cursor, g), now, g)) == (cs + [cursor]) + Cursors(Advance(cursor, g), now, g);
      var key := BucketKey(cursor, g);
      keys := keys + [key];
      counts := counts[key := 0];
      cs := cs + [cursor];
      cursor := Advance(cursor, g);
    }
    CursorsNext(cursor, now, g);
    assert cs + [] == cs;
    ZerosAreWeighed(keys, counts, cs, g);
  }

  lemma CursorsNext(start: int, now: int, g: Granularity)
    requires Aligned(start, g)
    ensures start > now ==> Cursors(start, now, g) == []
    ensures start <= now ==>
              Aligned(Advance(start, g), g)
              && Cursors(start, now, g) == [start] + Cursors(Advance(start, g), now, g)
  {
    hide Aligned, Advance, BucketStart;
    AdvanceTiles(start, g);
  }

  lemma ZerosAreWeighed(keys: seq<string>, counts: map<string, int>, cs: seq<int>, g: Granularity)
    requires ZeroFilled(keys, counts, cs, g) && forall key | key in counts :: counts[key] == 0
    ensures Weighed(counts, cs, [], g)
  {
    hide Aligned, BucketKey, Advance;
    forall i | 0 <= i < |cs|
      ensures BucketKey(cs[i], g) in counts
    {
      assert keys[i] in counts;
    }
  }

  method WeighItems(items: seq<Item>, start: int, g: Granularity, zeros: map<string, int>, ghost cs: seq<int>)
    returns (counts: map<string, int>)
    requires Weighed(zeros, cs, [], g) && forall i | 0 <= i < |cs| :: Aligned(cs[i], g) && start <= cs[i]
    requires zeros.Keys == set i | 0 <= i < |cs| :: BucketKey(cs[i], g)
    ensures Weighed(counts, cs, items, g) && counts.Keys == zeros.Keys
  {
    hide Aligned, BucketStart, BucketKey, Advance, Weighed;
    counts := zeros;
    assert items[..0] == [];
    for n := 0 to |items|
      invariant Weighed(counts, cs, items[..n], g) && counts.Keys == zeros.Keys
    {
      WeighedNext(counts, cs, items[..n], items[n], start, g);
      assert items[..n + 1] == items[..n] + [items[n]];
      var key := BucketKey(items[n].at, g);
      if items[n].at >= start && key in counts {
        counts := counts[key := counts[key] + items[n].weight];
      }
    }
    assert items[..|items|] == items;
  }

  /** `[...counts.entries()]` as buckets. */
  method Entries(keys: seq<string>, counts: map<string, int>) returns (buckets: seq<Bucket>)
    requires forall key | key in keys :: key in counts
    ensures |buckets| == |keys| && forall i | 0 <= i < |keys| :: buckets[i] == Bucket(keys[i], counts[keys[i]])
  {
    buckets := [];
    for i := 0 to |keys|
      invariant |buckets| == i && forall j | 0 <= j < i :: buckets[j] == Bucket(keys[j], counts[keys[j]])
    {
      buckets := buckets + [Bucket(keys[i], counts[keys[i]])];
    }
  }

  lemma EntriesAreSeries(items: seq<Item>, start: int, now: int, g: Granularity, keys: seq<string>, counts: map<string, int>,
                         buckets: seq<Bucket>)
    requires Aligned(start, g)
    requires ZeroFilled(keys, counts, Cursors(start, now, g), g) && Weighed(counts, Cursors(start, now, g), items, g)
    requires |buckets| == |keys| && forall i | 0 <= i < |keys| :: buckets[i] == Bucket(keys[i], counts[keys[i]])
    ensures buckets == Series(items, start, now, g)
  {
    hide Aligned, BucketStart, BucketKey, Advance, Weigh, Series, Cursors;
    SeriesAt(items, start, now, g);
  }

  /** `buildBuckets`: exactly one bucket per cursor of the window, each with the weight of the items
      whose instant lies in its span. */
  method BuildBuckets(items: seq<Item>, window: Window, g: Granularity, now: int, earliest: Option<int>)
    returns (buckets: seq<Bucket>)
    ensures var first := if earliest.Some? then earliest else EarliestAt(items);
            var start := WindowStart(window, g, now, first);
            Aligned(start, g) && buckets == Series(items, start, now, g)
  {
    hide Aligned, BucketStart, BucketKey, Advance, WindowStart, Weighed, Series, Cursors, EarliestAt;
    var first := if earliest.Some? then earliest else EarliestAt(items);
    var start := WindowStart(window, g, now, first);
    WindowIsAligned(window, g, now, first);
    ghost var cs := Cursors(start, now, g);
    CursorsTile(start, now, g);
    var keys, counts := ZeroFill(start, now, g);
    KeySet(keys, cs, g);
    counts := WeighItems(items, start, g, counts, cs);
    buckets := Entries(keys, counts);
    EntriesAreSeries(items, start, now, g, keys, counts, buckets);
  }

  lemma KeySet(keys: seq<string>, cs: seq<int>, g: Granularity)
    requires |keys| == |cs| && forall i | 0 <= i < |cs| :: keys[i] == BucketKey(cs[i], g)
    ensures (set key | key in keys) == set i | 0 <= i < |cs| :: BucketKey(cs[i], g)
  {
    hide Aligned, BucketKey;
    forall key | key in keys
      ensures key in set i | 0 <= i < |cs| :: BucketKey(cs[i], g)
    {
      var i :| 0 <= i < |keys| && keys[i] == key;
    }
  }
}
