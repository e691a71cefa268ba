/** `isoWeekKey` against the week date of section 4.1.4 of ISO 8601:2004: weeks run from Monday to
    Sunday, and the first week of a year is the one with the year's first Thursday. */
module IsoWeeks {
  import opened Calendar

  // ----- As the chart computes it -----

  function ThursdayOf(t: int): int {
    AddDays(StartOfIsoWeek(t), 3)
  }

  function FirstThursdayOf(year: int): int {
    AddDays(StartOfIsoWeek(MakeTime(year, 0, 4, 0)), 3)
  }

  const WEEK_MS: int := 604_800_000

  /** `Math.round(ms / (7 * 86_400_000))`. */
  function RoundWeeks(ms: int): int {
    (2 * ms + WEEK_MS) / (2 * WEEK_MS)
  }

  function WeekYear(t: int): int {
    FullYear(ThursdayOf(t))
  }

  function WeekNumber(t: int): int {
    1 + RoundWeeks(ThursdayOf(t) - FirstThursdayOf(WeekYear(t)))
  }

  // ----- In day numbers -----

  function Thursday(day: int): int {
    Monday(day) + 3
  }

  function IsoYear(day: int): int {
    YearOf(Thursday(day))
  }

  function FirstThursday(y: int): int {
    Thursday(YearStart(y) + 3)
  }

  function IsoWeek(day: int): int {
    1 + (Thursday(day) - FirstThursday(IsoYear(day))) / 7
  }

  lemma MondayIs(day: int)
    ensures Monday(day) <= day < Monday(day) + 7 && (Monday(day) + 3) % 7 == 0
  {
  }

  lemma FirstThursdayIs(y: int)
    ensures YearStart(y) <= FirstThursday(y) <= YearStart(y) + 6
  {
    hide YearStart;
  }

  lemma ThursdaysApart(a: int, b: int)
    ensures (Thursday(a) - Thursday(b)) % 7 == 0
  {
    MondayIs(a);
    MondayIs(b);
    hide Monday;
  }

  lemma ThursdayInDays(t: int)
    ensures ThursdayOf(t) == Thursday(DayOf(t)) * DAY_MS
  {
    hide StartOfIsoWeek, AddDays, AddHours, StartOfDay, StartOfHour, Monday;
    StartsInDays(t);
    var start := StartOfIsoWeek(t);
    assert DayOf(start) == Monday(DayOf(t));
    AddInDays(start, 3);
  }

  lemma FirstThursdayInDays(y: int)
    ensures FirstThursdayOf(y) == FirstThursday(y) * DAY_MS
  {
    YearIsMonths(y);
    hide MonthStart, YearStart;
    var t := MakeTime(y, 0, 4, 0);
    assert t == (YearStart(y) + 3) * DAY_MS;
    assert DayOf(t) == YearStart(y) + 3;
    ThursdayInDays(t);
  }

  /** The chart's arithmetic on instants is exact on day numbers. */
  lemma WeekInDays(t: int)
    ensures WeekYear(t) == IsoYear(DayOf(t)) && WeekNumber(t) == IsoWeek(DayOf(t))
  {
    var day := DayOf(t);
    ThursdayInDays(t);
    MonthOfIs(Thursday(day));
    hide ThursdayOf, Monday, YearOf, MonthOf, MonthStart;
    assert DayOf(ThursdayOf(t)) == Thursday(day);
    var y := IsoYear(day);
    FirstThursdayInDays(y);
    ThursdaysApart(day, YearStart(y) + 3);
    hide FirstThursdayOf, YearStart;
    var k := (Thursday(day) - FirstThursday(y)) / 7;
    assert Thursday(day) - FirstThursday(y) == 7 * k;
    assert ThursdayOf(t) - FirstThursdayOf(y) == k * WEEK_MS;
  }

  // ----- The standard -----

  /** Week numbers run from 1 to 53. */
  lemma WeekInRange(day: int)
    ensures 1 <= IsoWeek(day) <= 53
  {
    var y := IsoYear(day);
    FirstThursdayIs(y);
    YearLength(y);
    ThursdaysApart(day, YearStart(y) + 3);
    hide YearStart, Monday;
  }

  /** Week 1 is the week of the year's first Thursday. */
  lemma FirstWeek(day: int)
    ensures IsoWeek(day) == 1 <==> YearStart(IsoYear(day)) <= Thursday(day) < YearStart(IsoYear(day)) + 7
  {
    var y := IsoYear(day);
    FirstThursdayIs(y);
    ThursdaysApart(day, YearStart(y) + 3);
    hide YearStart, Monday;
  }

  lemma MondayNext(day: int)
    ensures Monday(day + 7) == Monday(day) + 7
  {
  }

  /** One week on: the next number of the same year, or week 1 of the next. */
  lemma NextWeek(day: int)
    ensures Thursday(day + 7) == Thursday(day) + 7
    ensures if Thursday(day) + 7 < YearStart(IsoYear(day) + 1)
            then IsoYear(day + 7) == IsoYear(day) && IsoWeek(day + 7) == IsoWeek(day) + 1
            else IsoYear(day + 7) == IsoYear(day) + 1 && IsoWeek(day + 7) == 1 && IsoWeek(day) >= 52
  {
    hide YearStart, Monday, YearOf;
    MondayNext(day);
    var y, th := IsoYear(day), Thursday(day);
    YearLength(y);
    YearLength(y + 1);
    FirstThursdayIs(y);
    ThursdaysApart(day, YearStart(y) + 3);
    if th + 7 < YearStart(y + 1) {
      YearIs(th + 7, y);
    } else {
      YearIs(th + 7, y + 1);
      FirstWeek(day + 7);
    }
  }

  /** Two days carry the same week date exactly when they share a Monday-to-Sunday week. */
  lemma SameWeek(a: int, b: int)
    ensures IsoYear(a) == IsoYear(b) && IsoWeek(a) == IsoWeek(b) <==> Monday(a) == Monday(b)
  {
    hide YearStart, Monday, YearOf;
    var y := IsoYear(a);
    ThursdaysApart(a, YearStart(y) + 3);
    ThursdaysApart(b, YearStart(y) + 3);
  }

  /** Later weeks have later week dates. */
  lemma WeeksInOrder(a: int, b: int)
    requires Monday(a) < Monday(b)
    ensures IsoYear(a) < IsoYear(b) || (IsoYear(a) == IsoYear(b) && IsoWeek(a) < IsoWeek(b))
  {
    hide YearStart, Monday;
    var y := IsoYear(a);
    if IsoYear(b) < y { YearsApart(IsoYear(b) + 1, y); }
    ThursdaysApart(a, YearStart(y) + 3);
    ThursdaysApart(b, YearStart(y) + 3);
  }
}
