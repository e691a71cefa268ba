/** The local calendar of the dashboard chart: days, months and ISO weeks of a civil time line
    without clock changes, counted in milliseconds from the start of 1970. */
module Calendar {
  const HOUR_MS: int := 3_600_000
  const DAY_MS: int := 86_400_000

  // ----- Years and months, as ECMA-262 defines them -----

  /** The day number of the first of January. */
  function YearStart(y: int): int {
    365 * (y - 1970) + (y - 1969) / 4 - (y - 1901) / 100 + (y - 1601) / 400
  }

  predicate Leap(y: int) {
    y % 4 == 0 && (y % 100 != 0 || y % 400 == 0)
  }

  lemma YearLength(y: int)
    ensures YearStart(y + 1) - YearStart(y) == if Leap(y) then 366 else 365
  {
    Step4(y - 1969);
    Step100(y - 1901);
    Step400(y - 1601);
    Shift4(y);
    Shift100(y);
    Shift400(y);
    Nested(y);
  }

  lemma Shift4(y: int)
    ensures (y - 1968) % 4 == 0 <==> y % 4 == 0
  {
  }

  lemma Shift100(y: int)
    ensures (y - 1900) % 100 == 0 <==> y % 100 == 0
  {
  }

  lemma Shift400(y: int)
    ensures (y - 1600) % 400 == 0 <==> y % 400 == 0
  {
  }

  lemma Nested(y: int)
    ensures (y % 400 == 0 ==> y % 100 == 0) && (y % 100 == 0 ==> y % 4 == 0)
  {
  }

  lemma Step4(a: int)
    ensures (a + 1) / 4 - a / 4 == if (a + 1) % 4 == 0 then 1 else 0
  {
  }

  lemma Step100(a: int)
    ensures (a + 1) / 100 - a / 100 == if (a + 1) % 100 == 0 then 1 else 0
  {
  }

  lemma Step400(a: int)
    ensures (a + 1) / 400 - a / 400 == if (a + 1) % 400 == 0 then 1 else 0
  {
  }

  lemma {:induction false} YearsApart(a: int, b: int)
    requires a <= b
    ensures YearStart(b) - YearStart(a) >= 365 * (b - a)
    decreases b - a
  {
    if a < b {
      YearLength(a);
      YearsApart(a + 1, b);
    }
  }

  /** The largest year, from `y` on, that starts by this day. */
  function YearFrom(day: int, y: int): (r: int)
    requires YearStart(y) <= day
    ensures YearStart(r) <= day < YearStart(r + 1)
    decreases day - YearStart(y)
  {
    YearLength(y);
    if YearStart(y + 1) <= day then YearFrom(day, y + 1) else y
  }

  function YearOf(day: int): (y: int)
    ensures YearStart(y) <= day < YearStart(y + 1)
  {
    var low := if day >= 0 then 1970 else 1970 + day;
    YearsApart(low, 1970);
    YearFrom(day, low)
  }

  lemma YearIs(day: int, y: int)
    requires YearStart(y) <= day < YearStart(y + 1)
    ensures YearOf(day) == y
  {
    hide YearStart;
    var r := YearOf(day);
    if r < y { YearsApart(r + 1, y); }
    if y < r { YearsApart(y + 1, r); }
  }

  /** Days of the year before the month, 0 for January to 12 for the next January. */
  function Before(m: int, leap: bool): int
    requires 0 <= m <= 12
  {
    [0, 31, 59, 90, 120, 151, 181, 212, 243, 273, 304, 334, 365][m] + if leap && m >= 2 then 1 else 0
  }

  /** Months are counted through: twelve times the year plus the month from zero. */
  function MonthStart(index: int): int {
    YearStart(index / 12) + Before(index % 12, Leap(index / 12))
  }

  /** MakeDay of ECMA-262: months and days out of range carry over. */
  function MakeDay(y: int, m: int, date: int): int {
    MonthStart(12 * y + m) + date - 1
  }

  lemma MonthLength(index: int)
    ensures 28 <= MonthStart(index + 1) - MonthStart(index) <= 31
  {
    var y, m := index / 12, index % 12;
    YearLength(y);
    if m == 11 {
      assert (index + 1) / 12 == y + 1 && (index + 1) % 12 == 0;
    } else {
      assert (index + 1) / 12 == y && (index + 1) % 12 == m + 1;
    }
  }

  /** The days of a month, by its number from 0 for January. */
  function DaysIn(m: int, leap: bool): int {
    if m == 1 then (if leap then 29 else 28) else if m == 3 || m == 5 || m == 8 || m == 10 then 30 else 31
  }

  /** The calendar in the reader's terms: time starts on Thursday the first of January 1970, years and
      months have the lengths they have. */
  lemma CalendarIs(y: int, m: int)
    requires 0 <= m < 12
    ensures YearStart(1970) == 0 && MonthStart(12 * 1970) == 0
    ensures MonthStart(12 * y + m + 1) - MonthStart(12 * y + m) == DaysIn(m, Leap(y))
  {
    EpochIs();
    YearLength(y);
    Twelfths(y, m);
    hide YearStart, Leap;
  }

  lemma Twelfths(y: int, m: int)
    requires 0 <= m < 12
    ensures (12 * y + m) / 12 == y && (12 * y + m) % 12 == m
    ensures (12 * y + m + 1) / 12 == (if m == 11 then y + 1 else y) && (12 * y + m + 1) % 12 == (if m == 11 then 0 else m + 1)
  {
  }

  lemma EpochIs()
    ensures YearStart(1970) == 0 && MonthStart(12 * 1970) == 0
  {
  }

  lemma {:induction false} MonthsApart(a: int, b: int)
    requires a <= b
    ensures MonthStart(b) - MonthStart(a) >= 28 * (b - a)
    decreases b - a
  {
    hide MonthStart;
    if a < b {
      MonthLength(a);
      MonthsApart(a + 1, b);
    }
  }

  function MonthFrom(day: int, index: int): (r: int)
    requires MonthStart(index) <= day
    ensures MonthStart(r) <= day < MonthStart(r + 1) && r >= index
    decreases day - MonthStart(index)
  {
    hide MonthStart;
    MonthLength(index);
    if MonthStart(index + 1) <= day then MonthFrom(day, index + 1) else index
  }

  /** The month of a day, counted through. */
  function MonthOf(day: int): int {
    hide MonthStart;
    YearIsMonths(YearOf(day));
    MonthFrom(day, 12 * YearOf(day))
  }

  lemma MonthOfIs(day: int)
    ensures MonthStart(MonthOf(day)) <= day < MonthStart(MonthOf(day) + 1)
    ensures MonthOf(day) / 12 == YearOf(day)
  {
    hide MonthStart, YearStart;
    YearIsMonths(YearOf(day));
    YearIsMonths(YearOf(day) + 1);
    MonthsWithin(day, YearOf(day), MonthOf(day));
  }

  lemma YearIsMonths(y: int)
    ensures MonthStart(12 * y) == YearStart(y)
  {
    assert (12 * y) / 12 == y && (12 * y) % 12 == 0;
  }

  lemma MonthsWithin(day: int, y: int, r: int)
    requires MonthStart(r) <= day < MonthStart(12 * (y + 1)) && r >= 12 * y
    ensures r / 12 == y
  {
    hide MonthStart;
    if r >= 12 * y + 12 { MonthsApart(12 * y + 12, r); }
  }

  lemma MonthIs(day: int, index: int)
    requires MonthStart(index) <= day < MonthStart(index + 1)
    ensures MonthOf(day) == index
  {
    hide MonthStart;
    MonthOfIs(day);
    var r := MonthOf(day);
    if r < index { MonthsApart(r + 1, index); }
    if index < r { MonthsApart(index + 1, r); }
  }

  // ----- Instants -----

  function DayOf(t: int): int { t / DAY_MS }
  function HourOf(t: int): int { (t % DAY_MS) / HOUR_MS }
  function FullYear(t: int): int { MonthOf(DayOf(t)) / 12 }
  function Month(t: int): int { MonthOf(DayOf(t)) % 12 }
  function Date(t: int): int { DayOf(t) - MonthStart(MonthOf(DayOf(t))) + 1 }

  /** 0 for Sunday. */
  function Weekday(t: int): int { (DayOf(t) + 4) % 7 }

  /** `new Date(year, month, date, hours)`. */
  function MakeTime(y: int, m: int, date: int, h: int): int {
    MakeDay(y, m, date) * DAY_MS + h * HOUR_MS
  }

  function StartOfHour(t: int): int { MakeTime(FullYear(t), Month(t), Date(t), HourOf(t)) }
  function StartOfDay(t: int): int { MakeTime(FullYear(t), Month(t), Date(t), 0) }
  function AddHours(t: int, n: int): int { MakeTime(FullYear(t), Month(t), Date(t), HourOf(t) + n) }
  function AddDays(t: int, n: int): int { MakeTime(FullYear(t), Month(t), Date(t) + n, 0) }
  function StartOfIsoWeek(t: int): int { AddDays(StartOfDay(t), -((Weekday(t) + 6) % 7)) }
  function StartOfMonth(t: int): int { MakeTime(FullYear(t), Month(t), 1, 0) }

  /** A date taken apart and put together again is the same day. */
  lemma CivilRoundTrip(t: int, n: int, h: int)
    ensures MakeTime(FullYear(t), Month(t), Date(t) + n, h) == (DayOf(t) + n) * DAY_MS + h * HOUR_MS
  {
    hide MonthStart;
    var index := MonthOf(DayOf(t));
    assert 12 * (index / 12) + index % 12 == index;
  }

  /** The Monday on or before a day. */
  function Monday(day: int): int {
    day - (day + 3) % 7
  }

  lemma AddInDays(t: int, n: int)
    ensures AddDays(t, n) == (DayOf(t) + n) * DAY_MS
    ensures AddHours(t, n) == (t / HOUR_MS + n) * HOUR_MS
  {
    CivilRoundTrip(t, n, 0);
    CivilRoundTrip(t, 0, HourOf(t) + n);
    hide MakeTime, FullYear, Month, Date;
    HoursOfDay(t);
  }

  lemma StartsInDays(t: int)
    ensures StartOfHour(t) == (t / HOUR_MS) * HOUR_MS
    ensures StartOfDay(t) == DayOf(t) * DAY_MS
    ensures StartOfIsoWeek(t) == Monday(DayOf(t)) * DAY_MS
  {
    CivilRoundTrip(t, 0, 0);
    CivilRoundTrip(t, 0, HourOf(t));
    hide MakeTime, FullYear, Month, Date, AddDays, AddHours, HourOf, Monday;
    HoursOfDay(t);
    var s := StartOfDay(t);
    assert DayOf(s) == DayOf(t);
    AddInDays(s, -((Weekday(t) + 6) % 7));
    MondayIsBack(t);
  }

  /** Back to the Monday, in the weekdays of the chart. */
  lemma MondayIsBack(t: int)
    ensures Monday(DayOf(t)) == DayOf(t) - (Weekday(t) + 6) % 7
  {
    hide DayOf;
  }

  lemma MonthStartInDays(t: int)
    ensures StartOfMonth(t) == MonthStart(MonthOf(DayOf(t))) * DAY_MS
  {
    hide MonthStart;
    var index := MonthOf(DayOf(t));
    assert 12 * (index / 12) + index % 12 == index;
  }

  lemma HoursOfDay(t: int)
    ensures t / HOUR_MS == 24 * DayOf(t) + HourOf(t) && 0 <= HourOf(t) < 24
  {
    assert t == DAY_MS * (t / DAY_MS) + t % DAY_MS;
  }
}
