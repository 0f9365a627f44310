/**
 * The proleptic Gregorian calendar, day numbers counted from 1970-01-01, and the
 * ISO 8601 week date: week 1 of a year is the week (Monday to Sunday) that holds
 * the year's first Thursday.
 */
module Calendar {

  const NanosPerSecond: int := 1_000_000_000
  const NanosPerDay: int := 86_400 * NanosPerSecond

  datatype Date = Date(year: int, month: int, day: int)

  /** A timestamp as pandas stores it: a calendar day and the nanoseconds since its midnight. */
  datatype Timestamp = Timestamp(date: Date, nanos: int)

  predicate IsLeapYear(y: int) {
    y % 4 == 0 && (y % 100 != 0 || y % 400 == 0)
  }

  function DaysInYear(y: int): (n: int)
    ensures n == 365 || n == 366
  {
    if IsLeapYear(y) then 366 else 365
  }

  function DaysInMonth(y: int, m: int): (n: int)
    requires 1 <= m <= 12
    ensures 28 <= n <= 31
  {
    if m == 2 then (if IsLeapYear(y) then 29 else 28)
    else if m == 4 || m == 6 || m == 9 || m == 11 then 30
    else 31
  }

  predicate ValidDate(d: Date) {
    1 <= d.month <= 12 && 1 <= d.day <= DaysInMonth(d.year, d.month)
  }

  predicate ValidTimestamp(t: Timestamp) {
    ValidDate(t.date) && 0 <= t.nanos < NanosPerDay
  }

  /** Timestamps that denote a real instant; parsing produces only these. */
  type Moment = t: Timestamp | ValidTimestamp(t) witness Timestamp(Date(1970, 1, 1), 0)

  /** Days of the year that come before the first day of month m. */
  function DaysBeforeMonth(y: int, m: int): (n: int)
    requires 1 <= m <= 12
    ensures 0 <= n <= 335
  {
    var leap := if IsLeapYear(y) then 1 else 0;
    if m == 1 then 0 else if m == 2 then 31
    else [59, 90, 120, 151, 181, 212, 243, 273, 304, 334][m - 3] + leap
  }

  /** The months tile the year: each month starts where the previous one ends. */
  lemma MonthsTileYear(y: int, m: int)
    requires 1 <= m <= 12
    ensures m < 12 ==> DaysBeforeMonth(y, m) + DaysInMonth(y, m) == DaysBeforeMonth(y, m + 1)
    ensures m == 12 ==> DaysBeforeMonth(y, m) + DaysInMonth(y, m) == DaysInYear(y)
  {
  }

  /** Ordinal day of the year, 1 for January 1st. */
  function DayOfYear(d: Date): (n: int)
    requires ValidDate(d)
    ensures 1 <= n <= DaysInYear(d.year)
  {
    DaysBeforeMonth(d.year, d.month) + d.day
  }

  /** Leap years among 1..n (for n >= 0); the floor divisions keep differences right for every n. */
  function Leaps(n: int): int {
    n / 4 - n / 100 + n / 400
  }

  /** Day number of January 1st of year y, with 1970-01-01 as day 0. */
  function YearStart(y: int): int {
    365 * (y - 1970) + Leaps(y - 1) - Leaps(1969)
  }

  lemma DivBy(a: int, k: int, q: int, r: int)
    requires k == 4 || k == 7 || k == 100 || k == 400
    requires a == k * q + r && 0 <= r < k
    ensures a / k == q && a % k == r
  {
  }

  /** Whether a year is a multiple of k decides whether the quotient steps up at that year. */
  lemma FloorStep(y: int, k: int)
    requires k == 4 || k == 100 || k == 400
    ensures y / k - (y - 1) / k == (if y % k == 0 then 1 else 0)
  {
    var q, r := y / k, y % k;
    if r == 0 {
      DivBy(y - 1, k, q - 1, k - 1);
    } else {
      DivBy(y - 1, k, q, r - 1);
    }
  }

  lemma LeapDivisibility(y: int)
    ensures y % 400 == 0 ==> y % 100 == 0
    ensures y % 100 == 0 ==> y % 4 == 0
  {
    if y % 400 == 0 { DivBy(y, 100, 4 * (y / 400), 0); }
    if y % 100 == 0 { DivBy(y, 4, 25 * (y / 100), 0); }
  }

  /** Consecutive years are DaysInYear apart. */
  lemma YearStartNext(y: int)
    ensures YearStart(y + 1) == YearStart(y) + DaysInYear(y)
  {
    FloorStep(y, 4);
    FloorStep(y, 100);
    FloorStep(y, 400);
    LeapDivisibility(y);
    assert Leaps(y) - Leaps(y - 1) == (if IsLeapYear(y) then 1 else 0);
  }

  /** Days since 1970-01-01. */
  function DayNumber(d: Date): int
    requires ValidDate(d)
  {
    YearStart(d.year) + DayOfYear(d) - 1
  }

  /** ISO day of the week of a day number: 1 is Monday, 7 is Sunday (1970-01-01 was a Thursday). */
  function Weekday(n: int): (w: int)
    ensures 1 <= w <= 7
  {
    (n + 3) % 7 + 1
  }

  /** Ordinal, in the year y, of the Thursday of the ISO week holding d; may fall outside 1..DaysInYear(y). */
  function ThursdayOrdinal(d: Date): int
    requires ValidDate(d)
  {
    DayOfYear(d) - Weekday(DayNumber(d)) + 4
  }

  /** The ISO week-numbering year of d: the calendar year of its week's Thursday. */
  function IsoYear(d: Date): int
    requires ValidDate(d)
  {
    var t := ThursdayOrdinal(d);
    if t < 1 then d.year - 1
    else if t > DaysInYear(d.year) then d.year + 1
    else d.year
  }

  /**
   * The ISO week number, what pandas' isocalendar().week yields: the Thursday of d's
   * week is counted in the year that holds it, and weeks are counted from that year's first Thursday.
   */
  function IsoWeek(d: Date): (w: int)
    requires ValidDate(d)
    ensures 1 <= w <= 53
  {
    var t := ThursdayOrdinal(d);
    if t < 1 then (t + DaysInYear(d.year - 1) - 1) / 7 + 1
    else if t > DaysInYear(d.year) then (t - DaysInYear(d.year) - 1) / 7 + 1
    else (t - 1) / 7 + 1
  }

  /** Day number of the first Thursday on or after day j. */
  function ThursdayFrom(j: int): (n: int)
    ensures j <= n < j + 7
    ensures Weekday(n) == 4
  {
    j + (4 - Weekday(j)) % 7
  }

  /** Day number of the first Thursday of year y. */
  function FirstThursday(y: int): int {
    ThursdayFrom(YearStart(y))
  }

  /** Day number of the Monday that starts ISO week 1 of year y. */
  function WeekOneMonday(y: int): int {
    FirstThursday(y) - 3
  }

  /** A Thursday that is day t - 1 after day j is the ((t - 1) / 7 + 1)-th Thursday from j on. */
  lemma ThursdayCount(j: int, t: int)
    requires t >= 1
    requires Weekday(j + t - 1) == 4
    ensures j + t - 1 == ThursdayFrom(j) + 7 * ((t - 1) / 7)
  {
    var r := (4 - Weekday(j)) % 7;
    var x := j + t - 1;
    var a, b := (x + 3) / 7, (j + r + 3) / 7;
    assert x + 3 == 7 * a + 3;
    assert j + r + 3 == 7 * b + 3;
    DivBy(t - 1, 7, a - b, r);
  }

  /** The Thursday of the week holding day n is n - Weekday(n) + 4. */
  lemma ThursdayOfWeek(n: int)
    ensures Weekday(n - Weekday(n) + 4) == 4
  {
    DivBy(n + 3, 7, (n + 3) / 7, (n + 3) % 7);
    DivBy(n - Weekday(n) + 7, 7, (n + 3) / 7, 3);
  }

  /**
   * The step shared by IsoWeekCase's three cases: when the Thursday of day n's week is day
   * t - 1 after January 1st of year y, the Monday of that week starts week w = (t - 1) / 7 + 1 of y.
   */
  lemma MondayOfCountedWeek(n: int, y: int, t: int, w: int)
    requires t >= 1 && w == (t - 1) / 7 + 1
    requires n - Weekday(n) + 4 == YearStart(y) + t - 1
    ensures n - Weekday(n) + 1 == WeekOneMonday(y) + 7 * (w - 1)
  {
    ThursdayOfWeek(n);
    ThursdayCount(YearStart(y), t);
  }

  /**
   * The Monday of d's week is day 7 * (w - 1) after the Monday of week 1 of d's ISO year,
   * and d comes before week 1 of the following ISO year, so (IsoYear(d), IsoWeek(d)) is the
   * only pair that places d.
   */
  lemma IsoWeekMeansFirstThursdayRule(d: Date)
    requires ValidDate(d)
    ensures IsoYear(d) == d.year - 1 || IsoYear(d) == d.year || IsoYear(d) == d.year + 1
    ensures var monday := DayNumber(d) - Weekday(DayNumber(d)) + 1;
      && monday == WeekOneMonday(IsoYear(d)) + 7 * (IsoWeek(d) - 1)
      && monday <= DayNumber(d) < monday + 7
    ensures WeekOneMonday(IsoYear(d)) <= DayNumber(d) < WeekOneMonday(IsoYear(d) + 1)
  {
    var n, t, y := DayNumber(d), ThursdayOrdinal(d), d.year;
    var it := if t < 1 then t + DaysInYear(y - 1) else if t > DaysInYear(y) then t - DaysInYear(y) else t;
    IsoWeekCase(d, IsoYear(d), it);
    ThursdayBeforeNextYear(d);
    ThursdayOfWeek(n);
    var th := n - Weekday(n) + 4;
    SameWeekdayApart(th, FirstThursday(IsoYear(d) + 1));
  }

  /** Two different days of the same weekday are at least a week apart. */
  lemma SameWeekdayApart(a: int, b: int)
    requires a < b && Weekday(a) == Weekday(b)
    ensures a + 7 <= b
  {
    var r := (a + 3) % 7;
    DivBy(a + 3, 7, (a + 3) / 7, r);
    DivBy(b + 3, 7, (b + 3) / 7, r);
  }

  /** The Thursday of d's week lies before January 1st of the year after d's ISO year. */
  lemma ThursdayBeforeNextYear(d: Date)
    requires ValidDate(d)
    ensures var n := DayNumber(d); n - Weekday(n) + 4 < YearStart(IsoYear(d) + 1)
  {
    var y, t := d.year, ThursdayOrdinal(d);
    YearStartNext(y);
    if t > DaysInYear(y) {
      YearStartNext(y + 1);
    }
  }

  /** The Thursday of d's week is day it - 1 of year iy, which is d's ISO year. */
  lemma IsoWeekCase(d: Date, iy: int, it: int)
    requires ValidDate(d) && iy == IsoYear(d)
    requires var t := ThursdayOrdinal(d);
      it == if t < 1 then t + DaysInYear(d.year - 1) else if t > DaysInYear(d.year) then t - DaysInYear(d.year) else t
    ensures var n := DayNumber(d); n - Weekday(n) + 1 == WeekOneMonday(iy) + 7 * (IsoWeek(d) - 1)
  {
    var n, t, y := DayNumber(d), ThursdayOrdinal(d), d.year;
    assert n - Weekday(n) + 4 == YearStart(y) + t - 1;
    if t < 1 {
      YearStartNext(y - 1);
      MondayOfCountedWeek(n, iy, it, IsoWeek(d));
    } else if t > DaysInYear(y) {
      YearStartNext(y);
      MondayOfCountedWeek(n, iy, it, IsoWeek(d));
    } else {
      MondayOfCountedWeek(n, iy, it, IsoWeek(d));
    }
  }

  /** The instant of a timestamp, in nanoseconds since 1970-01-01 00:00. */
  function Instant(t: Moment): int {
    DayNumber(t.date) * NanosPerDay + t.nanos
  }

  /** The first instant of day d. */
  function Midnight(d: Date): int
    requires ValidDate(d)
  {
    DayNumber(d) * NanosPerDay
  }

  /** An instant lies between two midnights exactly when its day lies between their days. */
  lemma InstantWithinDays(t: Moment, first: Date, last: Date)
    requires ValidDate(first) && ValidDate(last)
    ensures (Midnight(first) <= Instant(t) < Midnight(last) + NanosPerDay)
        <==> (DayNumber(first) <= DayNumber(t.date) <= DayNumber(last))
  {
    var a, b, n := DayNumber(first), DayNumber(last), DayNumber(t.date);
    if a <= n { assert a * NanosPerDay <= n * NanosPerDay; }
    if n < a { assert n * NanosPerDay + NanosPerDay <= a * NanosPerDay; }
    if n <= b { assert n * NanosPerDay + NanosPerDay <= b * NanosPerDay + NanosPerDay; }
    if b < n { assert b * NanosPerDay + NanosPerDay <= n * NanosPerDay; }
  }
}
