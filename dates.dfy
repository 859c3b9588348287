/**
 * Proleptic Gregorian calendar arithmetic as Python's `datetime` performs it:
 * days per month, leap years, day ordinals (`date.toordinal`), weekdays
 * (`date.weekday`, Monday = 0 ... Sunday = 6), the next day, the next month and
 * adding minutes to a wall-clock date-time.
 */
module Dates {

  datatype Date = Date(year: int, month: int, day: int)

  /**
   * A naive wall-clock date-time. The source attaches a time zone with
   * `replace(tzinfo=...)`, which labels and never converts, and adds
   * `timedelta`s to aware values of one zone, which is wall-clock arithmetic.
   */
  datatype DateTime = DateTime(year: int, month: int, day: int, hour: int, minute: int, second: int)

  predicate IsLeap(y: int) {
    y % 4 == 0 && (y % 100 != 0 || y % 400 == 0)
  }

  function DaysInMonth(y: int, m: int): int
    requires 1 <= m <= 12
  {
    if m == 2 then (if IsLeap(y) then 29 else 28)
    else if m == 4 || m == 6 || m == 9 || m == 11 then 30
    else 31
  }

  function DaysInYear(y: int): int {
    if IsLeap(y) then 366 else 365
  }

  predicate ValidDate(d: Date) {
    1 <= d.month <= 12 && 1 <= d.day <= DaysInMonth(d.year, d.month)
  }

  function DateOf(dt: DateTime): Date {
    Date(dt.year, dt.month, dt.day)
  }

  predicate ValidDateTime(dt: DateTime) {
    ValidDate(DateOf(dt)) && 0 <= dt.hour < 24 && 0 <= dt.minute < 60 && 0 <= dt.second < 60
  }

  const MinYear := 1
  const MaxYear := 9999

  /** The values a Python `date` can hold. */
  type PyDate = d: Date | ValidDate(d) && MinYear <= d.year <= MaxYear witness Date(1, 1, 1)

  /** The values a Python `datetime` can hold (sub-second parts are never observed by the source and are left out). */
  type PyDateTime = dt: DateTime | ValidDateTime(dt) && MinYear <= dt.year <= MaxYear
    witness DateTime(1, 1, 1, 0, 0, 0)

  /** `a <= b` on Python dates: (year, month, day) compared lexicographically. */
  predicate DateLe(a: Date, b: Date) {
    a.year < b.year || (a.year == b.year && (a.month < b.month || (a.month == b.month && a.day <= b.day)))
  }

  /** Days in the years before year y (Python's `_days_before_year`). */
  function DaysBeforeYear(y: int): int {
    var p := y - 1;
    365 * p + p / 4 - p / 100 + p / 400
  }

  /** Days in the months of year y before month m (Python's `_days_before_month`). */
  function DaysBeforeMonth(y: int, m: int): int
    requires 1 <= m <= 12
  {
    var common :=
      if m == 1 then 0 else if m == 2 then 31 else if m == 3 then 59
      else if m == 4 then 90 else if m == 5 then 120 else if m == 6 then 151
      else if m == 7 then 181 else if m == 8 then 212 else if m == 9 then 243
      else if m == 10 then 273 else if m == 11 then 304 else 334;
    common + (if m > 2 && IsLeap(y) then 1 else 0)
  }

  /** `date.toordinal()`: 0001-01-01 is day 1. */
  function Ordinal(d: Date): int
    requires 1 <= d.month <= 12
  {
    DaysBeforeYear(d.year) + DaysBeforeMonth(d.year, d.month) + d.day
  }

  /** `date.weekday()`: Monday is 0 and Sunday is 6. */
  function Weekday(d: Date): int
    requires 1 <= d.month <= 12
  {
    (Ordinal(d) + 6) % 7
  }

  const Sunday := 6

  /** `d + timedelta(days=1)`. */
  function NextDay(d: Date): Date
    requires ValidDate(d)
  {
    if d.day < DaysInMonth(d.year, d.month) then Date(d.year, d.month, d.day + 1)
    else if d.month < 12 then Date(d.year, d.month + 1, 1)
    else Date(d.year + 1, 1, 1)
  }

  /** The first day of the month after d's month, December rolling over to January of the next year. */
  function FirstOfNextMonth(d: Date): Date {
    if d.month == 12 then Date(d.year + 1, 1, 1) else Date(d.year, d.month + 1, 1)
  }

  /** The first day of the month before d's month. */
  function FirstOfPrevMonth(d: Date): Date {
    if d.month == 1 then Date(d.year - 1, 12, 1) else Date(d.year, d.month - 1, 1)
  }

  /** Months counted from a fixed origin, so that consecutive months differ by one. */
  function MonthIndex(d: Date): int {
    12 * d.year + d.month - 1
  }

  /** Crossing from y - 1 to y steps each of the quotients by 4, 100 and 400 exactly at their multiples. */
  lemma QuotientSteps(y: int)
    ensures y / 4 == (y - 1) / 4 + (if y % 4 == 0 then 1 else 0)
    ensures y / 100 == (y - 1) / 100 + (if y % 100 == 0 then 1 else 0)
    ensures y / 400 == (y - 1) / 400 + (if y % 400 == 0 then 1 else 0)
  {
  }

  /** The length of a year in days is the difference of consecutive `DaysBeforeYear` values. */
  lemma YearLength(y: int)
    ensures DaysBeforeYear(y + 1) == DaysBeforeYear(y) + DaysInYear(y)
  {
    QuotientSteps(y);
    DivisibilityChain(y);
  }

  /** A multiple of 400 is a multiple of 100, and a multiple of 100 is a multiple of 4. */
  lemma DivisibilityChain(y: int)
    ensures y % 100 == 0 ==> y % 4 == 0
    ensures y % 400 == 0 ==> y % 100 == 0
  {
    if y % 100 == 0 {
      var q := y / 100;
      assert y == 4 * (25 * q);
      MultipleMod(25 * q, 4);
    }
    if y % 400 == 0 {
      var q := y / 400;
      assert y == 100 * (4 * q);
      MultipleMod(4 * q, 100);
    }
  }

  /** A multiple of c leaves no remainder modulo c. */
  lemma MultipleMod(k: int, c: int)
    requires c == 4 || c == 100
    ensures (c * k) % c == 0
  {
    if c == 4 {
      assert (4 * k) % 4 == 0;
    } else {
      assert (100 * k) % 100 == 0;
    }
  }

  /** The day after a valid date is a valid date with the next ordinal, across month and year ends. */
  lemma NextDayOrdinal(d: Date)
    requires ValidDate(d)
    ensures ValidDate(NextDay(d)) && Ordinal(NextDay(d)) == Ordinal(d) + 1
  {
    if d.day == DaysInMonth(d.year, d.month) && d.month == 12 {
      YearLength(d.year);
    }
  }

  /** Within one year, a valid date's ordinal lies inside that year's span of days. */
  lemma OrdinalWithinYear(d: Date)
    requires ValidDate(d)
    ensures DaysBeforeYear(d.year) < Ordinal(d) <= DaysBeforeYear(d.year) + DaysInYear(d.year)
  {
  }

  lemma {:induction false} DaysBeforeYearMonotone(a: int, b: int)
    requires a <= b
    ensures DaysBeforeYear(a) + 365 * (b - a) <= DaysBeforeYear(b)
    decreases b - a
  {
    if a < b {
      DaysBeforeYearMonotone(a, b - 1);
      YearLength(b - 1);
    }
  }

  /** The days before month m + 1 are those before m plus m's length. */
  lemma DaysBeforeNextMonth(y: int, m: int)
    requires 1 <= m < 12
    ensures DaysBeforeMonth(y, m + 1) == DaysBeforeMonth(y, m) + DaysInMonth(y, m)
  {
  }

  /** A month ends no later than a later month of the same year begins. */
  lemma {:induction false} DaysBeforeMonthMonotone(y: int, m1: int, m2: int)
    requires 1 <= m1 < m2 <= 12
    ensures DaysBeforeMonth(y, m1) + DaysInMonth(y, m1) <= DaysBeforeMonth(y, m2)
    decreases m2 - m1
  {
    DaysBeforeNextMonth(y, m1);
    if m1 + 1 < m2 {
      DaysBeforeMonthMonotone(y, m1 + 1, m2);
    }
  }

  /** Within one year, date comparison is ordinal comparison. */
  lemma SameYearOrder(a: Date, b: Date)
    requires ValidDate(a) && ValidDate(b) && a.year == b.year
    ensures DateLe(a, b) <==> Ordinal(a) <= Ordinal(b)
  {
    if a.month < b.month {
      DaysBeforeMonthMonotone(a.year, a.month, b.month);
    } else if b.month < a.month {
      DaysBeforeMonthMonotone(a.year, b.month, a.month);
    }
  }

  /** Python's comparison of dates agrees with the order of their ordinals. */
  lemma DateLeIsOrdinalOrder(a: Date, b: Date)
    requires ValidDate(a) && ValidDate(b)
    ensures DateLe(a, b) <==> Ordinal(a) <= Ordinal(b)
  {
    if a.year < b.year {
      EarlierYearOrder(a, b);
    } else if b.year < a.year {
      EarlierYearOrder(b, a);
    } else {
      SameYearOrder(a, b);
    }
  }

  /** Every date of an earlier year has a smaller ordinal. */
  lemma EarlierYearOrder(a: Date, b: Date)
    requires ValidDate(a) && ValidDate(b) && a.year < b.year
    ensures Ordinal(a) < Ordinal(b)
  {
    OrdinalWithinYear(a);
    OrdinalWithinYear(b);
    DaysBeforeYearMonotone(a.year + 1, b.year);
    YearLength(a.year);
  }

  /** Distinct valid dates have distinct ordinals. */
  lemma OrdinalInjective(a: Date, b: Date)
    requires ValidDate(a) && ValidDate(b) && Ordinal(a) == Ordinal(b)
    ensures a == b
  {
    DateLeIsOrdinalOrder(a, b);
    DateLeIsOrdinalOrder(b, a);
  }

  /** Minutes elapsed since the start of the ordinal calendar: the reference clock for date-time arithmetic. */
  function MinuteOf(dt: DateTime): int
    requires 1 <= dt.month <= 12
  {
    (Ordinal(DateOf(dt)) * 24 + dt.hour) * 60 + dt.minute
  }

  /**
   * `dt + timedelta(minutes=k)` for 0 <= k < 60, carrying into the hour, day, month
   * and year: a valid date-time with the same seconds.
   */
  function AddMinutes(dt: DateTime, k: nat): (r: DateTime)
    requires ValidDateTime(dt) && k < 60
    ensures ValidDateTime(r) && r.year >= dt.year && r.second == dt.second
  {
    var m := dt.minute + k;
    if m < 60 then dt.(minute := m)
    else if dt.hour < 23 then dt.(hour := dt.hour + 1, minute := m - 60)
    else
      var next := NextDay(DateOf(dt));
      DateTime(next.year, next.month, next.day, 0, m - 60, dt.second)
  }

  /** `AddMinutes(dt, k)` is exactly k minutes later than dt on the minute clock. */
  lemma AddMinutesClock(dt: DateTime, k: nat)
    requires ValidDateTime(dt) && k < 60
    ensures MinuteOf(AddMinutes(dt, k)) == MinuteOf(dt) + k
  {
    if dt.minute + k >= 60 && dt.hour == 23 {
      NextDayOrdinal(DateOf(dt));
    }
  }

  /** A valid date-time is determined by its minute clock and its seconds. */
  lemma MinuteOfInjective(a: DateTime, b: DateTime)
    requires ValidDateTime(a) && ValidDateTime(b)
    requires MinuteOf(a) == MinuteOf(b) && a.second == b.second
    ensures a == b
  {
    var oa, ob := Ordinal(DateOf(a)), Ordinal(DateOf(b));
    assert (oa - ob) * 1440 == (b.hour - a.hour) * 60 + (b.minute - a.minute);
    assert oa == ob;
    OrdinalInjective(DateOf(a), DateOf(b));
  }
}
