/**
 * The Sunday-first month display grid of Python's
 * `calendar.Calendar(firstweekday=6).monthdatescalendar(year, month)`:
 * the month's days, preceded by the last days of the previous month and
 * followed by the first days of the next, so that every row is a full week.
 */
module MonthGrid {
  import opened Dates

  /** `days_before`: the days of the previous month that open the first week. */
  function LeadingDays(y: int, m: int): int
    requires 1 <= m <= 12
  {
    (Weekday(Date(y, m, 1)) - Sunday) % 7
  }

  /** `days_after`: the days of the next month that close the last week. */
  function TrailingDays(y: int, m: int): int
    requires 1 <= m <= 12
  {
    (Sunday - Weekday(Date(y, m, 1)) - DaysInMonth(y, m)) % 7
  }

  /** The last `days_before` days of the previous month. */
  function LeadRun(y: int, m: int): seq<Date>
    requires 1 <= m <= 12
  {
    var before, prev := LeadingDays(y, m), FirstOfPrevMonth(Date(y, m, 1));
    var prevLength := DaysInMonth(prev.year, prev.month);
    seq(before, k => Date(prev.year, prev.month, prevLength - before + 1 + k))
  }

  /** The days of the month itself. */
  function OwnRun(y: int, m: int): seq<Date>
    requires 1 <= m <= 12
  {
    seq(DaysInMonth(y, m), k => Date(y, m, k + 1))
  }

  /** The first `days_after` days of the next month. */
  function TailRun(y: int, m: int): seq<Date>
    requires 1 <= m <= 12
  {
    var next := FirstOfNextMonth(Date(y, m, 1));
    seq(TrailingDays(y, m), k => Date(next.year, next.month, k + 1))
  }

  /** `itermonthdates(y, m)`: the three runs of days, as `itermonthdays3` yields them. */
  function MonthDates(y: int, m: int): seq<Date>
    requires 1 <= m <= 12
  {
    LeadRun(y, m) + OwnRun(y, m) + TailRun(y, m)
  }

  /** `monthdatescalendar(y, m)`: the dates cut into rows of seven. */
  function MonthDatesCalendar(y: int, m: int): seq<seq<Date>>
    requires 1 <= m <= 12
  {
    var dates := MonthDates(y, m);
    seq(|dates| / 7, i requires 0 <= i < |dates| / 7 => dates[7 * i .. 7 * i + 7])
  }

  /** The grid position, counted from the first cell, of day d of the month. */
  function Position(y: int, m: int, d: int): int
    requires 1 <= m <= 12
  {
    LeadingDays(y, m) + d - 1
  }

  /** The run lengths as arithmetic on the ordinal o of day 1 and the month length n. */
  lemma RunArithmetic(o: int, n: int)
    requires 28 <= n <= 31
    ensures var w := (o + 6) % 7;
      var before, after := (w - Sunday) % 7, (Sunday - w - n) % 7;
      && before == o % 7 && 0 <= after < 7
      && (before + n + after) % 7 == 0 && 28 <= before + n + after <= 42
  {
    var w := (o + 6) % 7;
    var before, after := (w - Sunday) % 7, (Sunday - w - n) % 7;
    assert w == o + 6 - 7 * ((o + 6) / 7);
    assert before == (w - 6) - 7 * ((w - 6) / 7);
    assert after == (6 - w - n) - 7 * ((6 - w - n) / 7);
    var total := before + n + after;
    assert total == 7 * (-((w - 6) / 7) - (6 - w - n) / 7);
    assert before == o % 7;
  }

  /** The run lengths: fewer than a week on each side, and a whole number of weeks in all. */
  lemma RunLengths(y: int, m: int)
    requires 1 <= m <= 12
    ensures 0 <= LeadingDays(y, m) < 7 && 0 <= TrailingDays(y, m) < 7
    ensures LeadingDays(y, m) == Ordinal(Date(y, m, 1)) % 7
    ensures (LeadingDays(y, m) + DaysInMonth(y, m) + TrailingDays(y, m)) % 7 == 0
    ensures 28 <= LeadingDays(y, m) + DaysInMonth(y, m) + TrailingDays(y, m) <= 42
  {
    RunArithmetic(Ordinal(Date(y, m, 1)), DaysInMonth(y, m));
  }

  /** Within a month, the ordinal grows with the day. */
  lemma OrdinalInMonth(y: int, m: int, d: int)
    requires 1 <= m <= 12
    ensures Ordinal(Date(y, m, d)) == Ordinal(Date(y, m, 1)) + d - 1
  {
  }

  /** The leading run: valid days of another month, ending the day before day 1. */
  lemma LeadRunOrdinals(y: int, m: int)
    requires 1 <= m <= 12
    ensures var lead, o, before := LeadRun(y, m), Ordinal(Date(y, m, 1)), LeadingDays(y, m);
      && |lead| == before
      && forall k | 0 <= k < |lead| :: ValidDate(lead[k]) && Ordinal(lead[k]) == o - before + k && lead[k].month != m
  {
    RunLengths(y, m);
    var before, prev := LeadingDays(y, m), FirstOfPrevMonth(Date(y, m, 1));
    var prevLength := DaysInMonth(prev.year, prev.month);
    var lastOfPrev := Date(prev.year, prev.month, prevLength);
    assert NextDay(lastOfPrev) == Date(y, m, 1);
    NextDayOrdinal(lastOfPrev);
    var lead := LeadRun(y, m);
    forall k | 0 <= k < |lead|
      ensures ValidDate(lead[k]) && Ordinal(lead[k]) == Ordinal(lastOfPrev) - before + 1 + k && lead[k].month != m
    {
      OrdinalInMonth(prev.year, prev.month, prevLength - before + 1 + k);
      OrdinalInMonth(prev.year, prev.month, prevLength);
    }
  }

  /** The month's own run: day k + 1 at position k. */
  lemma OwnRunOrdinals(y: int, m: int)
    requires 1 <= m <= 12
    ensures var own, o := OwnRun(y, m), Ordinal(Date(y, m, 1));
      && |own| == DaysInMonth(y, m)
      && forall k | 0 <= k < |own| :: own[k] == Date(y, m, k + 1) && ValidDate(own[k]) && Ordinal(own[k]) == o + k
  {
    var own := OwnRun(y, m);
    forall k | 0 <= k < |own|
      ensures own[k] == Date(y, m, k + 1) && ValidDate(own[k]) && Ordinal(own[k]) == Ordinal(Date(y, m, 1)) + k
    {
      OrdinalInMonth(y, m, k + 1);
    }
  }

  /** The trailing run: valid days of another month, from the day after the last day. */
  lemma TailRunOrdinals(y: int, m: int)
    requires 1 <= m <= 12
    ensures var tail, o, n := TailRun(y, m), Ordinal(Date(y, m, 1)), DaysInMonth(y, m);
      && |tail| == TrailingDays(y, m)
      && forall k | 0 <= k < |tail| :: ValidDate(tail[k]) && Ordinal(tail[k]) == o + n + k && tail[k].month != m
  {
    RunLengths(y, m);
    var n, next := DaysInMonth(y, m), FirstOfNextMonth(Date(y, m, 1));
    var lastOfMonth := Date(y, m, n);
    assert NextDay(lastOfMonth) == Date(next.year, next.month, 1);
    NextDayOrdinal(lastOfMonth);
    OrdinalInMonth(y, m, n);
    var tail := TailRun(y, m);
    forall k | 0 <= k < |tail|
      ensures ValidDate(tail[k]) && Ordinal(tail[k]) == Ordinal(Date(next.year, next.month, 1)) + k && tail[k].month != m
    {
      OrdinalInMonth(next.year, next.month, k + 1);
    }
  }

  /** Indexing into three runs laid end to end. */
  lemma ThreeRuns<T>(a: seq<T>, b: seq<T>, c: seq<T>, j: int)
    requires 0 <= j < |a| + |b| + |c|
    ensures j < |a| ==> (a + b + c)[j] == a[j]
    ensures |a| <= j < |a| + |b| ==> (a + b + c)[j] == b[j - |a|]
    ensures |a| + |b| <= j ==> (a + b + c)[j] == c[j - |a| - |b|]
  {
  }

  /** Each date of the run is valid and one day after the previous, starting `days_before` days before day 1. */
  lemma MonthDatesOrdinals(y: int, m: int)
    requires 1 <= m <= 12
    ensures var dates := MonthDates(y, m);
      && |dates| == LeadingDays(y, m) + DaysInMonth(y, m) + TrailingDays(y, m)
      && (forall j | 0 <= j < |dates| ::
            ValidDate(dates[j]) && Ordinal(dates[j]) == Ordinal(Date(y, m, 1)) - LeadingDays(y, m) + j)
      && (forall j | 0 <= j < |dates| ::
            (dates[j].month == m <==> LeadingDays(y, m) <= j < LeadingDays(y, m) + DaysInMonth(y, m)))
      && (forall j | LeadingDays(y, m) <= j < LeadingDays(y, m) + DaysInMonth(y, m) ::
            dates[j] == Date(y, m, j - LeadingDays(y, m) + 1))
  {
    LeadRunOrdinals(y, m);
    OwnRunOrdinals(y, m);
    TailRunOrdinals(y, m);
    var lead, own, tail := LeadRun(y, m), OwnRun(y, m), TailRun(y, m);
    var before, n, o := LeadingDays(y, m), DaysInMonth(y, m), Ordinal(Date(y, m, 1));
    var dates := MonthDates(y, m);
    forall j | 0 <= j < |dates|
      ensures ValidDate(dates[j]) && Ordinal(dates[j]) == o - before + j
      ensures dates[j].month == m <==> before <= j < before + n
      ensures before <= j < before + n ==> dates[j] == Date(y, m, j - before + 1)
    {
      ThreeRuns(lead, own, tail, j);
    }
  }

  /** The grid has four to six rows of seven, read off the run of dates row by row. */
  lemma GridRows(y: int, m: int)
    requires 1 <= m <= 12
    ensures var weeks, dates := MonthDatesCalendar(y, m), MonthDates(y, m);
      && 4 <= |weeks| <= 6 && |dates| == 7 * |weeks|
      && (forall i | 0 <= i < |weeks| :: |weeks[i]| == 7)
      && (forall i, k | 0 <= i < |weeks| && 0 <= k < 7 :: weeks[i][k] == dates[7 * i + k])
  {
    RunLengths(y, m);
    MonthDatesOrdinals(y, m);
    var dates := MonthDates(y, m);
    var weeks := MonthDatesCalendar(y, m);
    forall i, k | 0 <= i < |weeks| && 0 <= k < 7
      ensures weeks[i][k] == dates[7 * i + k]
    {
      assert weeks[i] == dates[7 * i .. 7 * i + 7];
    }
  }

  lemma ShiftByWeeks(q: int, r: int)
    ensures (7 * q + r) % 7 == r % 7
  {
  }

  /** Rows of seven cut from a run of consecutive days that starts on a Sunday. */
  lemma WeeksOfRun(dates: seq<Date>, weeks: seq<seq<Date>>, q: int)
    requires |weeks| >= 1 && |dates| == 7 * |weeks|
    requires forall i | 0 <= i < |weeks| :: |weeks[i]| == 7
    requires forall i, k | 0 <= i < |weeks| && 0 <= k < 7 :: weeks[i][k] == dates[7 * i + k]
    requires forall j | 0 <= j < |dates| :: ValidDate(dates[j]) && Ordinal(dates[j]) == 7 * q + j
    ensures forall i, k | 0 <= i < |weeks| && 0 <= k < 7 ::
      && ValidDate(weeks[i][k])
      && Ordinal(weeks[i][k]) == 7 * q + 7 * i + k
      && Weekday(weeks[i][k]) == (Sunday + k) % 7
  {
    forall i, k | 0 <= i < |weeks| && 0 <= k < 7
      ensures ValidDate(weeks[i][k]) && Ordinal(weeks[i][k]) == 7 * q + 7 * i + k
      ensures Weekday(weeks[i][k]) == (Sunday + k) % 7
    {
      assert weeks[i][k] == dates[7 * i + k];
      ShiftByWeeks(q + i, k + 6);
    }
  }

  /** Every cell is a valid date, one day after its left neighbour, and column k falls on weekday Sunday + k. */
  lemma GridDates(y: int, m: int)
    requires 1 <= m <= 12
    ensures var weeks := MonthDatesCalendar(y, m);
      && |weeks| >= 1 && |weeks[0]| == 7
      && forall i, k | 0 <= i < |weeks| && 0 <= k < 7 ::
           && |weeks[i]| == 7
           && ValidDate(weeks[i][k])
           && Ordinal(weeks[i][k]) == Ordinal(weeks[0][0]) + 7 * i + k
           && Weekday(weeks[i][k]) == (Sunday + k) % 7
  {
    RunLengths(y, m);
    MonthDatesOrdinals(y, m);
    GridRows(y, m);
    var o := Ordinal(Date(y, m, 1));
    assert o - LeadingDays(y, m) == 7 * (o / 7);
    WeeksOfRun(MonthDates(y, m), MonthDatesCalendar(y, m), o / 7);
  }

  /** A cell carrying the grid's month number is that month's day at the cell's position. */
  lemma GridOwnMonth(y: int, m: int)
    requires 1 <= m <= 12
    ensures var weeks := MonthDatesCalendar(y, m);
      forall i, k | 0 <= i < |weeks| && 0 <= k < |weeks[i]| ::
        weeks[i][k].month == m ==> weeks[i][k] == Date(y, m, 7 * i + k - LeadingDays(y, m) + 1)
  {
    MonthDatesOrdinals(y, m);
    GridRows(y, m);
  }

  /** Day d of the month sits at position LeadingDays + d - 1: day 1 in the first row, the last day in the last. */
  lemma GridDayPositions(y: int, m: int)
    requires 1 <= m <= 12
    ensures var weeks := MonthDatesCalendar(y, m);
      && (forall d | 1 <= d <= DaysInMonth(y, m) ::
            && 0 <= Position(y, m, d) < 7 * |weeks|
            && |weeks[Position(y, m, d) / 7]| == 7
            && weeks[Position(y, m, d) / 7][Position(y, m, d) % 7] == Date(y, m, d))
      && Position(y, m, 1) / 7 == 0 && Position(y, m, DaysInMonth(y, m)) / 7 == |weeks| - 1
  {
    RunLengths(y, m);
    MonthDatesOrdinals(y, m);
    GridRows(y, m);
    var weeks := MonthDatesCalendar(y, m);
    forall d | 1 <= d <= DaysInMonth(y, m)
      ensures 0 <= Position(y, m, d) < 7 * |weeks| && |weeks[Position(y, m, d) / 7]| == 7
      ensures weeks[Position(y, m, d) / 7][Position(y, m, d) % 7] == Date(y, m, d)
    {
      var p := Position(y, m, d);
      assert p == 7 * (p / 7) + p % 7;
    }
  }
}
