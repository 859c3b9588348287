/**
 * What the calendar markup promises: one section per month of the date range,
 * in calendar order; Sunday-first grids of whole weeks; every date of the range
 * shown in exactly one cell of its own month, carrying all of its events; and
 * the `has-event` mark, as the code computes it, also on the neighbouring
 * months' days that fall in the range.
 */
module CalendarProperties {
  import opened Wrappers
  import opened Floats
  import opened Text
  import opened Dates
  import opened Timestamps
  import opened MonthGrid
  import opened CalendarView

  /** The entries kept for a date are exactly the events dated that day, with their multiplicities and nothing else. */
  lemma {:induction false} EventsOnIsDateFilter(events: seq<Entry>, d: Date)
    ensures forall e :: multiset(EventsOn(events, d))[e] == if OnDate(e, d) then multiset(events)[e] else 0
  {
    if events != [] {
      var init, last := events[..|events| - 1], events[|events| - 1];
      assert events == init + [last];
      EventsOnIsDateFilter(init, d);
    }
  }

  /** `line` is the line of one of `evs` that has a date-time and a numeric height. */
  predicate LineOfSome(line: string, evs: seq<Entry>, fmt: Float -> string) {
    exists e | e in evs && e.dt.Some? && e.height.Some? :: line == EventLine(e.dt.value, e.height.value, fmt)
  }

  /** A line of some event of a prefix is a line of some event of the whole list. */
  lemma LineOfSomeGrows(line: string, init: seq<Entry>, last: Entry, fmt: Float -> string)
    requires LineOfSome(line, init, fmt)
    ensures LineOfSome(line, init + [last], fmt)
  {
    var e :| e in init && e.dt.Some? && e.height.Some? && line == EventLine(e.dt.value, e.height.value, fmt);
    assert e in init + [last];
  }

  /** A cell lists at most one line per event. */
  lemma {:induction false} EventLinesBound(evs: seq<Entry>, fmt: Float -> string)
    ensures |EventLines(evs, fmt)| <= |evs|
  {
    if evs != [] {
      EventLinesBound(evs[..|evs| - 1], fmt);
    }
  }

  /** A cell lists at most one line per event, and each line is the line of one of its events with a date-time and a numeric height. */
  lemma {:induction false} EventLinesFromEvents(evs: seq<Entry>, fmt: Float -> string)
    ensures |EventLines(evs, fmt)| <= |evs|
    ensures forall line | line in EventLines(evs, fmt) :: LineOfSome(line, evs, fmt)
  {
    EventLinesBound(evs, fmt);
    if evs != [] {
      var init, last := evs[..|evs| - 1], evs[|evs| - 1];
      EventLinesFromEvents(init, fmt);
      assert evs == init + [last];
      var tail := if last.height.None? || last.dt.None? then [] else [EventLine(last.dt.value, last.height.value, fmt)];
      assert EventLines(evs, fmt) == EventLines(init, fmt) + tail;
      forall line | line in EventLines(evs, fmt)
        ensures LineOfSome(line, evs, fmt)
      {
        if line in EventLines(init, fmt) {
          LineOfSomeGrows(line, init, last, fmt);
        } else {
          assert line in tail;
          assert last in evs;
        }
      }
    }
  }

  /** When every event has a date-time and a numeric height, as the filter's events do, the cell lists one line per event, in order. */
  lemma {:induction false} EventLinesOnePerEvent(evs: seq<Entry>, fmt: Float -> string)
    requires forall j | 0 <= j < |evs| :: evs[j].dt.Some? && evs[j].height.Some?
    ensures |EventLines(evs, fmt)| == |evs|
    ensures forall j | 0 <= j < |evs| :: EventLines(evs, fmt)[j] == EventLine(evs[j].dt.value, evs[j].height.value, fmt)
  {
    if evs != [] {
      var init := evs[..|evs| - 1];
      EventLinesOnePerEvent(init, fmt);
    }
  }

  /** The text of one event line: the 12-hour label without a leading zero, two spaces, the height, " ft". */
  lemma EventLineText(dt: PyDateTime, height: Float, fmt: Float -> string)
    ensures EventLine(dt, height, fmt)
      == NatToString(Hour12(dt.hour)) + ":" + Pad(dt.minute, 2) + " " + Meridiem(dt.hour) + "  " + fmt(height) + " ft"
    ensures 1 <= Hour12(dt.hour) <= 12 && (Meridiem(dt.hour) == "AM" <==> dt.hour < 12)
  {
    TimeLabelForm(dt);
  }

  /** One section per month from `begin`'s month to `end`'s, each the month after the one before; none when `end`'s month precedes `begin`'s. */
  lemma CalendarMonths(events: seq<Entry>, begin: PyDate, end: PyDate, fmt: Float -> string)
    ensures var c := Calendar(events, begin, end, fmt);
      && (c.NoMatchingEvents? <==> MonthIndex(end) < MonthIndex(begin))
      && (DateLe(begin, end) ==> c.Months?)
      && (c.Months? ==>
            var s := c.sections;
            && |s| == MonthIndex(end) - MonthIndex(begin) + 1
            && s[0].year == begin.year && s[0].month == begin.month
            && s[|s| - 1].year == end.year && s[|s| - 1].month == end.month
            && (forall i | 0 <= i < |s| :: 1 <= s[i].month <= 12 && MonthIndex(Date(s[i].year, s[i].month, 1)) == MonthIndex(begin) + i)
            && (forall i | 0 <= i < |s| - 1 ::
                  Date(s[i + 1].year, s[i + 1].month, 1) == FirstOfNextMonth(Date(s[i].year, s[i].month, 1))))
  {
    var c := Calendar(events, begin, end, fmt);
    if c.Months? {
      var s := c.sections;
      var n := MonthSpan(begin, end);
      var last := MonthStart(begin, n - 1);
      assert s[n - 1] == SectionFor(last, begin, end, events, fmt);
      assert last.year == end.year;
      forall i | 0 <= i < |s| - 1
        ensures Date(s[i + 1].year, s[i + 1].month, 1) == FirstOfNextMonth(Date(s[i].year, s[i].month, 1))
      {
        assert s[i] == SectionFor(MonthStart(begin, i), begin, end, events, fmt);
        assert s[i + 1] == SectionFor(MonthStart(begin, i + 1), begin, end, events, fmt);
      }
    }
  }

  /** The cell at row w, column k of section i, as `CellFor` computes it from the grid date there. */
  lemma CellAt(events: seq<Entry>, begin: PyDate, end: PyDate, fmt: Float -> string, i: int, w: int, k: int)
    requires 0 <= i < MonthSpan(begin, end)
    requires var f := MonthStart(begin, i);
      0 <= w < |MonthDatesCalendar(f.year, f.month)| && 0 <= k < |MonthDatesCalendar(f.year, f.month)[w]|
    ensures var f := MonthStart(begin, i);
      var s := Calendar(events, begin, end, fmt).sections[i];
      && s.year == f.year && s.month == f.month
      && |s.weeks| == |MonthDatesCalendar(f.year, f.month)| && |s.weeks[w]| == |MonthDatesCalendar(f.year, f.month)[w]|
      && s.weeks[w][k] == CellFor(MonthDatesCalendar(f.year, f.month)[w][k], f.month, begin, end, events, fmt)
  {
    var f := MonthStart(begin, i);
    var s := Calendar(events, begin, end, fmt).sections[i];
    assert s == SectionFor(f, begin, end, events, fmt);
    var grid := MonthDatesCalendar(f.year, f.month);
    assert s.weeks[w] == RowCells(grid[w], f.month, begin, end, events, fmt);
  }

  /** Section i has the year, the month and the row lengths of the grid of the i-th month start. */
  lemma SectionShape(events: seq<Entry>, begin: PyDate, end: PyDate, fmt: Float -> string, i: int)
    requires 0 <= i < MonthSpan(begin, end)
    ensures var f := MonthStart(begin, i);
      var s := Calendar(events, begin, end, fmt).sections[i];
      var grid := MonthDatesCalendar(f.year, f.month);
      && s.year == f.year && s.month == f.month && |s.weeks| == |grid|
      && forall w | 0 <= w < |grid| :: |s.weeks[w]| == |grid[w]|
  {
    var f := MonthStart(begin, i);
    var s := Calendar(events, begin, end, fmt).sections[i];
    assert s == SectionFor(f, begin, end, events, fmt);
  }

  /**
   * Each section is its month's Sunday-first grid: four to six rows of seven
   * consecutive days, column k on weekday Sunday + k, with cells tagged
   * `other-month` exactly when their date lies in another month and
   * `has-event` exactly when the date is in the range and has events, whose
   * lines the cell then lists.
   */
  lemma SectionGrid(events: seq<Entry>, begin: PyDate, end: PyDate, fmt: Float -> string, i: int)
    requires 0 <= i < MonthSpan(begin, end)
    ensures var s := Calendar(events, begin, end, fmt).sections[i];
      && 4 <= |s.weeks| <= 6
      && forall w, k | 0 <= w < |s.weeks| && 0 <= k < 7 ::
           && |s.weeks[w]| == 7
           && ValidDate(s.weeks[w][k].date)
           && Weekday(s.weeks[w][k].date) == (Sunday + k) % 7
           && Ordinal(s.weeks[w][k].date) == Ordinal(s.weeks[0][0].date) + 7 * w + k
           && (s.weeks[w][k].otherMonth <==> s.weeks[w][k].date.month != s.month)
           && (s.weeks[w][k].hasEvent <==>
                 DateLe(begin, s.weeks[w][k].date) && DateLe(s.weeks[w][k].date, end) && EventsOn(events, s.weeks[w][k].date) != [])
           && s.weeks[w][k].lines == (if s.weeks[w][k].hasEvent then EventLines(EventsOn(events, s.weeks[w][k].date), fmt) else [])
  {
    var f := MonthStart(begin, i);
    var s := Calendar(events, begin, end, fmt).sections[i];
    var grid := MonthDatesCalendar(f.year, f.month);
    GridRows(f.year, f.month);
    GridDates(f.year, f.month);
    CellAt(events, begin, end, fmt, i, 0, 0);
    forall w, k | 0 <= w < |s.weeks| && 0 <= k < 7
      ensures |s.weeks[w]| == 7 && s.weeks[w][k].date == grid[w][k]
      ensures s.weeks[w][k].otherMonth <==> s.weeks[w][k].date.month != s.month
      ensures s.weeks[w][k].hasEvent <==>
        DateLe(begin, s.weeks[w][k].date) && DateLe(s.weeks[w][k].date, end) && EventsOn(events, s.weeks[w][k].date) != []
      ensures s.weeks[w][k].lines == (if s.weeks[w][k].hasEvent then EventLines(EventsOn(events, s.weeks[w][k].date), fmt) else [])
    {
      CellAt(events, begin, end, fmt, i, w, k);
    }
  }

  /** Two firsts of months with the same month index are the same date. */
  lemma SameMonth(a: Date, b: Date)
    requires 1 <= a.month <= 12 && 1 <= b.month <= 12
    requires MonthIndex(a) == MonthIndex(b)
    ensures a.year == b.year && a.month == b.month
  {
  }

  /** The home cell of a date of the range: section, row and column of the date in its own month's grid. */
  lemma HomeCellAt(events: seq<Entry>, begin: PyDate, end: PyDate, fmt: Float -> string, d: Date) returns (i: int, w: int, k: int)
    requires ValidDate(d) && DateLe(begin, d) && DateLe(d, end)
    ensures Calendar(events, begin, end, fmt).Months?
    ensures var s := Calendar(events, begin, end, fmt).sections;
      && 0 <= i < |s| && 0 <= w < |s[i].weeks| && 0 <= k < |s[i].weeks[w]|
      && s[i].weeks[w][k] == CellFor(d, d.month, begin, end, events, fmt)
    ensures i == MonthIndex(d) - MonthIndex(begin)
  {
    CalendarMonths(events, begin, end, fmt);
    i := MonthIndex(d) - MonthIndex(begin);
    var f := MonthStart(begin, i);
    SameMonth(f, d);
    GridDayPositions(d.year, d.month);
    var p := Position(d.year, d.month, d.day);
    w, k := p / 7, p % 7;
    CellAt(events, begin, end, fmt, i, w, k);
  }

  /** Every date of the range has a cell of its own month, and it carries all of that date's events. */
  lemma HomeCellExists(events: seq<Entry>, begin: PyDate, end: PyDate, fmt: Float -> string, d: Date)
    requires ValidDate(d) && DateLe(begin, d) && DateLe(d, end)
    ensures Calendar(events, begin, end, fmt).Months?
    ensures var s := Calendar(events, begin, end, fmt).sections;
      exists i, w, k | 0 <= i < |s| && 0 <= w < |s[i].weeks| && 0 <= k < |s[i].weeks[w]| ::
        && s[i].weeks[w][k].date == d && !s[i].weeks[w][k].otherMonth
        && (s[i].weeks[w][k].hasEvent <==> EventsOn(events, d) != [])
        && s[i].weeks[w][k].lines == EventLines(EventsOn(events, d), fmt)
  {
    var i, w, k := HomeCellAt(events, begin, end, fmt, d);
    var c := Calendar(events, begin, end, fmt).sections[i].weeks[w][k];
    assert c.date == d && !c.otherMonth;
    assert c.hasEvent <==> EventsOn(events, d) != [];
  }

  /** A cell of its own month showing date d sits in d's month's section, at d's grid position: there is only one. */
  lemma HomeCellPosition(events: seq<Entry>, begin: PyDate, end: PyDate, fmt: Float -> string, d: Date, i: int, w: int, k: int)
    requires Calendar(events, begin, end, fmt).Months?
    requires var s := Calendar(events, begin, end, fmt).sections;
      0 <= i < |s| && 0 <= w < |s[i].weeks| && 0 <= k < |s[i].weeks[w]|
    requires var c := Calendar(events, begin, end, fmt).sections[i].weeks[w][k];
      c.date == d && !c.otherMonth
    ensures 1 <= d.month <= 12
    ensures i == MonthIndex(d) - MonthIndex(begin)
    ensures w == Position(d.year, d.month, d.day) / 7 && k == Position(d.year, d.month, d.day) % 7
  {
    var f := MonthStart(begin, i);
    var grid := MonthDatesCalendar(f.year, f.month);
    SectionShape(events, begin, end, fmt, i);
    CellAt(events, begin, end, fmt, i, w, k);
    GridRows(f.year, f.month);
    GridOwnMonth(f.year, f.month);
    assert grid[w][k] == d;
    assert d == Date(f.year, f.month, 7 * w + k - LeadingDays(f.year, f.month) + 1);
  }

  /**
   * The code marks `has-event` on every in-range cell with events, the
   * neighbouring months' days included: such a date is then marked in two
   * sections, its own and the neighbour's.
   */
  lemma SpilledDaysShowEvents(events: seq<Entry>, begin: PyDate, end: PyDate, fmt: Float -> string, i: int, w: int, k: int)
    requires 0 <= i < MonthSpan(begin, end)
    requires var s := Calendar(events, begin, end, fmt).sections[i];
      0 <= w < |s.weeks| && 0 <= k < |s.weeks[w]|
    requires var c := Calendar(events, begin, end, fmt).sections[i].weeks[w][k];
      c.otherMonth && DateLe(begin, c.date) && DateLe(c.date, end) && EventsOn(events, c.date) != []
    ensures var c := Calendar(events, begin, end, fmt).sections[i].weeks[w][k];
      c.hasEvent && c.lines == EventLines(EventsOn(events, c.date), fmt)
      && exists j, w2, k2 | 0 <= j < MonthSpan(begin, end) && j != i
           && 0 <= w2 < |Calendar(events, begin, end, fmt).sections[j].weeks| && 0 <= k2 < |Calendar(events, begin, end, fmt).sections[j].weeks[w2]| ::
           Calendar(events, begin, end, fmt).sections[j].weeks[w2][k2].date == c.date
           && Calendar(events, begin, end, fmt).sections[j].weeks[w2][k2].hasEvent
  {
    var s := Calendar(events, begin, end, fmt).sections;
    var c := s[i].weeks[w][k];
    var f := MonthStart(begin, i);
    SectionShape(events, begin, end, fmt, i);
    CellAt(events, begin, end, fmt, i, w, k);
    GridRows(f.year, f.month);
    GridDates(f.year, f.month);
    var j, w2, k2 := HomeCellAt(events, begin, end, fmt, c.date);
    assert c.date.month != f.month;
    assert 0 <= j < MonthSpan(begin, end) && j != i;
    assert s[j].weeks[w2][k2].date == c.date && s[j].weeks[w2][k2].hasEvent;
  }

  /** With no events, no cell is marked and none lists a line. */
  lemma NoEventsNoMarks(begin: PyDate, end: PyDate, fmt: Float -> string, i: int, w: int, k: int)
    requires 0 <= i < MonthSpan(begin, end)
    requires var s := Calendar([], begin, end, fmt).sections[i];
      0 <= w < |s.weeks| && 0 <= k < |s.weeks[w]|
    ensures var c := Calendar([], begin, end, fmt).sections[i].weeks[w][k];
      !c.hasEvent && c.lines == []
  {
    SectionGrid([], begin, end, fmt, i);
  }
}

module CalendarScenarios {
  import opened Wrappers
  import opened Floats
  import opened Dates
  import opened MonthGrid
  import opened CalendarView
  import opened CalendarProperties
  import LowTides

  /** The filter's events as the calendar reads them. */
  function Entries(events: seq<LowTides.TideEvent>): (r: seq<Entry>)
    ensures |r| == |events|
    ensures forall j | 0 <= j < |r| :: r[j].dt.Some? && r[j].height.Some?
  {
    seq(|events|, j requires 0 <= j < |events| => EntryOf(events[j]))
  }

  /** Every filtered event dated inside the range is listed, with its line, in the cell of its own date. */
  lemma FilteredEventShown(events: seq<LowTides.TideEvent>, begin: PyDate, end: PyDate, fmt: Float -> string, j: int)
    requires 0 <= j < |events|
    requires DateLe(begin, DateOf(events[j].dt)) && DateLe(DateOf(events[j].dt), end)
    ensures var d, s := DateOf(events[j].dt), Calendar(Entries(events), begin, end, fmt).sections;
      exists i, w, k | 0 <= i < |s| && 0 <= w < |s[i].weeks| && 0 <= k < |s[i].weeks[w]| ::
        && s[i].weeks[w][k].date == d && !s[i].weeks[w][k].otherMonth && s[i].weeks[w][k].hasEvent
        && EventLine(events[j].dt, events[j].height, fmt) in s[i].weeks[w][k].lines
  {
    var entries := Entries(events);
    var d := DateOf(events[j].dt);
    var e := entries[j];
    var on := EventsOn(entries, d);
    EventsOnIsDateFilter(entries, d);
    assert multiset(on)[e] == multiset(entries)[e] > 0;
    assert e in on;
    forall x | x in on
      ensures x.dt.Some? && x.height.Some?
    {
      assert multiset(on)[x] > 0;
      assert x in entries;
    }
    EventLinesOnePerEvent(on, fmt);
    var q :| 0 <= q < |on| && on[q] == e;
    assert EventLines(on, fmt)[q] == EventLine(events[j].dt, events[j].height, fmt);
    HomeCellExists(entries, begin, end, fmt, d);
  }

  /**
   * 1 November 2025 falls on a Saturday: it closes the last row of the
   * October grid and opens the first row of November's. With the range
   * October to November and a low tide that morning, both cells are marked.
   */
  lemma NovemberFirstMarkedTwice(fmt: Float -> string)
    ensures var events := [Entry(Some(DateTime(2025, 11, 1, 7, 0, 0)), Some(Finite(-0.5)))];
      var c := Calendar(events, Date(2025, 10, 1), Date(2025, 11, 30), fmt);
      && c.Months? && |c.sections| == 2
      && |c.sections[0].weeks| == 5 && |c.sections[0].weeks[4]| == 7 && |c.sections[1].weeks[0]| == 7
      && c.sections[0].weeks[4][6].date == Date(2025, 11, 1) && c.sections[0].weeks[4][6].otherMonth
      && c.sections[0].weeks[4][6].hasEvent
      && c.sections[1].weeks[0][6].date == Date(2025, 11, 1) && !c.sections[1].weeks[0][6].otherMonth
      && c.sections[1].weeks[0][6].hasEvent
  {
    var events := [Entry(Some(DateTime(2025, 11, 1, 7, 0, 0)), Some(Finite(-0.5)))];
    var begin, end := Date(2025, 10, 1), Date(2025, 11, 30);
    var nov := Date(2025, 11, 1);
    assert Ordinal(Date(2025, 10, 1)) == 739525;
    assert LeadingDays(2025, 10) == 3;
    assert Ordinal(nov) == 739556;
    assert LeadingDays(2025, 11) == 6;
    GridRows(2025, 10);
    GridRows(2025, 11);
    assert MonthDates(2025, 10)[34] == nov;
    assert MonthDates(2025, 11)[6] == nov;
    assert MonthStart(begin, 1) == nov;
    assert EventsOn(events, nov) == events;
    CellAt(events, begin, end, fmt, 0, 4, 6);
    CellAt(events, begin, end, fmt, 1, 0, 6);
  }
}
