/**
 * The calendar view of the web application (`build_calendar_markup`): the
 * events are bucketed by date, and every month from the month of `begin_date`
 * to the month of `end_date` becomes a section holding its Sunday-first grid of
 * week rows, each cell tagged `other-month` and `has-event` and carrying the
 * event lines shown in it. The grid is modelled as data; the HTML text around
 * it is not.
 */
module CalendarView {
  import opened Wrappers
  import opened Floats
  import opened Dates
  import opened Timestamps
  import opened MonthGrid
  import LowTides

  /** An event dictionary as the calendar reads it: "dt" may be absent, and "height" absent or not a number. */
  datatype Entry = Entry(dt: Option<PyDateTime>, height: Option<Float>)

  /** The dictionaries the low-tide filter emits always carry both. */
  function EntryOf(e: LowTides.TideEvent): Entry {
    Entry(Some(e.dt), Some(e.height))
  }

  /** One `<td>`: its date, its `other-month` and `has-event` classes, and its event lines. */
  datatype Cell = Cell(date: Date, otherMonth: bool, hasEvent: bool, lines: seq<string>)

  /** One `<section class="month">`: its heading's month and year and its week rows. */
  datatype MonthSection = MonthSection(year: int, month: int, weeks: seq<seq<Cell>>)

  /** The markup: the month sections, or the "No matching events found." paragraph when there are none. */
  datatype Markup = NoMatchingEvents | Months(sections: seq<MonthSection>)

  predicate OnDate(e: Entry, d: Date) {
    e.dt.Some? && DateOf(e.dt.value) == d
  }

  /** The entries dated d, in input order. */
  function EventsOn(events: seq<Entry>, d: Date): seq<Entry> {
    if events == [] then []
    else
      var e := events[|events| - 1];
      EventsOn(events[..|events| - 1], d) + (if OnDate(e, d) then [e] else [])
  }

  /** `byDate` holds exactly the dates with events, each under the list of its events. */
  ghost predicate Buckets(byDate: map<Date, seq<Entry>>, events: seq<Entry>) {
    && (forall d :: d in byDate <==> EventsOn(events, d) != [])
    && (forall d | d in byDate :: byDate[d] == EventsOn(events, d))
  }

  /** `events_by_date`: a defaultdict(list) filled with every dated event under `dt.date()`. */
  method BucketByDate(events: seq<Entry>) returns (byDate: map<Date, seq<Entry>>)
    ensures forall d :: d in byDate <==> EventsOn(events, d) != []
    ensures forall d | d in byDate :: byDate[d] == EventsOn(events, d)
  {
    byDate := map[];
    for i := 0 to |events|
      invariant forall d :: d in byDate <==> EventsOn(events[..i], d) != []
      invariant forall d | d in byDate :: byDate[d] == EventsOn(events[..i], d)
    {
      var ev := events[i];
      assert events[..i + 1][..i] == events[..i];
      if ev.dt.None? {
        continue;
      }
      var day := DateOf(ev.dt.value);
      if day in byDate {
        byDate := byDate[day := byDate[day] + [ev]];
      } else {
        byDate := byDate[day := [ev]];
      }
    }
    assert events[..|events|] == events;
  }

  /** `f"{time_label}  {ev_height:.2f} ft"`, with the `:.2f` rendering supplied as `fmt`. */
  function EventLine(dt: PyDateTime, height: Float, fmt: Float -> string): string {
    TimeLabel(dt) + "  " + fmt(height) + " ft"
  }

  /** The lines of a cell's events, skipping those without a numeric height or a date-time. */
  function EventLines(evs: seq<Entry>, fmt: Float -> string): seq<string> {
    if evs == [] then []
    else
      var e := evs[|evs| - 1];
      EventLines(evs[..|evs| - 1], fmt)
        + (if e.height.None? || e.dt.None? then [] else [EventLine(e.dt.value, e.height.value, fmt)])
  }

  /** The `entries` loop of one cell. */
  method EventEntries(evs: seq<Entry>, fmt: Float -> string) returns (entries: seq<string>)
    ensures entries == EventLines(evs, fmt)
  {
    entries := [];
    for j := 0 to |evs|
      invariant entries == EventLines(evs[..j], fmt)
    {
      var ev := evs[j];
      assert evs[..j + 1][..j] == evs[..j];
      if ev.height.None? || ev.dt.None? {
        continue;
      }
      entries := entries + [EventLine(ev.dt.value, ev.height.value, fmt)];
    }
    assert evs[..|evs|] == evs;
  }

  /** The cell of `day` in the section of `month`. */
  function CellFor(day: Date, month: int, begin: Date, end: Date, events: seq<Entry>, fmt: Float -> string): Cell {
    var shown := DateLe(begin, day) && DateLe(day, end) && EventsOn(events, day) != [];
    Cell(day, day.month != month, shown, if shown then EventLines(EventsOn(events, day), fmt) else [])
  }

  function RowCells(week: seq<Date>, month: int, begin: Date, end: Date, events: seq<Entry>, fmt: Float -> string): seq<Cell> {
    seq(|week|, k requires 0 <= k < |week| => CellFor(week[k], month, begin, end, events, fmt))
  }

  function GridCells(weeks: seq<seq<Date>>, month: int, begin: Date, end: Date, events: seq<Entry>, fmt: Float -> string): seq<seq<Cell>> {
    seq(|weeks|, i requires 0 <= i < |weeks| => RowCells(weeks[i], month, begin, end, events, fmt))
  }

  /** The section of the month starting at `first`. */
  function SectionFor(first: Date, begin: Date, end: Date, events: seq<Entry>, fmt: Float -> string): MonthSection
    requires 1 <= first.month <= 12
  {
    MonthSection(first.year, first.month,
      GridCells(MonthDatesCalendar(first.year, first.month), first.month, begin, end, events, fmt))
  }

  /** The first day of the i-th month from `begin`'s month: a first of month exactly i months later. */
  function MonthStart(begin: Date, i: nat): (s: Date)
    requires 1 <= begin.month <= 12
    ensures 1 <= s.month <= 12 && s.day == 1
    ensures MonthIndex(s) == MonthIndex(begin) + i
  {
    if i == 0 then Date(begin.year, begin.month, 1) else FirstOfNextMonth(MonthStart(begin, i - 1))
  }

  /** How many months the loop visits: from `begin`'s month to `end`'s month inclusive, or none. */
  function MonthSpan(begin: Date, end: Date): nat {
    var n := MonthIndex(end) - MonthIndex(begin) + 1;
    if n <= 0 then 0 else n
  }

  /** The sections of the first n months from `begin`'s month, in order. */
  function Sections(events: seq<Entry>, begin: Date, end: Date, fmt: Float -> string, n: nat): (r: seq<MonthSection>)
    requires 1 <= begin.month <= 12
    ensures |r| == n
    ensures forall i | 0 <= i < n :: r[i] == SectionFor(MonthStart(begin, i), begin, end, events, fmt)
  {
    if n == 0 then []
    else Sections(events, begin, end, fmt, n - 1) + [SectionFor(MonthStart(begin, n - 1), begin, end, events, fmt)]
  }

  /** The calendar the markup draws. */
  function Calendar(events: seq<Entry>, begin: Date, end: Date, fmt: Float -> string): Markup
    requires 1 <= begin.month <= 12
  {
    var n := MonthSpan(begin, end);
    if n == 0 then NoMatchingEvents else Months(Sections(events, begin, end, fmt, n))
  }

  /** The cell of one day, looked up in the `events_by_date` buckets. */
  method DayCell(day: Date, month: int, begin: Date, end: Date, events: seq<Entry>,
                 byDate: map<Date, seq<Entry>>, fmt: Float -> string)
    returns (cell: Cell)
    requires Buckets(byDate, events)
    ensures cell == CellFor(day, month, begin, end, events, fmt)
  {
    var otherMonth := day.month != month;
    var hasEvent := false;
    var lines := [];
    if DateLe(begin, day) && DateLe(day, end) && day in byDate {
      hasEvent := true;
      lines := EventEntries(byDate[day], fmt);
    }
    cell := Cell(day, otherMonth, hasEvent, lines);
  }

  /** The cells of one week row. */
  method WeekCells(week: seq<Date>, month: int, begin: Date, end: Date, events: seq<Entry>,
                   byDate: map<Date, seq<Entry>>, fmt: Float -> string)
    returns (cells: seq<Cell>)
    requires Buckets(byDate, events)
    ensures cells == RowCells(week, month, begin, end, events, fmt)
  {
    cells := [];
    for k := 0 to |week|
      invariant cells == RowCells(week[..k], month, begin, end, events, fmt)
    {
      var cell := DayCell(week[k], month, begin, end, events, byDate, fmt);
      cells := cells + [cell];
    }
    assert week[..|week|] == week;
  }

  /** The week rows of one section. */
  method WeekRows(weeks: seq<seq<Date>>, month: int, begin: Date, end: Date, events: seq<Entry>,
                  byDate: map<Date, seq<Entry>>, fmt: Float -> string)
    returns (rows: seq<seq<Cell>>)
    requires Buckets(byDate, events)
    ensures rows == GridCells(weeks, month, begin, end, events, fmt)
  {
    rows := [];
    for i := 0 to |weeks|
      invariant rows == GridCells(weeks[..i], month, begin, end, events, fmt)
    {
      var cells := WeekCells(weeks[i], month, begin, end, events, byDate, fmt);
      rows := rows + [cells];
    }
    assert weeks[..|weeks|] == weeks;
  }

  /** One pass of the month loop: the section of the month starting at `first`. */
  method MonthSectionAt(first: Date, begin: Date, end: Date, events: seq<Entry>,
                        byDate: map<Date, seq<Entry>>, fmt: Float -> string)
    returns (section: MonthSection)
    requires 1 <= first.month <= 12
    requires Buckets(byDate, events)
    ensures section == SectionFor(first, begin, end, events, fmt)
  {
    var weeks := MonthDatesCalendar(first.year, first.month);
    var weekRows := WeekRows(weeks, first.month, begin, end, events, byDate, fmt);
    section := MonthSection(first.year, first.month, weekRows);
  }

  /** On firsts of months, `current <= last_month` compares month indices. */
  lemma FirstsCompareByMonth(a: Date, b: Date)
    requires 1 <= a.month <= 12 && 1 <= b.month <= 12 && a.day == 1 && b.day == 1
    ensures DateLe(a, b) <==> MonthIndex(a) <= MonthIndex(b)
  {
  }

  /** A first of month is determined by its month index. */
  lemma FirstByMonthIndex(a: Date, b: Date)
    requires 1 <= a.month <= 12 && 1 <= b.month <= 12 && a.day == 1 && b.day == 1
    requires MonthIndex(a) == MonthIndex(b)
    ensures a == b
  {
  }

  /** One more pass of the month loop appends the section of the current month and moves to the next month. */
  lemma MonthLoopStep(events: seq<Entry>, begin: Date, end: Date, fmt: Float -> string, n: nat, current: Date, section: MonthSection)
    requires 1 <= begin.month <= 12
    requires current == MonthStart(begin, n)
    requires section == SectionFor(current, begin, end, events, fmt)
    ensures Sections(events, begin, end, fmt, n + 1) == Sections(events, begin, end, fmt, n) + [section]
    ensures FirstOfNextMonth(current) == MonthStart(begin, n + 1)
  {
  }

  /** When the loop stops, it has made one pass per month of the span. */
  lemma MonthLoopExit(begin: Date, lastMonth: Date, n: nat, current: Date)
    requires 1 <= begin.month <= 12
    requires current == MonthStart(begin, n)
    requires n == 0 || MonthIndex(current) <= MonthIndex(lastMonth) + 1
    requires MonthIndex(lastMonth) < MonthIndex(current)
    ensures n == MonthSpan(begin, lastMonth)
  {
  }

  /** The end of a pass: `current` moves to the first of the month after its own, December rolling over to January. */
  method AdvanceMonth(current: Date) returns (next: Date)
    requires 1 <= current.month <= 12
    ensures 1 <= next.month <= 12 && next.day == 1
    ensures MonthIndex(next) == MonthIndex(current) + 1
  {
    if current.month == 12 {
      next := Date(current.year + 1, 1, 1);
    } else {
      next := Date(current.year, current.month + 1, 1);
    }
  }

  /** The `while current <= last_month` loop: the sections of every month from `begin`'s to `end`'s. */
  method MonthLoop(events: seq<Entry>, begin: PyDate, end: PyDate, byDate: map<Date, seq<Entry>>, fmt: Float -> string)
    returns (sections: seq<MonthSection>)
    requires Buckets(byDate, events)
    ensures sections == Sections(events, begin, end, fmt, MonthSpan(begin, end))
  {
    var current := Date(begin.year, begin.month, 1);
    var lastMonth := Date(end.year, end.month, 1);
    sections := [];
    FirstsCompareByMonth(current, lastMonth);
    while DateLe(current, lastMonth)
      invariant current == MonthStart(begin, |sections|)
      invariant sections == [] || MonthIndex(current) <= MonthIndex(lastMonth) + 1
      invariant sections == Sections(events, begin, end, fmt, |sections|)
      decreases MonthIndex(lastMonth) - MonthIndex(current)
    {
      var section := MonthSectionAt(current, begin, end, events, byDate, fmt);
      MonthLoopStep(events, begin, end, fmt, |sections|, current, section);
      sections := sections + [section];
      current := AdvanceMonth(current);
      FirstByMonthIndex(current, MonthStart(begin, |sections|));
      FirstsCompareByMonth(current, lastMonth);
    }
    MonthLoopExit(begin, lastMonth, |sections|, current);
  }

  /** `build_calendar_markup(events, begin_date, end_date)`. */
  method BuildCalendarMarkup(events: seq<Entry>, begin: PyDate, end: PyDate, fmt: Float -> string)
    returns (markup: Markup)
    ensures markup == Calendar(events, begin, end, fmt)
  {
    var byDate := BucketByDate(events);
    var sections := MonthLoop(events, begin, end, byDate, fmt);
    if sections == [] {
      markup := NoMatchingEvents;
    } else {
      markup := Months(sections);
    }
  }
}
