# Low tides on a calendar: a verified model

This project models the core of a small tide-prediction tool for NOAA
stations. The tool comes in two forms.

- **The web application** (`src/tides_web/app.py`) has three parts:
  - `filter_low_tides` picks out, from raw high/low extremum records, the low
    tides strictly below a height threshold whose wall-clock hour lies in an
    inclusive window.
  - `build_calendar_markup` lays the events out as month calendars:
    Sunday-first grids of whole weeks, with cells tagged `other-month` and
    `has-event`.
  - `build_stations_options` builds the station picker.
- **The script** (`make_tillamook_neg_lows.py`) runs the same kind of filter
  with a fixed window (8..19) and threshold (0.0 ft). It writes the events as
  an iCalendar file of 30-minute VEVENTs. The layout follows RFC 5545:
  - section 3.6.1 for VEVENT;
  - section 3.8.4.7 for UID;
  - section 3.8.7.2 for DTSTAMP;
  - section 3.3.5, form 3, for local times with a TZID reference.

The model is written in the source's own, imperative form. Each loop of the
source is a Dafny `method` with its loop and invariants, and each method is
proved equal to a specification function. The lemmas then prove the
properties about those functions. The model's modules:

- `LowTides`: `FilterLowTides` against `Selected`.
- `CalendarView`:
  - `BuildCalendarMarkup` against `Calendar`;
  - its month loop `MonthLoop` against `Sections`;
  - the nested loops `MonthSectionAt`, `WeekRows`, `WeekCells`, `DayCell` and
    `EventEntries`;
  - `BucketByDate` against `EventsOn`.
- `CalendarProperties`: properties of the calendar.
- `CalendarScenarios`: how the filter's events appear in the calendar, plus a
  concrete two-section example.
- `Stations`: `BuildStationsOptions` against `Options`.
- `Ics`: `MakeIcs` against `IcsLines`.
- `NegLows`: the script's loop `ScanPredictions` against `ScriptScan`, and
  `RunMain` against `RunScript`.

The modules under them:

- `Dates`:
  - the proleptic Gregorian calendar, with Python's `toordinal` and `weekday`;
  - month stepping;
  - `timedelta(minutes=…)` arithmetic, checked against a minute clock.
- `MonthGrid`: `calendar.Calendar(firstweekday=6).monthdatescalendar`, rebuilt
  from the weekday of the month's first day.
- `Timestamps`:
  - the strict `%Y-%m-%d %H:%M` parse;
  - the `%I:%M %p` label with its leading zero stripped;
  - the `%Y%m%dT%H%M%S` stamp.
- `Text`: decimal digits and padding.
- `Floats`: Python floats with NaN and IEEE `<`.
- `Sequences`: strictly increasing index sequences, used by the subsequence lemmas.
- `Wrappers`: option and result types.

Some library calls the code does not show are passed in as parameters:
- `float()` and `datetime.fromisoformat` are functions returning an option, in
  `LowTides.Parsers`;
- the `:.2f` rendering is a function `fmt`;
- `datetime.utcnow()` is the parameter `now`.

A time zone is only attached with `replace(tzinfo=…)`, and adding a timedelta
to an aware date-time is wall-clock arithmetic. Date-times are therefore naive
wall-clock records.

Two behaviours of the code worth noting:

- **`has-event` on a neighbouring month's day.** One might expect each date of
  the range to be marked in one cell only. The code (app.py:242) marks
  `has-event` on any cell whose date is in the range and has events, and that
  includes the neighbouring months' days in a grid. Such a date is then marked
  in two sections, its own and the neighbour's. The model keeps the code's
  rule:
  - `CalendarProperties.SpilledDaysShowEvents` proves the second marked cell;
  - `CalendarScenarios.NovemberFirstMarkedTwice` shows it for 1 November 2025;
  - `CalendarProperties.HomeCellExists` and `HomeCellPosition` prove what does
    hold: every in-range date appears in exactly one cell *of its own month*,
    and that cell lists its events.
- **The script raises where the web filter skips.** The web filter drops
  malformed records without raising. The script reads `p["t"]` and
  `float(p["v"])` before its type check, and its `fromisoformat` fallback is
  unguarded, so it aborts instead. The model states both behaviours
  (`NegLows.BadHeightAbortsOnlyTheScript`).

## Model

| member | source | states |
|---|---|---|
| LowTides.FilterLowTides | src/tides_web/app.py:45-77 | the loop's output is `Selected`: in input order, the events of the records that pass; every record that fails is skipped and nothing raises |
| LowTides.IsLowExactly | src/tides_web/app.py:55-57 | a record is a low tide iff its type is exactly "l" or "L"; a missing type (default "") is not |
| LowTides.SelectedIsPassingSubsequence | src/tides_web/app.py:54-76 | the output is exactly the passing subsequence: event j comes from the j-th passing record, the source indices strictly increase, and every passing record contributes |
| LowTides.SelectedAppend | src/tides_web/app.py:54-76 | filtering a concatenation gives the concatenation of the filtered parts |
| LowTides.SkippedRecord | src/tides_web/app.py:58-72 | some records leave the output exactly as if they were absent: a non-low type, an unparsable height, a missing or empty "t", a "t" that fails both parsers, or a record that fails the threshold or window |
| LowTides.InvertedWindowSelectsNothing | src/tides_web/app.py:75 | with start_hour > end_hour nothing is selected (no wrap past midnight) |
| LowTides.EmittedEvents | src/tides_web/app.py:62-76 | each emitted event: height strictly below min_level, hour in [start_hour, end_hour], non-empty `t_str` equal to the "t" of some low-tide record, and, for a strict-form text, a date-time whose fields format back to that exact text |
| LowTides.MissingHeightNeverQualifies | src/tides_web/app.py:58-75 | a record without "v" reads `float("nan")` and so never passes the `<` threshold |
| Floats.LessIsStrictOrder | src/tides_web/app.py:75 | float `<` is false whenever NaN is involved and is a strict order otherwise |
| Timestamps.StrictRoundTrip | src/tides_web/app.py:66 | a date-time with zero seconds formatted as `YYYY-MM-DD HH:MM` parses back to itself |
| Timestamps.StrictParseCanonical | src/tides_web/app.py:66 | a text the strict parse accepts is the canonical rendering of its result, with zero seconds |
| Timestamps.TimeLabelForm | src/tides_web/app.py:250 | the label is `<h>:<MM> <AM/PM>` with h = 12-hour value in 1..12, no leading zero, two-digit minutes, and AM iff hour < 12 |
| Timestamps.IcsStampWidth | make_tillamook_neg_lows.py:86-88 | a date-time of years 1..9999 is rendered as exactly 15 characters with `T` at index 8 |
| Text.NatToString | make_tillamook_neg_lows.py:83 | the decimal rendering is non-empty and has no leading zero |
| Text.NatToStringDigits | make_tillamook_neg_lows.py:83 | the decimal rendering consists of digits only |
| Text.ParseNatToString | make_tillamook_neg_lows.py:83 | reading the decimal rendering back gives the number |
| Text.NatToStringInjective | make_tillamook_neg_lows.py:83 | distinct numbers render differently |
| Text.Lower | src/tides_web/app.py:55 | ASCII lower-casing keeps the length (Python's `str.lower()` need not; see Left out) |
| Text.StripLeadingZerosSuffix | src/tides_web/app.py:250 | `lstrip("0")` removes a prefix of '0's only and leaves a suffix of the text that does not start with '0' |
| CalendarView.BucketByDate | src/tides_web/app.py:218-223 | the map holds a date iff some event is dated that day, and its list is `EventsOn`: those events in input order |
| CalendarView.EventEntries | src/tides_web/app.py:244-251 | the entry loop yields `EventLines` of the day's events |
| CalendarView.DayCell | src/tides_web/app.py:238-253 | one cell is `CellFor`: `other-month` iff its month differs, `has-event` iff in range and bucketed, with the entries then listed |
| CalendarView.WeekCells | src/tides_web/app.py:236-259 | the cells of a week are `CellFor` of its days, in order |
| CalendarView.WeekRows | src/tides_web/app.py:234-260 | the rows of a month are the week cells of its grid, in order |
| CalendarView.MonthSectionAt | src/tides_web/app.py:232-269 | one pass of the month loop is the section of that month's grid |
| CalendarView.FirstsCompareByMonth | src/tides_web/app.py:231 | on firsts of months, `current <= last_month` compares the month indices |
| CalendarView.MonthStart | src/tides_web/app.py:270-273 | the i-th month start is a first of month exactly i months after `begin_date`'s month |
| CalendarView.Sections | src/tides_web/app.py:228-269 | n sections, the i-th being the section of the i-th month start |
| CalendarView.AdvanceMonth | src/tides_web/app.py:270-273 | the end of a pass moves `current` to a first of month (month in 1..12) exactly one month index later, so December rolls over to January of the next year |
| CalendarView.MonthLoop | src/tides_web/app.py:225-273 | the `while current <= last_month` loop yields one section per month from `begin_date`'s to `end_date`'s, the i-th being the section of the i-th month start, and none when `end_date`'s month precedes `begin_date`'s |
| CalendarView.BuildCalendarMarkup | src/tides_web/app.py:216-277 | the markup is `Calendar`: the sections of every month from `begin_date`'s to `end_date`'s, or the no-events sentinel when there are none |
| CalendarProperties.EventsOnIsDateFilter | src/tides_web/app.py:218-223 | a date's bucket contains each event dated that day as often as the input does, and nothing else; events without a date are dropped |
| CalendarProperties.EventLinesFromEvents | src/tides_web/app.py:244-251 | at most one line per event, each being the line of one of the events with a date-time and a numeric height |
| CalendarProperties.EventLinesOnePerEvent | src/tides_web/app.py:244-251 | when every event has both, exactly one line per event, in order |
| CalendarProperties.EventLineText | src/tides_web/app.py:250-251 | an event line reads `<h>:<MM> <AM/PM>  <height> ft` with h in 1..12 and no leading zero |
| CalendarProperties.CalendarMonths | src/tides_web/app.py:225-276 | the sentinel appears iff `end_date`'s month precedes `begin_date`'s; otherwise there are 12*(ey-by)+(em-bm)+1 sections from `begin_date`'s month to `end_date`'s, each the month after the one before, December rolling over to January |
| CalendarProperties.CellAt | src/tides_web/app.py:233-259 | the cell at row w, column k of section i is `CellFor` of the grid date there |
| CalendarProperties.SectionGrid | src/tides_web/app.py:233-243 | each section has 4..6 rows of 7 consecutive dates, column k falls on weekday Sunday+k, `other-month` iff the month differs, `has-event` iff in range with events, and lines listed only then |
| CalendarProperties.HomeCellAt | src/tides_web/app.py:231-243 | a date of the range sits in the section of its own month, at its grid position, in the cell `CellFor` computes for it |
| CalendarProperties.HomeCellExists | src/tides_web/app.py:231-243 | every date of the range has a cell in its own month's section that lists all of its events |
| CalendarProperties.HomeCellPosition | src/tides_web/app.py:233-240 | a cell of its own month showing date d lies in d's month's section at d's grid position, so it is unique |
| CalendarProperties.SpilledDaysShowEvents | src/tides_web/app.py:242-243 | an in-range neighbouring-month cell with events is marked `has-event` and lists them, and the same date is marked in a second section |
| CalendarProperties.NoEventsNoMarks | src/tides_web/app.py:242 | with no events no cell is marked or lists a line |
| CalendarScenarios.Entries | src/tides_web/app.py:246-248 | the filter's events all carry a date-time and a numeric height |
| CalendarScenarios.FilteredEventShown | src/tides_web/app.py:242-251 | each filtered event dated in the range is listed, with its line, in the cell of its own date |
| CalendarScenarios.NovemberFirstMarkedTwice | src/tides_web/app.py:233-243 | with October–November 2025 and an event on 1 November, that date is marked both in October's last row and in November's first |
| MonthGrid.RunLengths | src/tides_web/app.py:233 | the leading and trailing runs are shorter than a week, and the whole run is 28..42 days in whole weeks |
| MonthGrid.MonthDatesOrdinals | src/tides_web/app.py:233 | the grid's dates are consecutive days, and exactly those in the month's own run carry its month number |
| MonthGrid.GridRows | src/tides_web/app.py:233 | the grid has 4..6 rows of 7, read row by row off the run of dates |
| MonthGrid.GridDates | src/tides_web/app.py:233 | every cell is valid, one day after its left neighbour, and column k is weekday Sunday + k |
| MonthGrid.GridOwnMonth | src/tides_web/app.py:233 | a cell carrying the grid's month is that month's day at the cell's position |
| MonthGrid.GridDayPositions | src/tides_web/app.py:233 | day d sits at position LeadingDays + d - 1: day 1 in the first row, the last day in the last |
| Dates.YearLength | src/tides_web/app.py:233 | the days before year y+1 are those before y plus y's length (Gregorian leap rule) |
| Dates.NextDayOrdinal | make_tillamook_neg_lows.py:82 | the next day is valid and one ordinal later, across month and year ends |
| Dates.DateLeIsOrdinalOrder | src/tides_web/app.py:242 | date comparison is ordinal comparison |
| Dates.AddMinutes | make_tillamook_neg_lows.py:82 | adding minutes keeps the date-time valid and the seconds unchanged, rolling hour, day, month and year |
| Dates.AddMinutesClock | make_tillamook_neg_lows.py:82 | the sum lies exactly k minutes later on the minute clock |
| Dates.MinuteOfInjective | make_tillamook_neg_lows.py:82 | a valid date-time is determined by its minute clock and seconds, so the result above is the unique one |
| Stations.BuildStationsOptions | src/tides_web/app.py:202-213 | the loop's options are `Options`: one per station with an identifier, in order |
| Stations.StationIdFirstNonEmpty | src/tides_web/app.py:206-209 | a station has an identifier iff one of id, stationId, station is non-empty, and it is the first such |
| Stations.OptionLabel | src/tides_web/app.py:211 | the label starts with the identifier and " — ", and ends with ")" iff the state is non-empty |
| Stations.OptionsAppend | src/tides_web/app.py:205-212 | options of a concatenation are the concatenation of options |
| Stations.OptionsAreIdentifiedSubsequence | src/tides_web/app.py:205-212 | the options are exactly those of the identified stations, in order: option j belongs to the j-th identified station, the station indices increase, and every identified station gives one |
| Stations.OptionsPerStation | src/tides_web/app.py:205-212 | at most one option per station; one per station, in order, when all have identifiers; none when none do |
| Ics.AppendEvent | make_tillamook_neg_lows.py:80-97 | one loop pass appends exactly the nine lines of event i |
| Ics.MakeIcs | make_tillamook_neg_lows.py:52-98 | the line list is `IcsLines`: header, time zone block, the event blocks numbered from 1, closing line |
| Ics.ConcatNines | make_tillamook_neg_lows.py:89-97 | blocks of nine lines concatenate to 9n lines, block j at lines 9j..9j+8 |
| Ics.IcsLayout | make_tillamook_neg_lows.py:54-98 | 22 + 9n lines: the 5 header lines from BEGIN:VCALENDAR, the 16-line VTIMEZONE block, event j's block at lines 21+9j..29+9j, END:VCALENDAR last |
| Ics.EventBlockLines | make_tillamook_neg_lows.py:89-97 | event j's block runs BEGIN:VEVENT, UID j+1, the DTSTAMP, DTSTART and DTEND with TZID, SUMMARY and DESCRIPTION with the height, the constant LOCATION, END:VEVENT |
| Ics.UidInjective | make_tillamook_neg_lows.py:83 | distinct event numbers give distinct UIDs |
| Ics.UidsDistinct | make_tillamook_neg_lows.py:80-90 | two events' UID lines are equal iff they are the same event |
| Ics.StampShared | make_tillamook_neg_lows.py:79-91 | every event's DTSTAMP line is the one UTC stamp read before the loop |
| Ics.EndIsHalfHourLater | make_tillamook_neg_lows.py:82-93 | DTEND renders a valid date-time exactly 30 minutes after DTSTART on the minute clock, same seconds |
| Ics.NewYearRollover | make_tillamook_neg_lows.py:82-88 | 23:45 on 31 December 2025 ends at 00:15 on 1 January 2026, rendered 20260101T001500 |
| NegLows.BetweenIsWindow | make_tillamook_neg_lows.py:47-50 | `is_between_local_hours` holds iff start_h <= hour <= end_h; never when start_h > end_h |
| NegLows.FailurePersists | make_tillamook_neg_lows.py:114-127 | once a prefix of the records raises, the whole run raises the same error |
| NegLows.ScanPredictions | make_tillamook_neg_lows.py:111-130 | the loop returns `ScriptScan`: the first record's error, or the events in order |
| NegLows.AbortsAtFirstError | make_tillamook_neg_lows.py:114-127 | the run aborts iff some record's step raises, and then with the first such record's error, all earlier records having passed |
| NegLows.ScanAgreesWithFilter | make_tillamook_neg_lows.py:114-130 | a completed run emits exactly the web filter's events with window 8..19 and threshold 0.0 (given `fromisoformat("")` raises) |
| NegLows.ScriptEvents | make_tillamook_neg_lows.py:117-130 | each event of a completed run is a low tide below 0.0 ft with hour in 8..19 and the "t" text of some record |
| NegLows.BadHeightAbortsOnlyTheScript | make_tillamook_neg_lows.py:115-118 | a record with an unparsable "v" aborts the script even on a high tide, while the web filter's output is as if that record were absent |
| NegLows.WrittenEventBlock | make_tillamook_neg_lows.py:80-95 | in a written file, block j's DTSTART, DTEND, SUMMARY and DESCRIPTION carry the date-time and height of the scan's j-th event, which is a low tide below 0.0 ft in hours 8..19 |
| NegLows.RunMain | make_tillamook_neg_lows.py:103-136 | the run is `RunScript`: exit on a missing "predictions" key, abort on the first error, no file without events, else the ICS lines |
| NegLows.IcsOnlyWithEvents | make_tillamook_neg_lows.py:131-135 | the ICS is written iff the scan completes with at least one event, and then has 22 + 9n lines |

## Left out

- Network fetches are not modelled: `fetch_stations`, `fetch_predictions` and the script's `fetch_predictions`. The records are inputs, and a missing "predictions" key is an input of `None`.
- The WSGI `application` is not modelled: request parsing, responses and its date checks. `render_template`, the HTML strings around the grid, `html.escape` and the `'\n'.join` of the options and sections are also out. The calendar and the options are modelled as data.
- File writing, `"\n".join(lines)` and every `print` are not modelled: they are I/O. The file joins lines with a bare LF (make_tillamook_neg_lows.py:100), not the CRLF that section 3.1 of RFC 5545 requires; the model is a list of lines and says nothing about line endings.
- Timestamps.Meridiem: `%p` is taken in the C locale ("AM"/"PM"); other locales are not modelled.
- Binary floating point is not modelled. `float()` text parsing and the `:.2f` rendering are parameters, and finite heights are exact reals.
- `datetime.fromisoformat` is an uninterpreted partial parser passed in. `ScanAgreesWithFilter` assumes it rejects the empty text, as Python's does.
- Timestamps.ParseStrict: real `strptime("%Y-%m-%d %H:%M")` also accepts unpadded fields and surrounding forms. The model accepts only the fixed 16-character form, with the range checks.
- Python's date range limits are not modelled: years 1..9999, the `ValueError` that `monthdatescalendar(9999, 12)` (app.py:233) raises on the trailing `date(10000, 1, 1)`, the same failure for the leading days of January of year 1, and the `OverflowError` of `9999-12-31 23:45 + 30 minutes`. Date arithmetic uses unbounded proleptic Gregorian years.
- Timestamps.IcsStamp pads the year to four digits. glibc's `%Y` does not pad years below 1000.
- Microseconds and time-zone offsets are not modelled. `replace(tzinfo=…)` only labels, so date-times are wall-clock records.
- JSON values that are not strings are not modelled: a numeric "v", a null "type", a numeric station id, a boolean height in the calendar. Record fields are optional strings.
- Text.Lower: maps only the ASCII capitals, so it keeps the length. Python's `str.lower()` also lowers other letters and may lengthen the text (`'İ'.lower()` has two characters), but no text other than "l" and "L" lowers to "l", so the low-tide test is unaffected.
- The HTML around a cell is modelled as data, not markup:
  - the `if entries:` wrapper is the cell's list of lines;
  - the month headings (`calendar.month_name`) and the Sun..Sat header row are not modelled;
  - the `'\n'.join` of the sections is not modelled; the sections are a sequence.
- The script's event dictionary is not modelled as such. Its "time_str" key is carried in the `tStr` field of the filter's event type.
- `run_tides_web.py`, the command-line entry point and the tests are outside this model.
- Station names and states that are not strings are not modelled, nor are the element order and formatting of the HTML `<option>` text.
