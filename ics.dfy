/**
 * The iCalendar line list of the negative-low-tide script (`make_ics`): a
 * fixed calendar header, a fixed America/Los_Angeles VTIMEZONE block, one
 * nine-line VEVENT block per event in order, and the closing line (RFC 5545,
 * section 3.6.1 for VEVENT, section 3.8.4.7 for UID, section 3.8.7.2 for
 * DTSTAMP, and section 3.3.5 form 3 for local times with a TZID reference).
 */
module Ics {
  import opened Floats
  import opened Text
  import opened Dates
  import opened Timestamps

  /** An event dictionary as `make_ics` reads it: its wall-clock date-time and height. */
  datatype IcsEvent = IcsEvent(dt: PyDateTime, height: Float)

  const BeginCalendar := "BEGIN:VCALENDAR"
  const ProductId := "PRODID:-//ChatGPT//Tillamook Negative Low Tides//EN"
  const Version := "VERSION:2.0"
  const CalendarScale := "CALSCALE:GREGORIAN"
  const Method := "METHOD:PUBLISH"
  const EndCalendar := "END:VCALENDAR"

  const Header: seq<string> := [BeginCalendar, ProductId, Version, CalendarScale, Method]

  /** The simple VTIMEZONE block for America/Los_Angeles. */
  const TimeZone: seq<string> := [
    "BEGIN:VTIMEZONE",
    "TZID:America/Los_Angeles",
    "X-LIC-LOCATION:America/Los_Angeles",
    "BEGIN:STANDARD",
    "TZOFFSETFROM:-0700",
    "TZOFFSETTO:-0800",
    "TZNAME:PST",
    "DTSTART:19701101T020000",
    "END:STANDARD",
    "BEGIN:DAYLIGHT",
    "TZOFFSETFROM:-0800",
    "TZOFFSETTO:-0700",
    "TZNAME:PDT",
    "DTSTART:19700308T020000",
    "END:DAYLIGHT",
    "END:VTIMEZONE"
  ]

  const BeginEvent := "BEGIN:VEVENT"
  const UidPrefix := "UID:"
  const StampPrefix := "DTSTAMP:"
  const StartPrefix := "DTSTART;TZID=America/Los_Angeles:"
  const EndPrefix := "DTEND;TZID=America/Los_Angeles:"
  const SummaryPrefix := "SUMMARY:"
  const DescriptionPrefix := "DESCRIPTION:"
  const Location := "LOCATION:Barview / North Jetty, Tillamook Bay, OR"
  const EndEvent := "END:VEVENT"

  /** `f"tillamook-neg-low-{i}@generated"`. */
  function Uid(i: nat): string {
    "tillamook-neg-low-" + NatToString(i) + "@generated"
  }

  function Summary(height: Float, fmt: Float -> string): string {
    "Low tide " + fmt(height) + " ft — Barview / North Jetty (Tillamook Bay)"
  }

  function Description(height: Float, fmt: Float -> string): string {
    "Predicted low tide of " + fmt(height) + " ft (NOAA predictions). Station 9437585."
  }

  /** The nine lines of the i-th event (1-based), stamped with `stamp`. */
  function EventBlock(i: nat, ev: IcsEvent, stamp: string, fmt: Float -> string): seq<string> {
    [ BeginEvent,
      UidPrefix + Uid(i),
      StampPrefix + stamp,
      StartPrefix + IcsStamp(ev.dt),
      EndPrefix + IcsStamp(AddMinutes(ev.dt, 30)),
      SummaryPrefix + Summary(ev.height, fmt),
      DescriptionPrefix + Description(ev.height, fmt),
      Location,
      EndEvent ]
  }

  lemma BlockLength(i: nat, ev: IcsEvent, stamp: string, fmt: Float -> string)
    ensures |EventBlock(i, ev, stamp, fmt)| == 9
  {
  }

  /** The lines of the blocks, one after the other. */
  function Concat(blocks: seq<seq<string>>): seq<string> {
    if blocks == [] then [] else Concat(blocks[..|blocks| - 1]) + blocks[|blocks| - 1]
  }

  /** The blocks `block(1, xs[0])`, `block(2, xs[1])`, ...: one per item, numbered from 1. */
  function Numbered<T>(xs: seq<T>, block: (nat, T) -> seq<string>): seq<seq<string>> {
    seq(|xs|, j requires 0 <= j < |xs| => block(j + 1, xs[j]))
  }

  /** The event blocks of `events`, numbered from 1, in order. */
  function EventBlocks(events: seq<IcsEvent>, stamp: string, fmt: Float -> string): seq<seq<string>> {
    Numbered(events, (i, ev) => EventBlock(i, ev, stamp, fmt))
  }

  /** The whole line list, with `now` the UTC time `make_ics` reads once. */
  function IcsLines(events: seq<IcsEvent>, now: PyDateTime, fmt: Float -> string): seq<string> {
    Header + TimeZone + Concat(EventBlocks(events, IcsStamp(now) + "Z", fmt)) + [EndCalendar]
  }

  /** One pass of the `enumerate(events, start=1)` loop: the nine lines appended for event i. */
  method AppendEvent(lines: seq<string>, i: nat, ev: IcsEvent, nowUtc: string, fmt: Float -> string)
    returns (lines': seq<string>)
    ensures lines' == lines + EventBlock(i, ev, nowUtc, fmt)
  {
    var dtEnd := AddMinutes(ev.dt, 30);
    var uid := Uid(i);
    var summary := Summary(ev.height, fmt);
    var description := Description(ev.height, fmt);
    var dtstart := IcsStamp(ev.dt);
    var dtend := IcsStamp(dtEnd);
    lines' := lines;
    lines' := lines' + [BeginEvent];
    lines' := lines' + [UidPrefix + uid];
    lines' := lines' + [StampPrefix + nowUtc];
    lines' := lines' + [StartPrefix + dtstart];
    lines' := lines' + [EndPrefix + dtend];
    lines' := lines' + [SummaryPrefix + summary];
    lines' := lines' + [DescriptionPrefix + description];
    lines' := lines' + [Location];
    lines' := lines' + [EndEvent];
    NineAppends(lines, BeginEvent, UidPrefix + uid, StampPrefix + nowUtc, StartPrefix + dtstart,
      EndPrefix + dtend, SummaryPrefix + summary, DescriptionPrefix + description, Location, EndEvent);
  }

  /** Nine single appends add the nine lines in order. */
  lemma NineAppends(lines: seq<string>, a0: string, a1: string, a2: string, a3: string,
                    a4: string, a5: string, a6: string, a7: string, a8: string)
    ensures lines + [a0] + [a1] + [a2] + [a3] + [a4] + [a5] + [a6] + [a7] + [a8]
      == lines + [a0, a1, a2, a3, a4, a5, a6, a7, a8]
  {
  }

  /** Appending one more block to the lines so far appends it to the concatenation. */
  lemma ConcatAppend(head: seq<string>, blocks: seq<seq<string>>, block: seq<string>)
    ensures head + Concat(blocks) + block == head + Concat(blocks + [block])
  {
    assert (blocks + [block])[..|blocks|] == blocks;
  }

  /** Numbering one more item appends its block. */
  lemma NumberedStep<T>(xs: seq<T>, i: nat, block: (nat, T) -> seq<string>)
    requires 1 <= i <= |xs|
    ensures Numbered(xs[..i], block) == Numbered(xs[..i - 1], block) + [block(i, xs[i - 1])]
  {
    var next, prev := Numbered(xs[..i], block), Numbered(xs[..i - 1], block);
    assert |next| == |prev| + 1;
    forall j | 0 <= j < |next|
      ensures next[j] == (prev + [block(i, xs[i - 1])])[j]
    {
      if j < i - 1 {
        assert xs[..i][j] == xs[..i - 1][j];
      }
    }
  }

  /** The blocks of one more event are those before it and the new one. */
  lemma EventBlocksStep(events: seq<IcsEvent>, i: nat, stamp: string, fmt: Float -> string)
    requires 1 <= i <= |events|
    ensures EventBlocks(events[..i], stamp, fmt)
      == EventBlocks(events[..i - 1], stamp, fmt) + [EventBlock(i, events[i - 1], stamp, fmt)]
  {
    NumberedStep(events, i, (i, ev) => EventBlock(i, ev, stamp, fmt));
  }

  /** `make_ics(events, out_path)` up to the file write: the line list it joins. */
  method MakeIcs(events: seq<IcsEvent>, now: PyDateTime, fmt: Float -> string) returns (lines: seq<string>)
    ensures lines == IcsLines(events, now, fmt)
  {
    lines := [];
    lines := lines + [BeginCalendar];
    lines := lines + [ProductId];
    lines := lines + [Version];
    lines := lines + [CalendarScale];
    lines := lines + [Method];
    lines := lines + TimeZone;
    assert lines == Header + TimeZone;
    var nowUtc := IcsStamp(now) + "Z";
    assert Concat(EventBlocks(events[..0], nowUtc, fmt)) == [];
    for i := 1 to |events| + 1
      invariant lines == Header + TimeZone + Concat(EventBlocks(events[..i - 1], nowUtc, fmt))
    {
      EventBlocksStep(events, i, nowUtc, fmt);
      ConcatAppend(Header + TimeZone, EventBlocks(events[..i - 1], nowUtc, fmt), EventBlock(i, events[i - 1], nowUtc, fmt));
      lines := AppendEvent(lines, i, events[i - 1], nowUtc, fmt);
    }
    assert events[..|events|] == events;
    assert lines == Header + TimeZone + Concat(EventBlocks(events, nowUtc, fmt));
    lines := lines + [EndCalendar];
  }

  /** Blocks of nine lines each: lines 9j to 9j + 8 of their concatenation are block j. */
  lemma {:induction false} ConcatNines(blocks: seq<seq<string>>)
    requires forall j | 0 <= j < |blocks| :: |blocks[j]| == 9
    ensures |Concat(blocks)| == 9 * |blocks|
    ensures forall j | 0 <= j < |blocks| :: Concat(blocks)[9 * j .. 9 * j + 9] == blocks[j]
  {
    if blocks != [] {
      var n := |blocks| - 1;
      var init := blocks[..n];
      ConcatNines(init);
      var prev := Concat(init);
      forall j | 0 <= j < |blocks|
        ensures (prev + blocks[n])[9 * j .. 9 * j + 9] == blocks[j]
      {
        if j < n {
          assert init[j] == blocks[j];
          assert (prev + blocks[n])[9 * j .. 9 * j + 9] == prev[9 * j .. 9 * j + 9];
        } else {
          assert (prev + blocks[n])[9 * j .. 9 * j + 9] == blocks[n];
        }
      }
    }
  }

  /** The frame around the event lines: header, time zone block, and the closing line. */
  lemma Framed(body: seq<string>)
    ensures var lines := Header + TimeZone + body + [EndCalendar];
      && |lines| == 22 + |body|
      && lines[..5] == Header && lines[5..21] == TimeZone
      && lines[0] == BeginCalendar && lines[|lines| - 1] == EndCalendar
      && forall a, b | 0 <= a <= b <= |body| :: lines[21 + a .. 21 + b] == body[a..b]
  {
  }

  /** Nine-line blocks framed by the header, the time zone block and the closing line. */
  lemma FramedBlocks(blocks: seq<seq<string>>)
    requires forall j | 0 <= j < |blocks| :: |blocks[j]| == 9
    ensures var lines := Header + TimeZone + Concat(blocks) + [EndCalendar];
      && |lines| == 22 + 9 * |blocks|
      && lines[..5] == Header && lines[5..21] == TimeZone
      && lines[0] == BeginCalendar && lines[|lines| - 1] == EndCalendar
      && forall j | 0 <= j < |blocks| :: lines[21 + 9 * j .. 30 + 9 * j] == blocks[j]
  {
    ConcatNines(blocks);
    var body := Concat(blocks);
    Framed(body);
    var lines := Header + TimeZone + body + [EndCalendar];
    forall j | 0 <= j < |blocks|
      ensures lines[21 + 9 * j .. 30 + 9 * j] == blocks[j]
    {
      assert lines[21 + 9 * j .. 21 + 9 * j + 9] == body[9 * j .. 9 * j + 9];
    }
  }

  /** The event blocks of `events` have nine lines each, and block j is event j + 1's. */
  lemma EventBlocksNine(events: seq<IcsEvent>, stamp: string, fmt: Float -> string)
    ensures var blocks := EventBlocks(events, stamp, fmt);
      forall j | 0 <= j < |blocks| :: |blocks[j]| == 9 && blocks[j] == EventBlock(j + 1, events[j], stamp, fmt)
  {
    var blocks := EventBlocks(events, stamp, fmt);
    forall j | 0 <= j < |blocks|
      ensures |blocks[j]| == 9 && blocks[j] == EventBlock(j + 1, events[j], stamp, fmt)
    {
      BlockLength(j + 1, events[j], stamp, fmt);
    }
  }

  /** The frame of the line list: 22 + 9n lines, the header, the time zone block and the closing line. */
  lemma IcsFrame(events: seq<IcsEvent>, now: PyDateTime, fmt: Float -> string)
    ensures var lines := IcsLines(events, now, fmt);
      && |lines| == 22 + 9 * |events|
      && lines[..5] == Header && lines[5..21] == TimeZone
      && lines[0] == BeginCalendar && lines[|lines| - 1] == EndCalendar
  {
    EventBlocksNine(events, IcsStamp(now) + "Z", fmt);
    FramedBlocks(EventBlocks(events, IcsStamp(now) + "Z", fmt));
  }

  /** The j-th event's block (0-based) is lines 21 + 9j to 29 + 9j. */
  lemma IcsBlocks(events: seq<IcsEvent>, now: PyDateTime, fmt: Float -> string)
    ensures var lines := IcsLines(events, now, fmt);
      && |lines| == 22 + 9 * |events|
      && forall j | 0 <= j < |events| ::
           lines[21 + 9 * j .. 30 + 9 * j] == EventBlock(j + 1, events[j], IcsStamp(now) + "Z", fmt)
  {
    EventBlocksNine(events, IcsStamp(now) + "Z", fmt);
    FramedBlocks(EventBlocks(events, IcsStamp(now) + "Z", fmt));
  }

  /**
   * The layout: 5 header lines from BEGIN:VCALENDAR, the 16-line time zone
   * block, then for the j-th event (0-based) its block at lines 21 + 9j to
   * 29 + 9j, then END:VCALENDAR: 22 + 9n lines in all.
   */
  lemma IcsLayout(events: seq<IcsEvent>, now: PyDateTime, fmt: Float -> string)
    ensures var lines := IcsLines(events, now, fmt);
      && |lines| == 22 + 9 * |events|
      && lines[..5] == Header && lines[5..21] == TimeZone
      && lines[0] == BeginCalendar && lines[|lines| - 1] == EndCalendar
      && forall j | 0 <= j < |events| ::
           lines[21 + 9 * j .. 30 + 9 * j] == EventBlock(j + 1, events[j], IcsStamp(now) + "Z", fmt)
  {
    IcsFrame(events, now, fmt);
    IcsBlocks(events, now, fmt);
  }

  /** The block of the j-th event (0-based) sits at lines 21 + 9j to 29 + 9j. */
  lemma BlockAt(events: seq<IcsEvent>, now: PyDateTime, fmt: Float -> string, j: int)
    requires 0 <= j < |events|
    ensures |IcsLines(events, now, fmt)| == 22 + 9 * |events|
    ensures IcsLines(events, now, fmt)[21 + 9 * j .. 30 + 9 * j] == EventBlock(j + 1, events[j], IcsStamp(now) + "Z", fmt)
  {
    IcsLayout(events, now, fmt);
  }

  /** The lines of a nine-line slice, one by one. */
  lemma NineLines(lines: seq<string>, start: nat, a0: string, a1: string, a2: string, a3: string,
                  a4: string, a5: string, a6: string, a7: string, a8: string)
    requires start + 9 <= |lines| && lines[start .. start + 9] == [a0, a1, a2, a3, a4, a5, a6, a7, a8]
    ensures && lines[start] == a0 && lines[start + 1] == a1 && lines[start + 2] == a2
            && lines[start + 3] == a3 && lines[start + 4] == a4 && lines[start + 5] == a5
            && lines[start + 6] == a6 && lines[start + 7] == a7 && lines[start + 8] == a8
  {
    var block := lines[start .. start + 9];
    assert block[0] == a0 && block[1] == a1 && block[2] == a2 && block[3] == a3 && block[4] == a4;
    assert block[5] == a5 && block[6] == a6 && block[7] == a7 && block[8] == a8;
  }

  /** The nine lines of a block placed at `start`. */
  lemma BlockLines(lines: seq<string>, start: nat, i: nat, ev: IcsEvent, stamp: string, fmt: Float -> string)
    requires start + 9 <= |lines| && lines[start .. start + 9] == EventBlock(i, ev, stamp, fmt)
    ensures && lines[start] == BeginEvent
            && lines[start + 1] == UidPrefix + Uid(i)
            && lines[start + 2] == StampPrefix + stamp
            && lines[start + 3] == StartPrefix + IcsStamp(ev.dt)
            && lines[start + 4] == EndPrefix + IcsStamp(AddMinutes(ev.dt, 30))
            && lines[start + 5] == SummaryPrefix + Summary(ev.height, fmt)
            && lines[start + 6] == DescriptionPrefix + Description(ev.height, fmt)
            && lines[start + 7] == Location
            && lines[start + 8] == EndEvent
  {
    NineLines(lines, start, BeginEvent, UidPrefix + Uid(i), StampPrefix + stamp,
      StartPrefix + IcsStamp(ev.dt), EndPrefix + IcsStamp(AddMinutes(ev.dt, 30)),
      SummaryPrefix + Summary(ev.height, fmt), DescriptionPrefix + Description(ev.height, fmt),
      Location, EndEvent);
  }

  /** The j-th event's block (0-based) from BEGIN:VEVENT to END:VEVENT, numbered j + 1 and stamped `now`. */
  lemma EventBlockLines(events: seq<IcsEvent>, now: PyDateTime, fmt: Float -> string, j: int)
    requires 0 <= j < |events|
    ensures var lines := IcsLines(events, now, fmt);
      && |lines| == 22 + 9 * |events|
      && lines[21 + 9 * j] == BeginEvent
      && lines[21 + 9 * j + 1] == UidPrefix + Uid(j + 1)
      && lines[21 + 9 * j + 2] == StampPrefix + IcsStamp(now) + "Z"
      && lines[21 + 9 * j + 3] == StartPrefix + IcsStamp(events[j].dt)
      && lines[21 + 9 * j + 4] == EndPrefix + IcsStamp(AddMinutes(events[j].dt, 30))
      && lines[21 + 9 * j + 5] == SummaryPrefix + Summary(events[j].height, fmt)
      && lines[21 + 9 * j + 6] == DescriptionPrefix + Description(events[j].height, fmt)
      && lines[21 + 9 * j + 7] == Location
      && lines[21 + 9 * j + 8] == EndEvent
  {
    BlockAt(events, now, fmt, j);
    BlockLines(IcsLines(events, now, fmt), 21 + 9 * j, j + 1, events[j], IcsStamp(now) + "Z", fmt);
    ConcatAssoc(StampPrefix, IcsStamp(now), "Z");
  }

  /** Concatenation regroups. */
  lemma ConcatAssoc(a: string, b: string, c: string)
    ensures a + b + c == a + (b + c)
  {
  }

  /** Stripping a common prefix and suffix: equal framed texts have equal middles. */
  lemma FramedEqual(p: string, x: string, y: string, s: string)
    requires p + x + s == p + y + s
    ensures x == y
  {
    assert |x| == |y|;
    assert x == (p + x + s)[|p|..|p| + |x|];
    assert y == (p + y + s)[|p|..|p| + |y|];
  }

  /** Distinct event numbers give distinct UIDs. */
  lemma UidInjective(a: nat, b: nat)
    ensures Uid(a) == Uid(b) ==> a == b
  {
    if Uid(a) == Uid(b) {
      FramedEqual("tillamook-neg-low-", NatToString(a), NatToString(b), "@generated");
      NatToStringInjective(a, b);
    }
  }

  /** Distinct event numbers give distinct UID lines. */
  lemma UidLineInjective(a: nat, b: nat)
    ensures UidPrefix + Uid(a) == UidPrefix + Uid(b) ==> a == b
  {
    if UidPrefix + Uid(a) == UidPrefix + Uid(b) {
      assert Uid(a) == (UidPrefix + Uid(a))[|UidPrefix|..];
      assert Uid(b) == (UidPrefix + Uid(b))[|UidPrefix|..];
      UidInjective(a, b);
    }
  }

  /** The UID line of the j-th event (0-based) names it j + 1. */
  lemma UidLineAt(events: seq<IcsEvent>, now: PyDateTime, fmt: Float -> string, j: int)
    requires 0 <= j < |events|
    ensures var lines := IcsLines(events, now, fmt);
      |lines| == 22 + 9 * |events| && lines[21 + 9 * j + 1] == UidPrefix + Uid(j + 1)
  {
    EventBlockLines(events, now, fmt, j);
  }

  /** Two UID lines placed for events j1 and j2 are equal only when j1 == j2. */
  lemma UidLinesDistinct(lines: seq<string>, j1: nat, j2: nat)
    requires 21 + 9 * j1 + 1 < |lines| && lines[21 + 9 * j1 + 1] == UidPrefix + Uid(j1 + 1)
    requires 21 + 9 * j2 + 1 < |lines| && lines[21 + 9 * j2 + 1] == UidPrefix + Uid(j2 + 1)
    ensures lines[21 + 9 * j1 + 1] == lines[21 + 9 * j2 + 1] <==> j1 == j2
  {
    UidLineInjective(j1 + 1, j2 + 1);
  }

  /** No two events of one calendar share a UID line. */
  lemma UidsDistinct(events: seq<IcsEvent>, now: PyDateTime, fmt: Float -> string, j1: int, j2: int)
    requires 0 <= j1 < |events| && 0 <= j2 < |events|
    ensures var lines := IcsLines(events, now, fmt);
      |lines| == 22 + 9 * |events| && (lines[21 + 9 * j1 + 1] == lines[21 + 9 * j2 + 1] <==> j1 == j2)
  {
    UidLineAt(events, now, fmt, j1);
    UidLineAt(events, now, fmt, j2);
    UidLinesDistinct(IcsLines(events, now, fmt), j1, j2);
  }

  /** Every event carries the one DTSTAMP line, the UTC time read once. */
  lemma StampShared(events: seq<IcsEvent>, now: PyDateTime, fmt: Float -> string, j: int)
    requires 0 <= j < |events|
    ensures var lines := IcsLines(events, now, fmt);
      |lines| == 22 + 9 * |events| && lines[21 + 9 * j + 2] == StampPrefix + IcsStamp(now) + "Z"
  {
    EventBlockLines(events, now, fmt, j);
  }

  /**
   * Each event's DTEND is its DTSTART moved on 30 minutes of wall-clock time,
   * across hour, day, month and year boundaries, in the same 15-character
   * YYYYMMDDTHHMMSS form.
   */
  lemma EndIsHalfHourLater(events: seq<IcsEvent>, now: PyDateTime, fmt: Float -> string, j: int)
    requires 0 <= j < |events|
    ensures var lines := IcsLines(events, now, fmt);
      |lines| == 22 + 9 * |events|
      && lines[21 + 9 * j + 3] == StartPrefix + IcsStamp(events[j].dt)
      && exists e: DateTime | ValidDateTime(e) && 0 <= e.year ::
           && lines[21 + 9 * j + 4] == EndPrefix + IcsStamp(e)
           && MinuteOf(e) == MinuteOf(events[j].dt) + 30 && e.second == events[j].dt.second
  {
    EventBlockLines(events, now, fmt, j);
    var e := AddMinutes(events[j].dt, 30);
    AddMinutesClock(events[j].dt, 30);
    assert ValidDateTime(e) && 0 <= e.year;
  }

  lemma NewYearsDayStamp()
    ensures IcsStamp(DateTime(2026, 1, 1, 0, 15, 0)) == "20260101T001500"
  {
    assert Pad(2026, 4) == "2026" by { assert NatToString(2026) == "2026"; }
    assert Pad(1, 2) == "01";
    assert Pad(0, 2) == "00";
    assert Pad(15, 2) == "15";
    StampText("2026", "01", "01", "00", "15", "00");
  }

  /** The fields of 1 January 2026, 00:15:00, joined with `T` between the date and the time, spell 20260101T001500. */
  lemma StampText(y: string, mo: string, d: string, h: string, mi: string, sec: string)
    requires y == "2026" && mo == "01" && d == "01" && h == "00" && mi == "15" && sec == "00"
    ensures y + mo + d + "T" + h + mi + sec == "20260101T001500"
  {
  }

  /** A low tide at 23:45 on New Year's Eve 2025 ends at 00:15 on 1 January 2026. */
  lemma NewYearRollover()
    ensures var end := AddMinutes(DateTime(2025, 12, 31, 23, 45, 0), 30);
      end == DateTime(2026, 1, 1, 0, 15, 0) && IcsStamp(end) == "20260101T001500"
  {
    assert AddMinutes(DateTime(2025, 12, 31, 23, 45, 0), 30) == DateTime(2026, 1, 1, 0, 15, 0);
    NewYearsDayStamp();
  }
}
