/**
 * The text forms of date-times the source reads and writes: the strict
 * `%Y-%m-%d %H:%M` prediction timestamp, the calendar's `%I:%M %p` time label
 * with leading zeros stripped, and iCalendar's `%Y%m%dT%H%M%S` local form.
 */
module Timestamps {
  import opened Wrappers
  import opened Text
  import opened Dates

  /** The fixed-width numeric fields of the strict timestamp form `YYYY-MM-DD HH:MM`. */
  predicate StrictShape(s: string) {
    && |s| == 16 && s[4] == '-' && s[7] == '-' && s[10] == ' ' && s[13] == ':'
    && AllDigits(s[0..4]) && AllDigits(s[5..7]) && AllDigits(s[8..10])
    && AllDigits(s[11..13]) && AllDigits(s[14..16])
  }

  /**
   * `datetime.strptime(s, "%Y-%m-%d %H:%M")`, restricted to zero-padded fields:
   * the fields must be in range for a Python datetime (year 1 to 9999, a real day
   * of the month, hour below 24, minute below 60); the seconds are zero.
   */
  function ParseStrict(s: string): Option<PyDateTime> {
    if !StrictShape(s) then None
    else
      var dt := DateTime(ParseNat(s[0..4]), ParseNat(s[5..7]), ParseNat(s[8..10]),
                         ParseNat(s[11..13]), ParseNat(s[14..16]), 0);
      if ValidDateTime(dt) && MinYear <= dt.year <= MaxYear then Some(dt) else None
  }

  /** `dt.strftime("%Y-%m-%d %H:%M")`. */
  function FormatStrict(dt: PyDateTime): string {
    Pad(dt.year, 4) + "-" + Pad(dt.month, 2) + "-" + Pad(dt.day, 2) + " "
      + Pad(dt.hour, 2) + ":" + Pad(dt.minute, 2)
  }

  /** The text `y-mo-d h:mi` with fields of widths 4, 2, 2, 2, 2, taken apart at its fixed offsets. */
  lemma StrictFields(y: string, mo: string, d: string, h: string, mi: string)
    requires |y| == 4 && |mo| == 2 && |d| == 2 && |h| == 2 && |mi| == 2
    ensures var s := y + "-" + mo + "-" + d + " " + h + ":" + mi;
      && |s| == 16 && s[4] == '-' && s[7] == '-' && s[10] == ' ' && s[13] == ':'
      && s[0..4] == y && s[5..7] == mo && s[8..10] == d && s[11..13] == h && s[14..16] == mi
  {
  }

  /** A 16-character text is the concatenation of its fields and separators. */
  lemma StrictJoin(s: string)
    requires |s| == 16
    ensures s == s[0..4] + [s[4]] + s[5..7] + [s[7]] + s[8..10] + [s[10]] + s[11..13] + [s[13]] + s[14..16]
  {
  }

  /** Every whole-minute Python date-time is read back from its strict rendering. */
  lemma StrictRoundTrip(dt: PyDateTime)
    requires dt.second == 0
    ensures ParseStrict(FormatStrict(dt)) == Some(dt)
  {
    PadFixedWidth(dt.year, 4);
    PadFixedWidth(dt.month, 2);
    PadFixedWidth(dt.day, 2);
    PadFixedWidth(dt.hour, 2);
    PadFixedWidth(dt.minute, 2);
    StrictFields(Pad(dt.year, 4), Pad(dt.month, 2), Pad(dt.day, 2), Pad(dt.hour, 2), Pad(dt.minute, 2));
  }

  /** The strict parser accepts exactly the renderings of whole-minute date-times. */
  lemma StrictParseCanonical(s: string)
    requires ParseStrict(s).Some?
    ensures ParseStrict(s).value.second == 0 && FormatStrict(ParseStrict(s).value) == s
  {
    PadParseNat(s[0..4]);
    PadParseNat(s[5..7]);
    PadParseNat(s[8..10]);
    PadParseNat(s[11..13]);
    PadParseNat(s[14..16]);
    StrictJoin(s);
  }

  /** The strict parse, then `datetime.fromisoformat` (supplied as `iso`) when it fails. */
  function ParseTimestamp(s: string, iso: string -> Option<PyDateTime>): Option<PyDateTime> {
    match ParseStrict(s)
    case Some(dt) => Some(dt)
    case None => iso(s)
  }

  /** The hour on a 12-hour clock, as `%I` shows it (midnight and noon are 12). */
  function Hour12(h: int): int {
    if h % 12 == 0 then 12 else h % 12
  }

  /** `%p` in the C locale. */
  function Meridiem(h: int): string {
    if h < 12 then "AM" else "PM"
  }

  /** `dt.strftime("%I:%M %p").lstrip("0")`. */
  function TimeLabel(dt: PyDateTime): string {
    StripLeadingZeros(Pad(Hour12(dt.hour), 2) + ":" + Pad(dt.minute, 2) + " " + Meridiem(dt.hour))
  }

  /** `%I` pads a one-digit hour with a single zero and leaves a two-digit hour alone. */
  lemma PadHour12(h: int)
    requires 1 <= h <= 12
    ensures Pad(h, 2) == (if h < 10 then "0" else "") + NatToString(h)
    ensures NatToString(h)[0] != '0'
  {
    if h >= 10 {
      assert NatToString(h) == NatToString(1) + [DigitChar(h % 10)];
    } else {
      assert NatToString(h) == [DigitChar(h)];
      assert Zeros(1) == "0";
    }
  }

  /** `lstrip("0")` removes at most one padding zero in front of a significant digit. */
  lemma StripBeforeDigit(padded: string, digits: string, rest: string)
    requires digits != [] && digits[0] != '0'
    requires padded == digits || padded == "0" + digits
    ensures StripLeadingZeros(padded + rest) == digits + rest
  {
    var t := digits + rest;
    assert t[0] == digits[0];
    if padded != digits {
      var z := padded + rest;
      assert z[0] == '0' && z[1..] == t;
    }
  }

  /** Stripping zeros from a zero-padded hour stops at its first significant digit. */
  lemma StripPaddedHour(h: int, rest: string)
    requires 1 <= h <= 12
    ensures StripLeadingZeros(Pad(h, 2) + rest) == NatToString(h) + rest
  {
    PadHour12(h);
    StripBeforeDigit(Pad(h, 2), NatToString(h), rest);
  }

  /** The 12-hour value lies in 1 to 12 and agrees with the hour modulo 12. */
  lemma Hour12Range(h: int)
    requires 0 <= h < 24
    ensures 1 <= Hour12(h) <= 12 && Hour12(h) % 12 == h % 12
  {
  }

  /** A zero-padded 12-hour field followed by `:<mm> <p>` loses exactly its padding zero. */
  lemma StripLabel(h: int, mm: string, p: string)
    requires 1 <= h <= 12
    ensures StripLeadingZeros(Pad(h, 2) + ":" + mm + " " + p) == NatToString(h) + ":" + mm + " " + p
    ensures (NatToString(h) + ":" + mm + " " + p)[0] != '0'
  {
    var rest := ":" + mm + " " + p;
    assert Pad(h, 2) + ":" + mm + " " + p == Pad(h, 2) + rest;
    assert NatToString(h) + ":" + mm + " " + p == NatToString(h) + rest;
    StripPaddedHour(h, rest);
    PadHour12(h);
    assert (NatToString(h) + rest)[0] == NatToString(h)[0];
  }

  /**
   * The time label is `<h>:<MM> <AM|PM>`: the hour 1 to 12 without a leading
   * zero, the minute as two digits, and AM exactly before noon.
   */
  lemma TimeLabelForm(dt: PyDateTime)
    ensures 1 <= Hour12(dt.hour) <= 12 && Hour12(dt.hour) % 12 == dt.hour % 12
    ensures TimeLabel(dt) == NatToString(Hour12(dt.hour)) + ":" + Pad(dt.minute, 2) + " " + Meridiem(dt.hour)
    ensures TimeLabel(dt)[0] != '0' && |Pad(dt.minute, 2)| == 2
    ensures Meridiem(dt.hour) == "AM" <==> dt.hour < 12
  {
    Hour12Range(dt.hour);
    PadFixedWidth(dt.minute, 2);
    StripLabel(Hour12(dt.hour), Pad(dt.minute, 2), Meridiem(dt.hour));
  }

  /** `dt.strftime("%Y%m%dT%H%M%S")`, the iCalendar local date-time form. */
  function IcsStamp(dt: DateTime): string
    requires ValidDateTime(dt) && 0 <= dt.year
  {
    Pad(dt.year, 4) + Pad(dt.month, 2) + Pad(dt.day, 2) + "T"
      + Pad(dt.hour, 2) + Pad(dt.minute, 2) + Pad(dt.second, 2)
  }

  /** Fields of widths 4, 2, 2, then `T`, then 2, 2, 2: 15 characters with `T` at index 8. */
  lemma StampShape(y: string, mo: string, d: string, h: string, mi: string, sec: string)
    requires |y| == 4 && |mo| == 2 && |d| == 2 && |h| == 2 && |mi| == 2 && |sec| == 2
    ensures |y + mo + d + "T" + h + mi + sec| == 15 && (y + mo + d + "T" + h + mi + sec)[8] == 'T'
  {
    assert (y + mo + d + "T" + h + mi + sec)[8] == (y + mo + d + "T")[8];
  }

  /** A date-time of the Python range is rendered in exactly 15 characters, with `T` at index 8. */
  lemma IcsStampWidth(dt: PyDateTime)
    ensures |IcsStamp(dt)| == 15 && IcsStamp(dt)[8] == 'T'
  {
    PadWidth(dt.year, 4);
    PadWidth(dt.month, 2);
    PadWidth(dt.day, 2);
    PadWidth(dt.hour, 2);
    PadWidth(dt.minute, 2);
    PadWidth(dt.second, 2);
    StampShape(Pad(dt.year, 4), Pad(dt.month, 2), Pad(dt.day, 2), Pad(dt.hour, 2), Pad(dt.minute, 2), Pad(dt.second, 2));
  }
}
