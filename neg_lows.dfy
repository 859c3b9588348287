/**
 * The negative-low-tide script for station 9437585 (North Jetty, Tillamook
 * Bay): its filter loop keeps the low tides below 0.0 ft between 08:00 and
 * 19:59, but unlike the web application it reads every record's "t" and "v"
 * first and lets a missing key or an unparsable value end the run; if any
 * events remain it writes them as an iCalendar file.
 */
module NegLows {
  import opened Wrappers
  import opened Floats
  import opened Text
  import opened Dates
  import opened Timestamps
  import opened LowTides
  import Ics

  /** `is_between_local_hours(dt_local, start_h, end_h)`: the hour lies in [start_h, end_h]. */
  predicate IsBetweenLocalHours(dt: DateTime, startH: int, endH: int) {
    dt.hour >= startH && dt.hour <= endH
  }

  /** The script's window is the web filter's: inclusive at both ends, with no wrap past midnight. */
  lemma BetweenIsWindow(dt: DateTime, startH: int, endH: int)
    ensures IsBetweenLocalHours(dt, startH, endH) <==> InWindow(dt.hour, startH, endH)
    ensures startH > endH ==> !IsBetweenLocalHours(dt, startH, endH)
  {
  }

  const StartHour := 8
  const EndHour := 19
  const Threshold := Finite(0.0)

  /** The exception that ends the run. */
  datatype ScriptError =
    | MissingTime    // KeyError on p["t"]
    | MissingHeight  // KeyError on p["v"]
    | BadHeight      // ValueError from float(p["v"])
    | BadTimestamp   // ValueError from the unguarded fromisoformat fallback

  /** One pass of the loop: an error, no event, or the event `{"dt", "height", "time_str"}`. */
  function ScriptStep(p: Prediction, parsers: Parsers): Result<Option<TideEvent>, ScriptError> {
    if p.t.None? then Failure(MissingTime)
    else if p.v.None? then Failure(MissingHeight)
    else if parsers.toFloat(p.v.value).None? then Failure(BadHeight)
    else if !IsLow(p.kind) then Success(None)
    else
      var dt := ParseTimestamp(p.t.value, parsers.iso);
      if dt.None? then Failure(BadTimestamp)
      else
        var val := parsers.toFloat(p.v.value).value;
        if Less(val, Threshold) && IsBetweenLocalHours(dt.value, StartHour, EndHour)
        then Success(Some(TideEvent(dt.value, val, p.t.value)))
        else Success(None)
  }

  /** The loop over the records: the first error ends it, otherwise the events in input order. */
  function ScriptScan(ps: seq<Prediction>, parsers: Parsers): Result<seq<TideEvent>, ScriptError> {
    if ps == [] then Success([])
    else
      var prev := ScriptScan(ps[..|ps| - 1], parsers);
      if prev.Failure? then prev
      else
        var step := ScriptStep(ps[|ps| - 1], parsers);
        if step.Failure? then Failure(step.error)
        else if step.value.Some? then Success(prev.value + [step.value.value])
        else prev
  }

  /** Once a prefix has failed, the whole run fails with the same error. */
  lemma {:induction false} FailurePersists(ps: seq<Prediction>, k: nat, parsers: Parsers)
    requires k <= |ps| && ScriptScan(ps[..k], parsers).Failure?
    ensures ScriptScan(ps, parsers) == ScriptScan(ps[..k], parsers)
    decreases |ps| - k
  {
    if k < |ps| {
      var n := |ps| - 1;
      assert ps[..n][..k] == ps[..k];
      FailurePersists(ps[..n], k, parsers);
      assert ps[..|ps|] == ps;
    } else {
      assert ps[..k] == ps;
    }
  }

  /** The `for p in predictions` loop of `main`. */
  method ScanPredictions(predictions: seq<Prediction>, parsers: Parsers) returns (r: Result<seq<TideEvent>, ScriptError>)
    ensures r == ScriptScan(predictions, parsers)
  {
    var events: seq<TideEvent> := [];
    for i := 0 to |predictions|
      invariant ScriptScan(predictions[..i], parsers) == Success(events)
    {
      var p := predictions[i];
      assert predictions[..i + 1][..i] == predictions[..i];
      if p.t.None? {
        FailurePersists(predictions, i + 1, parsers);
        return Failure(MissingTime);
      }
      var tStr := p.t.value;
      if p.v.None? {
        FailurePersists(predictions, i + 1, parsers);
        return Failure(MissingHeight);
      }
      var val := parsers.toFloat(p.v.value);
      if val.None? {
        FailurePersists(predictions, i + 1, parsers);
        return Failure(BadHeight);
      }
      var typ := Lower(p.kind.GetOr(""));
      if typ != "l" {
        continue;
      }
      var dtNaive := ParseStrict(tStr);
      if dtNaive.None? {
        dtNaive := parsers.iso(tStr);
        if dtNaive.None? {
          FailurePersists(predictions, i + 1, parsers);
          return Failure(BadTimestamp);
        }
      }
      if Less(val.value, Threshold) && IsBetweenLocalHours(dtNaive.value, StartHour, EndHour) {
        events := events + [TideEvent(dtNaive.value, val.value, tStr)];
      }
    }
    assert predictions[..|predictions|] == predictions;
    r := Success(events);
  }

  /**
   * The run aborts exactly when some record's step raises, and then with the
   * error of the first such record, every record before it having passed.
   */
  lemma {:induction false} AbortsAtFirstError(ps: seq<Prediction>, parsers: Parsers)
    ensures ScriptScan(ps, parsers).Failure? <==> exists i | 0 <= i < |ps| :: ScriptStep(ps[i], parsers).Failure?
    ensures ScriptScan(ps, parsers).Failure? ==>
      exists i | 0 <= i < |ps| ::
        && ScriptStep(ps[i], parsers) == Failure(ScriptScan(ps, parsers).error)
        && forall j | 0 <= j < i :: ScriptStep(ps[j], parsers).Success?
    decreases |ps|
  {
    if ps != [] {
      var n := |ps| - 1;
      var init := ps[..n];
      AbortsAtFirstError(init, parsers);
      assert forall i | 0 <= i < n :: init[i] == ps[i];
      if ScriptScan(init, parsers).Failure? {
        var i :| 0 <= i < n && ScriptStep(init[i], parsers) == Failure(ScriptScan(init, parsers).error)
          && forall j | 0 <= j < i :: ScriptStep(init[j], parsers).Success?;
        assert ScriptStep(ps[i], parsers) == Failure(ScriptScan(ps, parsers).error);
        assert forall j | 0 <= j < i :: ScriptStep(ps[j], parsers).Success?;
      } else if ScriptStep(ps[n], parsers).Failure? {
        assert forall j | 0 <= j < n :: ScriptStep(ps[j], parsers).Success?;
      }
    }
  }

  /**
   * When the run completes and `fromisoformat("")` raises, its events are
   * exactly the web filter's with the window 8..19 and the threshold 0.0.
   */
  lemma {:induction false} ScanAgreesWithFilter(ps: seq<Prediction>, parsers: Parsers)
    requires parsers.iso("").None?
    requires ScriptScan(ps, parsers).Success?
    ensures ScriptScan(ps, parsers).value == Selected(ps, StartHour, EndHour, Threshold, parsers)
    decreases |ps|
  {
    if ps != [] {
      var n := |ps| - 1;
      var p := ps[n];
      ScanAgreesWithFilter(ps[..n], parsers);
      assert p.t.Some? && p.v.Some?;
      assert Height(p, parsers) == parsers.toFloat(p.v.value);
      if IsLow(p.kind) {
        assert ParseTimestamp(p.t.value, parsers.iso).Some?;
        assert p.t.value != "";
        assert Time(p, parsers) == ParseTimestamp(p.t.value, parsers.iso);
      }
    }
  }

  /**
   * Every event of a completed run is a low tide strictly below 0.0 ft with
   * its hour in 8..19, carrying the text of some record's "t".
   */
  lemma ScriptEvents(ps: seq<Prediction>, parsers: Parsers)
    requires parsers.iso("").None?
    requires ScriptScan(ps, parsers).Success?
    ensures forall e | e in ScriptScan(ps, parsers).value ::
      && Less(e.height, Threshold) && 8 <= e.dt.hour <= 19
      && exists i | 0 <= i < |ps| :: ps[i].t == Some(e.tStr) && IsLow(ps[i].kind)
  {
    ScanAgreesWithFilter(ps, parsers);
    EmittedEvents(ps, StartHour, EndHour, Threshold, parsers);
  }

  /**
   * A record with a "t" and an unparsable "v" aborts the script even when it
   * is a high tide, while the web filter merely skips it.
   */
  lemma BadHeightAbortsOnlyTheScript(ps: seq<Prediction>, i: nat, startHour: int, endHour: int, minLevel: Float, parsers: Parsers)
    requires i < |ps| && ps[i].t.Some? && ps[i].v.Some? && parsers.toFloat(ps[i].v.value).None?
    ensures ScriptScan(ps, parsers).Failure?
    ensures Selected(ps, startHour, endHour, minLevel, parsers)
         == Selected(ps[..i] + ps[i + 1..], startHour, endHour, minLevel, parsers)
  {
    assert ScriptStep(ps[i], parsers) == Failure(BadHeight);
    AbortsAtFirstError(ps, parsers);
    assert Rejected(ps[i], parsers);
    SkippedRecord(ps, i, startHour, endHour, minLevel, parsers);
  }

  /** What a run of `main` leaves behind. */
  datatype Outcome =
    | UnexpectedResponse            // no "predictions" key: sys.exit(1)
    | Aborted(error: ScriptError)   // an exception escaped the loop
    | NoEvents                      // "No matching negative low tides found in the range."
    | WroteIcs(events: seq<TideEvent>, lines: seq<string>)

  /** The date-time and height of each event, as `make_ics` reads them. */
  function IcsEventsOf(events: seq<TideEvent>): seq<Ics.IcsEvent> {
    seq(|events|, j requires 0 <= j < |events| => Ics.IcsEvent(events[j].dt, events[j].height))
  }

  /** The run of `main` on a response, `now` being the UTC time `make_ics` reads. */
  function RunScript(predictions: Option<seq<Prediction>>, parsers: Parsers, now: PyDateTime, fmt: Float -> string): Outcome {
    if predictions.None? then UnexpectedResponse
    else
      var scan := ScriptScan(predictions.value, parsers);
      if scan.Failure? then Aborted(scan.error)
      else if scan.value == [] then NoEvents
      else WroteIcs(scan.value, Ics.IcsLines(IcsEventsOf(scan.value), now, fmt))
  }

  /**
   * The file a run writes carries the scan's events in scan order: block j
   * starts at the j-th event's date-time, ends 30 minutes later and states
   * its height; that event is a low tide below 0.0 ft in hours 8..19.
   */
  lemma WrittenEventBlock(predictions: Option<seq<Prediction>>, parsers: Parsers, now: PyDateTime, fmt: Float -> string, j: int)
    requires RunScript(predictions, parsers, now, fmt).WroteIcs?
    requires 0 <= j < |RunScript(predictions, parsers, now, fmt).events|
    ensures var o := RunScript(predictions, parsers, now, fmt);
      && predictions.Some? && o.events == ScriptScan(predictions.value, parsers).value
      && |o.lines| == 22 + 9 * |o.events|
      && o.lines[21 + 9 * j + 3] == Ics.StartPrefix + IcsStamp(o.events[j].dt)
      && o.lines[21 + 9 * j + 4] == Ics.EndPrefix + IcsStamp(AddMinutes(o.events[j].dt, 30))
      && o.lines[21 + 9 * j + 5] == Ics.SummaryPrefix + Ics.Summary(o.events[j].height, fmt)
      && o.lines[21 + 9 * j + 6] == Ics.DescriptionPrefix + Ics.Description(o.events[j].height, fmt)
      && (parsers.iso("").None? ==> Less(o.events[j].height, Threshold) && 8 <= o.events[j].dt.hour <= 19)
  {
    var o := RunScript(predictions, parsers, now, fmt);
    var evs := IcsEventsOf(o.events);
    Ics.EventBlockLines(evs, now, fmt, j);
    assert evs[j] == Ics.IcsEvent(o.events[j].dt, o.events[j].height);
    if parsers.iso("").None? {
      ScriptEvents(predictions.value, parsers);
      assert o.events[j] in ScriptScan(predictions.value, parsers).value;
    }
  }

  /** `main()` after the fetch: the scan, then `make_ics` when there are events. */
  method RunMain(predictions: Option<seq<Prediction>>, parsers: Parsers, now: PyDateTime, fmt: Float -> string)
    returns (outcome: Outcome)
    ensures outcome == RunScript(predictions, parsers, now, fmt)
  {
    if predictions.None? {
      return UnexpectedResponse;
    }
    var scan := ScanPredictions(predictions.value, parsers);
    if scan.Failure? {
      return Aborted(scan.error);
    }
    var events := scan.value;
    if events == [] {
      outcome := NoEvents;
    } else {
      var lines := Ics.MakeIcs(IcsEventsOf(events), now, fmt);
      outcome := WroteIcs(events, lines);
    }
  }

  /**
   * The calendar file is written exactly when the scan completes with at least
   * one event, and it then holds 22 + 9n lines for its n events.
   */
  lemma IcsOnlyWithEvents(predictions: Option<seq<Prediction>>, parsers: Parsers, now: PyDateTime, fmt: Float -> string)
    ensures var o := RunScript(predictions, parsers, now, fmt);
      && (o.WroteIcs? <==>
            predictions.Some? && ScriptScan(predictions.value, parsers).Success? && ScriptScan(predictions.value, parsers).value != [])
      && (o.WroteIcs? ==> |o.events| >= 1 && |o.lines| == 22 + 9 * |o.events|)
  {
    var o := RunScript(predictions, parsers, now, fmt);
    if o.WroteIcs? {
      Ics.IcsLayout(IcsEventsOf(o.events), now, fmt);
    }
  }
}
