/**
 * The low-tide filter of the web application (`filter_low_tides`): from raw
 * tide extrema it keeps, in input order, the low tides strictly below a height
 * threshold whose wall-clock hour lies in an inclusive window, and it drops
 * every malformed record without raising.
 */
module LowTides {
  import opened Wrappers
  import opened Sequences
  import opened Floats
  import opened Text
  import opened Dates
  import opened Timestamps

  /** One raw extremum record: its "type", "v" and "t" strings, each of which may be absent. */
  datatype Prediction = Prediction(kind: Option<string>, v: Option<string>, t: Option<string>)

  /**
   * The library parsers the filters call, each answering None where Python raises:
   * `float()` on a height text and `datetime.fromisoformat` on a timestamp text.
   */
  datatype Parsers = Parsers(toFloat: string -> Option<Float>, iso: string -> Option<PyDateTime>)

  /** An emitted event, the dictionary {"dt", "height", "t_str"}. */
  datatype TideEvent = TideEvent(dt: PyDateTime, height: Float, tStr: string)

  /** `p.get("type", "").lower() == "l"`. */
  predicate IsLow(kind: Option<string>) {
    Lower(kind.GetOr("")) == "l"
  }

  /** Exactly the types "l" and "L" are low tides; a missing type is not. */
  lemma IsLowExactly(kind: Option<string>)
    ensures IsLow(kind) <==> kind == Some("l") || kind == Some("L")
  {
    var s := kind.GetOr("");
    if IsLow(kind) {
      assert |s| == 1 && s == [s[0]] && s[1..] == [];
      assert Lower(s)[0] == 'l';
      if 'A' <= s[0] <= 'Z' {
        assert s[0] as int + 32 == 'l' as int;
        assert s[0] == 'L';
      }
    }
  }

  /** The parsed height `float(p.get("v", "nan"))`; None where `float` raises. */
  function Height(p: Prediction, parsers: Parsers): Option<Float> {
    parsers.toFloat(p.v.GetOr("nan"))
  }

  /** The parsed time: none for a missing or empty "t", otherwise the strict parse with the ISO fallback. */
  function Time(p: Prediction, parsers: Parsers): Option<PyDateTime> {
    if p.t.None? || p.t.value == "" then None else ParseTimestamp(p.t.value, parsers.iso)
  }

  /** `start_hour <= h <= end_hour`, inclusive at both ends and with no wrap past midnight. */
  predicate InWindow(h: int, startHour: int, endHour: int) {
    startHour <= h && h <= endHour
  }

  /** A record passes the filter: a low tide whose fields parse, strictly below the threshold, inside the hour window. */
  predicate Qualifies(p: Prediction, startHour: int, endHour: int, minLevel: Float, parsers: Parsers) {
    && IsLow(p.kind)
    && Height(p, parsers).Some?
    && Time(p, parsers).Some?
    && Less(Height(p, parsers).value, minLevel)
    && InWindow(Time(p, parsers).value.hour, startHour, endHour)
  }

  /** The event a passing record becomes: its parsed date-time and height, and its timestamp text unchanged. */
  function EventOf(p: Prediction, parsers: Parsers): TideEvent
    requires Height(p, parsers).Some? && Time(p, parsers).Some?
  {
    TideEvent(Time(p, parsers).value, Height(p, parsers).value, p.t.value)
  }

  /** The filter's result: the events of the passing records, in input order. */
  function Selected(ps: seq<Prediction>, startHour: int, endHour: int, minLevel: Float, parsers: Parsers): seq<TideEvent> {
    if ps == [] then []
    else
      var rest := Selected(ps[..|ps| - 1], startHour, endHour, minLevel, parsers);
      var p := ps[|ps| - 1];
      if Qualifies(p, startHour, endHour, minLevel, parsers) then rest + [EventOf(p, parsers)] else rest
  }

  /** `filter_low_tides(predictions, start_hour, end_hour, min_level)`. */
  method FilterLowTides(predictions: seq<Prediction>, startHour: int, endHour: int, minLevel: Float, parsers: Parsers)
    returns (events: seq<TideEvent>)
    ensures events == Selected(predictions, startHour, endHour, minLevel, parsers)
  {
    events := [];
    for i := 0 to |predictions|
      invariant events == Selected(predictions[..i], startHour, endHour, minLevel, parsers)
    {
      var p := predictions[i];
      assert predictions[..i + 1][..i] == predictions[..i];
      var typ := Lower(p.kind.GetOr(""));
      if typ != "l" {
        continue;
      }
      var val := parsers.toFloat(p.v.GetOr("nan"));
      if val.None? {
        continue;
      }
      var tStr := p.t;
      if tStr.None? || tStr.value == "" {
        continue;
      }
      var dtNaive := ParseStrict(tStr.value);
      if dtNaive.None? {
        // the ISO parser, tried when the fixed form fails
        dtNaive := parsers.iso(tStr.value);
        if dtNaive.None? {
          continue;
        }
      }
      var h := dtNaive.value.hour;
      if Less(val.value, minLevel) && (h >= startHour && h <= endHour) {
        events := events + [TideEvent(dtNaive.value, val.value, tStr.value)];
      }
    }
    assert predictions[..|predictions|] == predictions;
  }

  /** The indices of the passing records, in increasing order. */
  ghost function SelectedIndices(ps: seq<Prediction>, startHour: int, endHour: int, minLevel: Float, parsers: Parsers): seq<nat> {
    if ps == [] then []
    else
      var n := |ps| - 1;
      var rest := SelectedIndices(ps[..n], startHour, endHour, minLevel, parsers);
      if Qualifies(ps[n], startHour, endHour, minLevel, parsers) then rest + [n] else rest
  }

  /** The passing indices lie in range and strictly increase. */
  lemma {:induction false} SelectedIndicesIncrease(ps: seq<Prediction>, startHour: int, endHour: int, minLevel: Float, parsers: Parsers)
    ensures IncreasingBelow(SelectedIndices(ps, startHour, endHour, minLevel, parsers), |ps|)
    decreases |ps|
  {
    if ps != [] {
      var n := |ps| - 1;
      SelectedIndicesIncrease(ps[..n], startHour, endHour, minLevel, parsers);
      var ks, ks0 := SelectedIndices(ps, startHour, endHour, minLevel, parsers), SelectedIndices(ps[..n], startHour, endHour, minLevel, parsers);
      assert ks == ks0 || ks == ks0 + [n];
      forall j | 0 <= j < |ks|
        ensures ks[j] == (if j < |ks0| then ks0[j] else n)
      {
      }
    }
  }

  /** Every passing record's index is among the passing indices. */
  lemma {:induction false} SelectedIndicesComplete(ps: seq<Prediction>, startHour: int, endHour: int, minLevel: Float, parsers: Parsers)
    ensures forall i | 0 <= i < |ps| && Qualifies(ps[i], startHour, endHour, minLevel, parsers) ::
      i in SelectedIndices(ps, startHour, endHour, minLevel, parsers)
    decreases |ps|
  {
    if ps != [] {
      var n := |ps| - 1;
      var init := ps[..n];
      SelectedIndicesComplete(init, startHour, endHour, minLevel, parsers);
      forall i | 0 <= i < n
        ensures init[i] == ps[i]
      {
      }
    }
  }

  /** The j-th event is the event of the record at the j-th passing index, which passes. */
  lemma {:induction false} SelectedFromIndices(ps: seq<Prediction>, startHour: int, endHour: int, minLevel: Float, parsers: Parsers)
    ensures var out, ks := Selected(ps, startHour, endHour, minLevel, parsers), SelectedIndices(ps, startHour, endHour, minLevel, parsers);
      && |ks| == |out|
      && forall j | 0 <= j < |ks| ::
           && ks[j] < |ps|
           && Qualifies(ps[ks[j]], startHour, endHour, minLevel, parsers)
           && out[j] == EventOf(ps[ks[j]], parsers)
    decreases |ps|
  {
    if ps != [] {
      var n := |ps| - 1;
      var init := ps[..n];
      SelectedFromIndices(init, startHour, endHour, minLevel, parsers);
      var out, ks := Selected(ps, startHour, endHour, minLevel, parsers), SelectedIndices(ps, startHour, endHour, minLevel, parsers);
      var out0, ks0 := Selected(init, startHour, endHour, minLevel, parsers), SelectedIndices(init, startHour, endHour, minLevel, parsers);
      forall j | 0 <= j < |ks0|
        ensures ps[ks0[j]] == init[ks0[j]]
      {
      }
      if Qualifies(ps[n], startHour, endHour, minLevel, parsers) {
        assert out == out0 + [EventOf(ps[n], parsers)] && ks == ks0 + [n];
        assert forall j | 0 <= j < |ks0| :: ks[j] == ks0[j] && out[j] == out0[j];
      } else {
        assert out == out0 && ks == ks0;
      }
    }
  }

  /**
   * The output is exactly the input subsequence that passes, in input order:
   * the j-th event is the event of the j-th passing record, the passing
   * indices increase, and every passing record contributes its event.
   */
  lemma SelectedIsPassingSubsequence(ps: seq<Prediction>, startHour: int, endHour: int, minLevel: Float, parsers: Parsers)
    ensures var out, ks := Selected(ps, startHour, endHour, minLevel, parsers), SelectedIndices(ps, startHour, endHour, minLevel, parsers);
      && |ks| == |out|
      && (forall j | 0 <= j < |ks| ::
            && ks[j] < |ps|
            && Qualifies(ps[ks[j]], startHour, endHour, minLevel, parsers)
            && out[j] == EventOf(ps[ks[j]], parsers))
      && (forall j1, j2 | 0 <= j1 < j2 < |ks| :: ks[j1] < ks[j2])
      && (forall i | 0 <= i < |ps| && Qualifies(ps[i], startHour, endHour, minLevel, parsers) :: i in ks)
  {
    SelectedFromIndices(ps, startHour, endHour, minLevel, parsers);
    SelectedIndicesIncrease(ps, startHour, endHour, minLevel, parsers);
    SelectedIndicesComplete(ps, startHour, endHour, minLevel, parsers);
  }

  /** Selection distributes over concatenation of inputs. */
  lemma {:induction false} SelectedAppend(a: seq<Prediction>, b: seq<Prediction>, startHour: int, endHour: int, minLevel: Float, parsers: Parsers)
    ensures Selected(a + b, startHour, endHour, minLevel, parsers)
         == Selected(a, startHour, endHour, minLevel, parsers) + Selected(b, startHour, endHour, minLevel, parsers)
    decreases |b|
  {
    if b == [] {
      assert a + b == a;
    } else {
      var n := |b| - 1;
      assert (a + b)[..|a + b| - 1] == a + b[..n];
      SelectedAppend(a, b[..n], startHour, endHour, minLevel, parsers);
    }
  }

  /** The reasons a record is dropped: not a low tide, or a height or timestamp that does not parse. */
  predicate Rejected(p: Prediction, parsers: Parsers) {
    || !IsLow(p.kind)
    || Height(p, parsers).None?
    || p.t.None? || p.t.value == ""
    || (ParseStrict(p.t.value).None? && parsers.iso(p.t.value).None?)
  }

  /**
   * A rejected record, or any record that fails the threshold or the window,
   * is skipped: the output is what it would be without that record.
   */
  lemma SkippedRecord(ps: seq<Prediction>, i: nat, startHour: int, endHour: int, minLevel: Float, parsers: Parsers)
    requires i < |ps|
    requires Rejected(ps[i], parsers) || !Qualifies(ps[i], startHour, endHour, minLevel, parsers)
    ensures Selected(ps, startHour, endHour, minLevel, parsers)
         == Selected(ps[..i] + ps[i + 1..], startHour, endHour, minLevel, parsers)
  {
    assert ps == ps[..i] + [ps[i]] + ps[i + 1..];
    SelectedAppend(ps[..i] + [ps[i]], ps[i + 1..], startHour, endHour, minLevel, parsers);
    SelectedAppend(ps[..i], [ps[i]], startHour, endHour, minLevel, parsers);
    SelectedAppend(ps[..i], ps[i + 1..], startHour, endHour, minLevel, parsers);
    assert [ps[i]][..0] == [];
  }

  /** With start_hour > end_hour the window is empty: nothing is ever selected. */
  lemma {:induction false} InvertedWindowSelectsNothing(ps: seq<Prediction>, startHour: int, endHour: int, minLevel: Float, parsers: Parsers)
    requires startHour > endHour
    ensures Selected(ps, startHour, endHour, minLevel, parsers) == []
    decreases |ps|
  {
    if ps != [] {
      InvertedWindowSelectsNothing(ps[..|ps| - 1], startHour, endHour, minLevel, parsers);
    }
  }

  /**
   * What every emitted event carries: a height strictly below the threshold, an
   * hour within the window, the record's non-empty timestamp text, and, when
   * that text has the strict form, a date-time with the text's wall-clock fields.
   */
  lemma EmittedEvents(ps: seq<Prediction>, startHour: int, endHour: int, minLevel: Float, parsers: Parsers)
    ensures forall e | e in Selected(ps, startHour, endHour, minLevel, parsers) ::
      && Less(e.height, minLevel)
      && InWindow(e.dt.hour, startHour, endHour)
      && e.tStr != ""
      && (exists i | 0 <= i < |ps| :: ps[i].t == Some(e.tStr) && ps[i].kind.Some? && IsLow(ps[i].kind))
      && (ParseStrict(e.tStr).Some? ==> e.dt.second == 0 && FormatStrict(e.dt) == e.tStr)
  {
    var out := Selected(ps, startHour, endHour, minLevel, parsers);
    var ks := SelectedIndices(ps, startHour, endHour, minLevel, parsers);
    SelectedIsPassingSubsequence(ps, startHour, endHour, minLevel, parsers);
    forall e | e in out
      ensures Less(e.height, minLevel) && InWindow(e.dt.hour, startHour, endHour) && e.tStr != ""
      ensures exists i | 0 <= i < |ps| :: ps[i].t == Some(e.tStr) && ps[i].kind.Some? && IsLow(ps[i].kind)
      ensures ParseStrict(e.tStr).Some? ==> e.dt.second == 0 && FormatStrict(e.dt) == e.tStr
    {
      var j :| 0 <= j < |out| && out[j] == e;
      var p := ps[ks[j]];
      assert e == EventOf(p, parsers);
      IsLowExactly(p.kind);
      if ParseStrict(e.tStr).Some? {
        StrictParseCanonical(e.tStr);
      }
    }
  }

  /**
   * A record without "v" is read as `float("nan")`; when that parses to NaN, as
   * Python's does, the comparison with the threshold fails and the record is never selected.
   */
  lemma MissingHeightNeverQualifies(p: Prediction, startHour: int, endHour: int, minLevel: Float, parsers: Parsers)
    requires p.v.None? && parsers.toFloat("nan") == Some(NaN)
    ensures !Qualifies(p, startHour, endHour, minLevel, parsers)
  {
  }
}
