/**
 * The station picker of the web application (`build_stations_options`): one
 * option per station that has an identifier, valued by the first non-empty of
 * its "id", "stationId" and "station" fields and labelled
 * "<id> — <name> (<state>)". The HTML escaping and the joining of the option
 * elements are not modelled.
 */
module Stations {
  import opened Wrappers
  import opened Sequences

  /** A station record from the station list, each field possibly absent. */
  datatype Station = Station(
    id: Option<string>, stationId: Option<string>, station: Option<string>,
    name: Option<string>, stationName: Option<string>, state: Option<string>)

  /** One `<option>`: its value and its label text, before escaping. */
  datatype StationOption = StationOption(value: string, caption: string)

  /** A present, non-empty string: Python's truth value of `s.get(key)`. */
  predicate Truthy(x: Option<string>) {
    x.Some? && x.value != ""
  }

  /** Python's `a or b`. */
  function Or(a: Option<string>, b: Option<string>): Option<string> {
    if Truthy(a) then a else b
  }

  /** `s.get('id') or s.get('stationId') or s.get('station')`. */
  function StationIdOf(s: Station): Option<string> {
    Or(Or(s.id, s.stationId), s.station)
  }

  /** `name` and `state`, `''` when absent or empty. */
  function NameOf(s: Station): string {
    Or(Or(s.name, s.stationName), Some("")).GetOr("")
  }

  function StateOf(s: Station): string {
    Or(s.state, Some("")).GetOr("")
  }

  /** `f"{sid} — {name} {('('+state+')') if state else ''}"`. */
  function Label(sid: string, name: string, state: string): string {
    sid + " — " + name + " " + (if state != "" then "(" + state + ")" else "")
  }

  /** The option of a station with an identifier. */
  function OptionOf(s: Station): StationOption
    requires Truthy(StationIdOf(s))
  {
    var sid := StationIdOf(s).value;
    StationOption(sid, Label(sid, NameOf(s), StateOf(s)))
  }

  /** The options of the stations with an identifier, in input order. */
  function Options(stations: seq<Station>): seq<StationOption> {
    if stations == [] then []
    else
      var s := stations[|stations| - 1];
      Options(stations[..|stations| - 1]) + (if Truthy(StationIdOf(s)) then [OptionOf(s)] else [])
  }

  /** `build_stations_options(stations)`, up to escaping and the final join. */
  method BuildStationsOptions(stations: seq<Station>) returns (out: seq<StationOption>)
    ensures out == Options(stations)
  {
    out := [];
    for i := 0 to |stations|
      invariant out == Options(stations[..i])
    {
      var s := stations[i];
      assert stations[..i + 1][..i] == stations[..i];
      var sid := Or(Or(s.id, s.stationId), s.station);
      var name := Or(Or(s.name, s.stationName), Some("")).GetOr("");
      var state := Or(s.state, Some("")).GetOr("");
      if !Truthy(sid) {
        continue;
      }
      var caption := Label(sid.value, name, state);
      out := out + [StationOption(sid.value, caption)];
    }
    assert stations[..|stations|] == stations;
  }

  /** A station has an identifier iff one of its three identifier fields is non-empty, and it is the first such. */
  lemma StationIdFirstNonEmpty(s: Station)
    ensures Truthy(StationIdOf(s)) <==> Truthy(s.id) || Truthy(s.stationId) || Truthy(s.station)
    ensures Truthy(s.id) ==> StationIdOf(s) == s.id
    ensures !Truthy(s.id) && Truthy(s.stationId) ==> StationIdOf(s) == s.stationId
    ensures !Truthy(s.id) && !Truthy(s.stationId) ==> StationIdOf(s) == s.station
  {
  }

  /**
   * An option's label starts with its value and " — ", and it closes with a
   * parenthesis exactly when the station has a non-empty state.
   */
  lemma OptionLabel(s: Station)
    requires Truthy(StationIdOf(s))
    ensures var o := OptionOf(s);
      && o.value != ""
      && o.caption[..|o.value| + 3] == o.value + " — "
      && (o.caption[|o.caption| - 1] == ')' <==> Truthy(s.state))
  {
    var o := OptionOf(s);
    assert o.caption == o.value + " — " + (NameOf(s) + " " + (if StateOf(s) != "" then "(" + StateOf(s) + ")" else ""));
  }

  /** Options distribute over concatenation of station lists. */
  lemma {:induction false} OptionsAppend(a: seq<Station>, b: seq<Station>)
    ensures Options(a + b) == Options(a) + Options(b)
    decreases |b|
  {
    if b == [] {
      assert a + b == a;
    } else {
      var n := |b| - 1;
      assert (a + b)[..|a + b| - 1] == a + b[..n];
      OptionsAppend(a, b[..n]);
    }
  }

  /** At most one option per station. */
  lemma {:induction false} OptionsBound(stations: seq<Station>)
    ensures |Options(stations)| <= |stations|
    decreases |stations|
  {
    if stations != [] {
      OptionsBound(stations[..|stations| - 1]);
    }
  }

  /** With every station identified, one option per station, in order. */
  lemma {:induction false} OptionsAllIdentified(stations: seq<Station>)
    requires forall j | 0 <= j < |stations| :: Truthy(StationIdOf(stations[j]))
    ensures |Options(stations)| == |stations|
    ensures forall j | 0 <= j < |stations| :: Options(stations)[j] == OptionOf(stations[j])
    decreases |stations|
  {
    if stations != [] {
      var n := |stations| - 1;
      var init := stations[..n];
      assert forall j | 0 <= j < n :: init[j] == stations[j];
      OptionsAllIdentified(init);
      assert Options(stations) == Options(init) + [OptionOf(stations[n])];
    }
  }

  /** With no station identified, no options. */
  lemma {:induction false} OptionsNoneIdentified(stations: seq<Station>)
    requires forall j | 0 <= j < |stations| :: !Truthy(StationIdOf(stations[j]))
    ensures Options(stations) == []
    decreases |stations|
  {
    if stations != [] {
      var n := |stations| - 1;
      var init := stations[..n];
      assert forall j | 0 <= j < n :: init[j] == stations[j];
      OptionsNoneIdentified(init);
    }
  }

  /**
   * Stations without an identifier are skipped and the others kept in order:
   * with every station identified there is one option per station, and with
   * none identified there are no options.
   */
  lemma OptionsPerStation(stations: seq<Station>)
    ensures |Options(stations)| <= |stations|
    ensures (forall j | 0 <= j < |stations| :: Truthy(StationIdOf(stations[j]))) ==>
      |Options(stations)| == |stations|
      && forall j | 0 <= j < |stations| :: Options(stations)[j] == OptionOf(stations[j])
    ensures (forall j | 0 <= j < |stations| :: !Truthy(StationIdOf(stations[j]))) ==> Options(stations) == []
  {
    OptionsBound(stations);
    if forall j | 0 <= j < |stations| :: Truthy(StationIdOf(stations[j])) {
      OptionsAllIdentified(stations);
    }
    if forall j | 0 <= j < |stations| :: !Truthy(StationIdOf(stations[j])) {
      OptionsNoneIdentified(stations);
    }
  }

  /** The indices of the stations that have an identifier, in input order. */
  ghost function IdentifiedIndices(stations: seq<Station>): seq<nat> {
    if stations == [] then []
    else
      var n := |stations| - 1;
      var rest := IdentifiedIndices(stations[..n]);
      if Truthy(StationIdOf(stations[n])) then rest + [n] else rest
  }

  /** The identified indices lie in range and strictly increase. */
  lemma {:induction false} IdentifiedIndicesIncrease(stations: seq<Station>)
    ensures IncreasingBelow(IdentifiedIndices(stations), |stations|)
    decreases |stations|
  {
    if stations != [] {
      var n := |stations| - 1;
      IdentifiedIndicesIncrease(stations[..n]);
      var ks, ks0 := IdentifiedIndices(stations), IdentifiedIndices(stations[..n]);
      assert ks == ks0 || ks == ks0 + [n];
      forall j | 0 <= j < |ks|
        ensures ks[j] == (if j < |ks0| then ks0[j] else n)
      {
      }
    }
  }

  /** Every identified station's index is among the identified indices. */
  lemma {:induction false} IdentifiedIndicesComplete(stations: seq<Station>)
    ensures forall i | 0 <= i < |stations| && Truthy(StationIdOf(stations[i])) :: i in IdentifiedIndices(stations)
    decreases |stations|
  {
    if stations != [] {
      var n := |stations| - 1;
      var init := stations[..n];
      IdentifiedIndicesComplete(init);
      forall i | 0 <= i < n
        ensures init[i] == stations[i]
      {
      }
    }
  }

  /** Option j is the option of the station at the j-th identified index. */
  lemma {:induction false} OptionsFromIndices(stations: seq<Station>)
    ensures var out, ks := Options(stations), IdentifiedIndices(stations);
      && |ks| == |out|
      && forall j | 0 <= j < |ks| ::
           && ks[j] < |stations|
           && Truthy(StationIdOf(stations[ks[j]]))
           && out[j] == OptionOf(stations[ks[j]])
    decreases |stations|
  {
    if stations != [] {
      var n := |stations| - 1;
      var init := stations[..n];
      OptionsFromIndices(init);
      var out, ks := Options(stations), IdentifiedIndices(stations);
      var out0, ks0 := Options(init), IdentifiedIndices(init);
      forall j | 0 <= j < |ks0|
        ensures stations[ks0[j]] == init[ks0[j]]
      {
      }
      if Truthy(StationIdOf(stations[n])) {
        assert out == out0 + [OptionOf(stations[n])] && ks == ks0 + [n];
        assert forall j | 0 <= j < |ks0| :: ks[j] == ks0[j] && out[j] == out0[j];
      } else {
        assert out == out0 && ks == ks0;
      }
    }
  }

  /**
   * The options are exactly those of the identified stations, in input order:
   * option j belongs to the j-th identified station, the station indices
   * increase, and every identified station contributes its option.
   */
  lemma OptionsAreIdentifiedSubsequence(stations: seq<Station>)
    ensures var out, ks := Options(stations), IdentifiedIndices(stations);
      && |ks| == |out|
      && (forall j | 0 <= j < |ks| ::
            && ks[j] < |stations|
            && Truthy(StationIdOf(stations[ks[j]]))
            && out[j] == OptionOf(stations[ks[j]]))
      && (forall j1, j2 | 0 <= j1 < j2 < |ks| :: ks[j1] < ks[j2])
      && (forall i | 0 <= i < |stations| && Truthy(StationIdOf(stations[i])) :: i in ks)
  {
    OptionsFromIndices(stations);
    IdentifiedIndicesIncrease(stations);
    IdentifiedIndicesComplete(stations);
  }
}
