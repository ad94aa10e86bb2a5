/**
 * index.py `flight_radar`: every OpenSky state vector within 100 km of
 * the observer becomes one flight record; the list is sorted by distance.
 * Missing coordinates give a 400 answer; any exception after the fetch
 * starts gives a 500 answer with the weather sentinel "ERRO".
 */
module Index {
  import opened Wrappers
  import opened Json
  import opened Geo
  import opened PyStr
  import Sorting

  /** radius_km */
  const RadiusKm: real := 100.0

  const LocationRequired: string := "Localização necessária"
  const QueryFailed: string := "Erro na consulta"
  const WeatherError: string := "ERRO"
  const Connected: string := "RADAR CONECTADO"
  const NoCallsign: string := "S/INFO"

  /** One entry of `nearby_flights`. */
  datatype Flight = Flight(icao: string, callsign: string, dist: real,
                           heading: Value, alt: Value, lat: Value, lon: Value)

  /** The sort key of `nearby_flights.sort`, `x['dist']`. */
  const ByDist: Flight -> real := (f: Flight) => f.dist

  /** The answers of `/api/radar`; Unhandled is the framework's error page. */
  datatype Response =
    | BadRequest(error: string)
    | ServerError(error: string, weather: string)
    | Unhandled
    | Radar(flights: seq<Flight>, weather: string, status: string)

  /** A query parameter passes `not lat`: present and not the empty string. */
  predicate Given(arg: Option<string>) {
    arg.Some? && arg.value != ""
  }

  /** `(float(lat), float(lon))`; None when either conversion raises. */
  function Observer(latArg: Option<string>, lonArg: Option<string>, parse: string -> Option<real>): (r: Option<Coord>)
    requires Given(latArg) && Given(lonArg)
    ensures r.Some? <==> parse(latArg.value).Some? && parse(lonArg.value).Some?
    ensures r.Some? ==> Some(r.value.lat) == parse(latArg.value) && Some(r.value.lon) == parse(lonArg.value)
  {
    match (parse(latArg.value), parse(lonArg.value))
    case (Some(lat), Some(lon)) => Some(Coord(lat, lon))
    case _ => None
  }

  /**
   * The state vectors the loop visits: `resp.get('states', [])`, nothing
   * when that is falsy (absent, null, empty). None when the fetch raised,
   * the body is not an object, or the states value is truthy but not a
   * list (iterating it raises).
   */
  function States(body: Fetched): (r: Option<seq<Value>>)
    ensures r.Some? <==> (body.Body? && body.json.Obj? &&
      (!Truthy(Get(body.json.fields, "states", Arr([]))) || Get(body.json.fields, "states", Arr([])).Arr?))
    ensures r.Some? ==>
      var st := Get(body.json.fields, "states", Arr([]));
      r.value == if Truthy(st) then st.items else []
    ensures body.Body? && body.json.Obj? && "states" !in body.json.fields ==> r == Some([])
    ensures r.Some? && r.value != [] ==> body.json.fields["states"] == Arr(r.value)
  {
    match body
    case Raised => None
    case Body(json) =>
      if !json.Obj? then None
      else
        var st := Get(json.fields, "states", Arr([]));
        if !Truthy(st) then Some([])
        else if st.Arr? then Some(st.items) else None
  }

  /**
   * What `s[k]` reads from a state vector: the elements of a list, or the
   * one-character strings of a string. None for anything else, where
   * subscripting with an integer raises.
   */
  function Fields(s: Value): Option<seq<Value>> {
    match s
    case Arr(xs) => Some(xs)
    case Str(t) => Some(seq(|t|, i requires 0 <= i < |t| => Str([t[i]])))
    case _ => None
  }

  /** Python's `v or d`. */
  function Or(v: Value, d: Value): (r: Value)
    ensures Truthy(v) ==> r == v
    ensures !Truthy(v) ==> r == d
  {
    if Truthy(v) then v else d
  }

  /** `s[1].strip() or "S/INFO"`: never empty, never padded with whitespace. */
  function CallsignOf(raw: string): (r: string)
    ensures r != [] && !IsSpace(r[0]) && !IsSpace(r[|r| - 1])
    ensures Strip(raw) != [] ==> r == Strip(raw)
    ensures Strip(raw) == [] ==> r == NoCallsign
  {
    var s := Strip(raw);
    if s != [] then s else NoCallsign
  }

  /**
   * The state passes `if s[6] and s[5]` and its geodesic distance is at
   * most the radius.
   */
  predicate Nearby(obs: Coord, s: Value, geodesic: GeodesicFn) {
    && Fields(s).Some? && |Fields(s).value| > 6
    && Truthy(Fields(s).value[6]) && Truthy(Fields(s).value[5])
    && geodesic(obs, Fields(s).value[6], Fields(s).value[5]).Some?
    && geodesic(obs, Fields(s).value[6], Fields(s).value[5]).value <= RadiusKm
  }

  /** The fate of one state vector in the loop. */
  datatype Step = Skip | Keep(flight: Flight) | Raise

  /**
   * The loop body for one state vector `s`. Reading `s[6]` raises on a
   * short vector; `s[5]` is read only when `s[6]` is truthy; `s[0]`,
   * `s[1]` and `s[10]` are read only for a state within the radius.
   */
  function Visit(obs: Coord, s: Value, geodesic: GeodesicFn, round2: real -> real): (r: Step)
  {
    match Fields(s)
    case None => Raise
    case Some(v) =>
      if |v| <= 6 then Raise
      else if !Truthy(v[6]) || !Truthy(v[5]) then Skip
      else
        match geodesic(obs, v[6], v[5])
        case None => Raise
        case Some(d) =>
          if d > RadiusKm then Skip
          else if |v| <= 10 || !v[0].Str? || !v[1].Str? then Raise
          else Keep(Flight(Upper(v[0].s), CallsignOf(v[1].s), round2(d),
                           Or(v[10], Num(0.0)), Or(v[7], Num(0.0)), v[6], v[5]))
  }

  /**
   * A state is kept exactly when it is within the radius and its `s[0]`,
   * `s[1]` and `s[10]` can be read as the record needs them; a skipped
   * state is never within the radius. A kept state's record carries the
   * upper-cased `icao`, the callsign rule, the rounded distance, the
   * heading and altitude defaulting to 0 when falsy, and the raw position.
   */
  lemma VisitRules(obs: Coord, s: Value, geodesic: GeodesicFn, round2: real -> real)
    ensures Visit(obs, s, geodesic, round2).Keep? <==>
      Nearby(obs, s, geodesic) && |Fields(s).value| > 10 && Fields(s).value[0].Str? && Fields(s).value[1].Str?
    ensures Visit(obs, s, geodesic, round2).Skip? ==> !Nearby(obs, s, geodesic)
    ensures Visit(obs, s, geodesic, round2).Keep? ==>
      var v := Fields(s).value;
      var f := Visit(obs, s, geodesic, round2).flight;
      && f.dist == round2(geodesic(obs, v[6], v[5]).value)
      && IsUpperOf(f.icao, v[0].s)
      && f.callsign == CallsignOf(v[1].s)
      && f.heading == Or(v[10], Num(0.0))
      && f.alt == Or(v[7], Num(0.0))
      && f.lat == v[6] && f.lon == v[5]
  {
  }

  /** r is x with every character upper-cased. */
  predicate IsUpperOf(r: string, x: string) {
    |r| == |x| && forall i :: 0 <= i < |x| ==> r[i] == UpperChar(x[i])
  }

  /**
   * The fate of each state vector, in order: only a state within the
   * radius is kept, and a state within the radius is never skipped
   * (it is kept, or reading its record raises).
   */
  function Outcomes(obs: Coord, states: seq<Value>, geodesic: GeodesicFn, round2: real -> real): (r: seq<Step>)
    ensures |r| == |states|
    ensures forall i :: 0 <= i < |states| ==> (r[i].Keep? ==> Nearby(obs, states[i], geodesic))
    ensures forall i :: 0 <= i < |states| ==> (Nearby(obs, states[i], geodesic) ==> !r[i].Skip?)
  {
    seq(|states|, i requires 0 <= i < |states| => Visit(obs, states[i], geodesic, round2))
  }

  /**
   * `nearby_flights` after the loop has gone through `steps`, in append
   * order; None once a step raised.
   */
  function Collect(steps: seq<Step>): (r: Option<seq<Flight>>)
    ensures r.Some? ==> |r.value| <= |steps|
  {
    if steps == [] then Some([])
    else
      match Collect(steps[..|steps| - 1])
      case None => None
      case Some(fs) =>
        match steps[|steps| - 1]
        case Raise => None
        case Skip => Some(fs)
        case Keep(f) => Some(fs + [f])
  }

  /** The positions of the steps that append a flight, in increasing order. */
  function KeptIndices(steps: seq<Step>): (ks: seq<nat>)
    ensures forall j :: 0 <= j < |ks| ==> ks[j] < |steps| && steps[ks[j]].Keep?
    ensures forall j, j' :: 0 <= j < j' < |ks| ==> ks[j] < ks[j']
    ensures forall i :: 0 <= i < |steps| && steps[i].Keep? ==> i in ks
  {
    if steps == [] then []
    else
      var n := |steps| - 1;
      var prev := KeptIndices(steps[..n]);
      assert forall i :: 0 <= i < n ==> steps[..n][i] == steps[i];
      if steps[n].Keep? then prev + [n] else prev
  }

  /** The loop raises (the handler answers 500) exactly when some state's visit raises. */
  lemma {:induction false} CollectFails(steps: seq<Step>)
    ensures Collect(steps).None? <==> exists i :: 0 <= i < |steps| && steps[i].Raise?
  {
    if steps != [] {
      var n := |steps| - 1;
      CollectFails(steps[..n]);
      assert forall i :: 0 <= i < n ==> steps[..n][i] == steps[i];
    }
  }

  /**
   * Without a raise, the appended list holds one flight per kept state,
   * exactly once each and in the order of the states.
   */
  lemma {:induction false} CollectExact(steps: seq<Step>)
    requires Collect(steps).Some?
    ensures
      var fs := Collect(steps).value;
      var ks := KeptIndices(steps);
      && |fs| == |ks|
      && forall j :: 0 <= j < |fs| ==> steps[ks[j]] == Keep(fs[j])
  {
    if steps != [] {
      var n := |steps| - 1;
      CollectExact(steps[..n]);
      assert forall i :: 0 <= i < n ==> steps[..n][i] == steps[i];
    }
  }

  /** Every collected flight is the record of a state within the radius. */
  lemma CollectedAreNearby(obs: Coord, states: seq<Value>, geodesic: GeodesicFn, round2: real -> real, f: Flight)
    requires Collect(Outcomes(obs, states, geodesic, round2)).Some?
    requires f in Collect(Outcomes(obs, states, geodesic, round2)).value
    ensures exists i :: 0 <= i < |states| && Visit(obs, states[i], geodesic, round2) == Keep(f)
                        && Nearby(obs, states[i], geodesic)
  {
    var steps := Outcomes(obs, states, geodesic, round2);
    var fs := Collect(steps).value;
    var ks := KeptIndices(steps);
    CollectExact(steps);
    var j :| 0 <= j < |fs| && fs[j] == f;
    assert steps[ks[j]] == Keep(f);
    assert Visit(obs, states[ks[j]], geodesic, round2) == Keep(f);
  }

  /** The record of every state within the radius is collected. */
  lemma NearbyAreCollected(obs: Coord, states: seq<Value>, geodesic: GeodesicFn, round2: real -> real, i: nat)
    requires Collect(Outcomes(obs, states, geodesic, round2)).Some?
    requires i < |states| && Nearby(obs, states[i], geodesic)
    ensures Visit(obs, states[i], geodesic, round2).Keep?
    ensures Visit(obs, states[i], geodesic, round2).flight in Collect(Outcomes(obs, states, geodesic, round2)).value
  {
    var steps := Outcomes(obs, states, geodesic, round2);
    var fs := Collect(steps).value;
    var ks := KeptIndices(steps);
    CollectExact(steps);
    CollectFails(steps);
    assert !steps[i].Raise?;
    var j :| 0 <= j < |ks| && ks[j] == i;
    assert fs[j] == steps[i].flight;
  }

  /**
   * Every flight the handler returns comes from a state within the
   * radius, and every state within the radius that the handler reaches
   * without raising is returned.
   */
  lemma NearbyExactly(obs: Coord, states: seq<Value>, geodesic: GeodesicFn, round2: real -> real)
    requires Collect(Outcomes(obs, states, geodesic, round2)).Some?
    ensures
      var out := Sorting.SortBy(Collect(Outcomes(obs, states, geodesic, round2)).value, ByDist);
      && (forall f :: f in out ==>
            exists i :: 0 <= i < |states| && Visit(obs, states[i], geodesic, round2) == Keep(f)
                        && Nearby(obs, states[i], geodesic))
      && (forall i :: 0 <= i < |states| && Nearby(obs, states[i], geodesic) ==>
            Visit(obs, states[i], geodesic, round2).Keep? && Visit(obs, states[i], geodesic, round2).flight in out)
  {
    var fs := Collect(Outcomes(obs, states, geodesic, round2)).value;
    var out := Sorting.SortBy(fs, ByDist);
    forall f | f in out
      ensures exists i :: 0 <= i < |states| && Visit(obs, states[i], geodesic, round2) == Keep(f)
                          && Nearby(obs, states[i], geodesic)
    {
      assert f in multiset(fs);
      CollectedAreNearby(obs, states, geodesic, round2, f);
    }
    forall i | 0 <= i < |states| && Nearby(obs, states[i], geodesic)
      ensures Visit(obs, states[i], geodesic, round2).Keep? && Visit(obs, states[i], geodesic, round2).flight in out
    {
      NearbyAreCollected(obs, states, geodesic, round2, i);
      assert Visit(obs, states[i], geodesic, round2).flight in multiset(out);
    }
  }

  /**
   * `flight_radar`. `fetched` says whether the OpenSky request was sent.
   * The 400 answer comes before any lookup; a conversion error escapes
   * the handler; every exception after the fetch starts becomes the 500
   * answer; otherwise the flights are the kept states' records, stably
   * sorted by distance.
   */
  method FlightRadar(latArg: Option<string>, lonArg: Option<string>, parse: string -> Option<real>,
                     fetch: Coord -> Fetched, weatherFor: Coord -> string,
                     geodesic: GeodesicFn, round2: real -> real)
    returns (resp: Response, fetched: bool)
    ensures resp.BadRequest? <==> !Given(latArg) || !Given(lonArg)
    ensures resp.BadRequest? ==> resp.error == LocationRequired
    ensures fetched <==> Given(latArg) && Given(lonArg) && Observer(latArg, lonArg, parse).Some?
    ensures resp.Unhandled? <==> Given(latArg) && Given(lonArg) && Observer(latArg, lonArg, parse).None?
    ensures resp.ServerError? ==> resp.error == QueryFailed && resp.weather == WeatherError
    ensures fetched ==>
      var obs := Observer(latArg, lonArg, parse).value;
      var states := States(fetch(obs));
      && (resp.ServerError? <==> states.None? || Collect(Outcomes(obs, states.value, geodesic, round2)).None?)
      && (resp.Radar? ==>
            && resp.flights == Sorting.SortBy(Collect(Outcomes(obs, states.value, geodesic, round2)).value, ByDist)
            && |resp.flights| <= |states.value|
            && resp.weather == weatherFor(obs)
            && resp.status == Connected)
  {
    fetched := false;
    if !Given(latArg) || !Given(lonArg) {
      return BadRequest(LocationRequired), fetched;
    }
    var observer := Observer(latArg, lonArg, parse);
    if observer.None? {
      return Unhandled, fetched;
    }
    var obs := observer.value;
    fetched := true;
    var states := States(fetch(obs));
    if states.None? {
      return ServerError(QueryFailed, WeatherError), fetched;
    }
    var weather := weatherFor(obs);
    var nearby: seq<Flight> := [];
    ghost var steps := Outcomes(obs, states.value, geodesic, round2);
    var i := 0;
    while i < |states.value|
      invariant 0 <= i <= |states.value|
      invariant Collect(steps[..i]) == Some(nearby)
    {
      var step := Visit(obs, states.value[i], geodesic, round2);
      assert steps[..i + 1][..i] == steps[..i];
      if step.Raise? {
        CollectFailsFrom(steps, i + 1);
        return ServerError(QueryFailed, WeatherError), fetched;
      } else if step.Keep? {
        nearby := nearby + [step.flight];
      }
      i := i + 1;
    }
    assert steps[..i] == steps;
    nearby := Sorting.SortBy(nearby, ByDist);
    resp := Radar(nearby, weather, Connected);
  }

  /** A raise while visiting a prefix of the states is a raise of the whole loop. */
  lemma {:induction false} CollectFailsFrom(steps: seq<Step>, n: nat)
    requires n <= |steps|
    requires Collect(steps[..n]).None?
    ensures Collect(steps).None?
  {
    CollectFails(steps[..n]);
    CollectFails(steps);
    var i :| 0 <= i < n && steps[..n][i].Raise?;
    assert steps[..n][i] == steps[i];
  }
}
