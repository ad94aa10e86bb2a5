/**
 * radar.py `get_data`: the nearest-aircraft lookup. The two point-radius
 * APIs are tried in a fixed order; the first whose response holds at least
 * one aircraft with a truthy `lat` decides the answer, and every exception
 * inside the attempt skips that source.
 */
module Radar {
  import opened Wrappers
  import opened Json
  import opened Geo
  import opened PyStr
  import Sorting

  /** RAIO_KM: the search radius sent to both APIs. */
  const RadiusKm: real := 25.0

  datatype Source = AdsbLol | AirplanesLive

  /** The sources in the order they are tried. */
  const Sources: seq<Source> := [AdsbLol, AirplanesLive]

  /** One outbound request: which API, around which point, within what radius. */
  datatype Query = Query(source: Source, center: Coord, radiusKm: real)

  function QueryFor(s: Source, obs: Coord): Query {
    Query(s, obs, RadiusKm)
  }

  /** The fields of a `{"found": true, ...}` answer. */
  datatype Sighting = Sighting(callsign: string, dist: real, aircraftType: string, bearing: real)

  /** The JSON answer of `/api/data`; Unhandled is the framework's error page. */
  datatype Report =
    | NotFound
    | Found(sighting: Sighting)
    | Unhandled

  /** An aircraft that passed the `lat` filter, with the position its distance is taken at. */
  datatype Candidate = Candidate(fields: map<string, Value>, pos: Coord)

  /** `a.get('lat')` is truthy (and `a` is an object, so `.get` does not raise). */
  predicate HasLat(a: Value) {
    a.Obj? && Truthy(Get(a.fields, "lat", Null))
  }

  /**
   * The list iterated when `r.get('ac')` is truthy. None when the source
   * is given up here: the body is not an object (`r.get` raises), `ac` is
   * absent, null or empty, or it is truthy but not a list (iterating it
   * makes `a.get` or the iteration itself raise).
   */
  function AcItems(r: Value): (items: Option<seq<Value>>)
    ensures items.Some? <==> r.Obj? && "ac" in r.fields && r.fields["ac"].Arr? && r.fields["ac"].items != []
    ensures items.Some? ==> items.value == r.fields["ac"].items
  {
    if !r.Obj? then None
    else
      var ac := Get(r.fields, "ac", Null);
      if Truthy(ac) && ac.Arr? then Some(ac.items) else None
  }

  /**
   * `[a for a in ac if a.get('lat')]`: the objects with a truthy `lat`, in
   * order; None when some element is not an object and `.get` raises.
   */
  function Validos(items: seq<Value>): (r: Option<seq<map<string, Value>>>)
    ensures r.Some? <==> forall i :: 0 <= i < |items| ==> items[i].Obj?
    ensures r.Some? ==> |r.value| <= |items|
  {
    if items == [] then Some([])
    else
      match Validos(items[1..])
      case None => None
      case Some(rest) =>
        if !items[0].Obj? then None
        else if HasLat(items[0]) then Some([items[0].fields] + rest)
        else Some(rest)
  }

  /**
   * Validos keeps exactly the objects with a truthy `lat`: each of its
   * elements is one, and each one is among its elements.
   */
  lemma {:induction false} ValidosMembers(items: seq<Value>)
    requires Validos(items).Some?
    ensures forall a :: a in Validos(items).value ==> HasLat(Obj(a)) && Obj(a) in items
    ensures forall i :: 0 <= i < |items| && HasLat(items[i]) ==> items[i].fields in Validos(items).value
  {
    if items != [] {
      ValidosMembers(items[1..]);
      assert items == [items[0]] + items[1..];
    }
  }

  /** `x['lat']`, `x['lon']` as haversine reads them; None when a key is missing or a value is not a number. */
  function Position(a: map<string, Value>): Option<Coord> {
    if "lat" in a && "lon" in a then
      match (AsNumber(a["lat"]), AsNumber(a["lon"]))
      case (Some(lat), Some(lon)) => Some(Coord(lat, lon))
      case _ => None
    else None
  }

  /** The sort key of every valid aircraft; `sorted` computes them all and raises on the first failure. */
  function Positions(vs: seq<map<string, Value>>): (r: Option<seq<Candidate>>)
    ensures r.Some? <==> forall i :: 0 <= i < |vs| ==> Position(vs[i]).Some?
    ensures r.Some? ==> |r.value| == |vs|
    ensures r.Some? ==> forall i :: 0 <= i < |vs| ==> r.value[i] == Candidate(vs[i], Position(vs[i]).value)
  {
    if vs == [] then Some([])
    else
      match (Position(vs[0]), Positions(vs[1..]))
      case (Some(p), Some(rest)) => Some([Candidate(vs[0], p)] + rest)
      case _ => None
  }

  /** `lambda x: haversine(lat_u, lon_u, x['lat'], x['lon'])`. */
  function Key(obs: Coord, dist: DistanceFn): Candidate -> real {
    (c: Candidate) => dist(obs, c.pos)
  }

  /**
   * The aircraft `sorted(validos, key=...)[0]` picks from one response;
   * None when the source is skipped before a record is built.
   */
  function Choose(obs: Coord, body: Fetched, dist: DistanceFn): (r: Option<Candidate>)
    ensures r.Some? ==> HasLat(Obj(r.value.fields)) && Position(r.value.fields) == Some(r.value.pos)
  {
    match body
    case Raised => None
    case Body(json) =>
      match AcItems(json)
      case None => None
      case Some(items) =>
        match Validos(items)
        case None => None
        case Some(vs) =>
          if vs == [] then None
          else
            match Positions(vs)
            case None => None
            case Some(cs) =>
              ValidosMembers(items);
              var ranked := Sorting.SortBy(cs, Key(obs, dist));
              assert ranked[0] in multiset(cs);
              Some(ranked[0])
  }

  /**
   * A response list that yields a candidate: every element is an object,
   * at least one has a truthy `lat`, and each of those has numeric `lat`
   * and `lon`.
   */
  predicate Usable(items: seq<Value>) {
    && (forall i :: 0 <= i < |items| ==> items[i].Obj?)
    && (exists i :: 0 <= i < |items| && HasLat(items[i]))
    && (forall i :: 0 <= i < |items| && HasLat(items[i]) ==> Position(items[i].fields).Some?)
  }

  /**
   * A source yields a candidate exactly when it answered, its `ac` is a
   * non-empty list and that list is usable; in every other case it is
   * skipped.
   */
  lemma ChooseSomeIff(obs: Coord, body: Fetched, dist: DistanceFn)
    ensures Choose(obs, body, dist).Some? <==>
      body.Body? && AcItems(body.json).Some? && Usable(AcItems(body.json).value)
  {
    if body.Body? && AcItems(body.json).Some? {
      var items := AcItems(body.json).value;
      if Validos(items).Some? {
        var vs := Validos(items).value;
        ValidosMembers(items);
        if vs != [] {
          assert Obj(vs[0]) in items;
          if Positions(vs).None? {
            var i :| 0 <= i < |vs| && Position(vs[i]).None?;
            assert vs[i] in vs;
            var j :| 0 <= j < |items| && items[j] == Obj(vs[i]);
            assert !Usable(items);
          } else {
            forall j | 0 <= j < |items| && HasLat(items[j])
              ensures Position(items[j].fields).Some?
            {
              var i :| 0 <= i < |vs| && vs[i] == items[j].fields;
            }
          }
        } else {
          forall j | 0 <= j < |items| ensures !HasLat(items[j]) { }
        }
      } else {
        var i :| 0 <= i < |items| && !items[i].Obj?;
      }
    }
  }

  /** r is x upper-cased and cut to its first n characters. */
  predicate IsUpperPrefix(r: string, x: string, n: nat) {
    && |r| == (if |x| < n then |x| else n)
    && forall i :: 0 <= i < |r| ==> r[i] == UpperChar(x[i])
  }

  /**
   * `ac.get('flight', ac.get('call', 'N/A'))`: the value the callsign is
   * made from, `flight` when that key exists, else `call`, else "N/A".
   */
  function CallsignSource(a: map<string, Value>): (v: Value)
    ensures "flight" in a ==> v == a["flight"]
    ensures "flight" !in a && "call" in a ==> v == a["call"]
    ensures "flight" !in a && "call" !in a ==> v == Str("N/A")
  {
    Get(a, "flight", Get(a, "call", Str("N/A")))
  }

  /**
   * `....strip()[:10].upper()`: the source value stripped, cut to 10
   * characters and upper-cased; None when it is not a string (`.strip()`
   * raises).
   */
  function Callsign(a: map<string, Value>): (r: Option<string>)
    ensures r.Some? <==> CallsignSource(a).Str?
    ensures r.Some? ==> IsUpperPrefix(r.value, Strip(CallsignSource(a).s), 10)
    ensures r.Some? ==> |r.value| <= 10 && forall i :: 0 <= i < |r.value| ==> !IsLower(r.value[i])
  {
    match CallsignSource(a)
    case Str(s) => Some(Upper(Prefix(Strip(s), 10)))
    case _ => None
  }

  /** An aircraft with neither `flight` nor `call` is reported as "N/A". */
  lemma CallsignDefault(a: map<string, Value>)
    requires "flight" !in a && "call" !in a
    ensures Callsign(a) == Some("N/A")
  {
    var s := "N/A";
    assert CallsignSource(a) == Str(s);
    StripUnchanged(s);
    assert Prefix(s, 10) == s;
    UpperUnchanged(s);
  }

  /**
   * `ac.get('t', 'UNKN').upper()[:8]`: the type code upper-cased, then cut
   * to 8 characters; None when `t` is present but not a string.
   */
  function TypeCode(a: map<string, Value>): (r: Option<string>)
    ensures "t" in a ==> (r.Some? <==> a["t"].Str?) && (r.Some? ==> IsUpperPrefix(r.value, a["t"].s, 8))
    ensures "t" !in a ==> r.Some? && IsUpperPrefix(r.value, "UNKN", 8)
    ensures r.Some? ==> |r.value| <= 8 && forall i :: 0 <= i < |r.value| ==> !IsLower(r.value[i])
  {
    match Get(a, "t", Str("UNKN"))
    case Str(s) => Some(Prefix(Upper(s), 8))
    case _ => None
  }

  /** An aircraft without `t` is reported with type "UNKN". */
  lemma TypeCodeDefault(a: map<string, Value>)
    requires "t" !in a
    ensures TypeCode(a) == Some("UNKN")
  {
    var s := "UNKN";
    UpperUnchanged(s);
    assert Prefix(s, 8) == s;
  }

  /**
   * The body of the `try` for one source: the found record, or None when
   * the source is skipped (an exception, or no valid aircraft).
   */
  function Attempt(obs: Coord, body: Fetched, dist: DistanceFn, bearing: BearingFn): Option<Sighting> {
    match Choose(obs, body, dist)
    case None => None
    case Some(c) =>
      match (Callsign(c.fields), TypeCode(c.fields))
      case (Some(cs), Some(t)) => Some(Sighting(cs, dist(obs, c.pos), t, bearing(obs, c.pos)))
      case _ => None
  }

  /**
   * When a source yields a record, it describes the chosen aircraft: its
   * callsign and type as shaped from that aircraft's fields, and the
   * distance and bearing from the observer to that same aircraft. The
   * source is skipped exactly when no aircraft is chosen or shaping the
   * chosen one raises.
   */
  lemma AttemptFound(obs: Coord, body: Fetched, dist: DistanceFn, bearing: BearingFn)
    ensures Attempt(obs, body, dist, bearing).Some? <==>
      Choose(obs, body, dist).Some?
      && Callsign(Choose(obs, body, dist).value.fields).Some?
      && TypeCode(Choose(obs, body, dist).value.fields).Some?
    ensures Attempt(obs, body, dist, bearing).Some? ==>
      var c := Choose(obs, body, dist).value;
      var r := Attempt(obs, body, dist, bearing).value;
      && r.callsign == Callsign(c.fields).value
      && r.aircraftType == TypeCode(c.fields).value
      && |r.callsign| <= 10 && |r.aircraftType| <= 8
      && r.dist == dist(obs, c.pos)
      && r.bearing == bearing(obs, c.pos)
  {
  }

  /** Response entry k is the m-th valid aircraft vs[m], and the entries before it filter to vs[..m]. */
  predicate ValidAt(items: seq<Value>, vs: seq<map<string, Value>>, m: nat, k: int)
    requires m < |vs|
  {
    0 <= k < |items| && items[k] == Obj(vs[m]) && HasLat(items[k]) && Validos(items[..k]) == Some(vs[..m])
  }

  /**
   * Validos keeps the order of the response: the m-th valid aircraft sits
   * at some index k of the response whose valid aircraft before k are
   * exactly the first m.
   */
  lemma {:induction false} ValidosOrder(items: seq<Value>, m: nat)
    requires Validos(items).Some? && m < |Validos(items).value|
    ensures exists k :: ValidAt(items, Validos(items).value, m, k)
  {
    var vs := Validos(items).value;
    var rest := Validos(items[1..]).value;
    if HasLat(items[0]) && m == 0 {
      assert items[..0] == [];
      assert ValidAt(items, vs, m, 0);
    } else {
      var m' := if HasLat(items[0]) then m - 1 else m;
      assert vs == if HasLat(items[0]) then [items[0].fields] + rest else rest;
      ValidosOrder(items[1..], m');
      var k' :| ValidAt(items[1..], rest, m', k');
      var k := k' + 1;
      var prefix := items[..k];
      assert prefix[1..] == items[1..][..k'];
      assert prefix[0] == items[0];
      assert Validos(prefix) == Some(if HasLat(items[0]) then [items[0].fields] + rest[..m'] else rest[..m']);
      assert vs[..m] == if HasLat(items[0]) then [items[0].fields] + rest[..m'] else rest[..m'];
      assert ValidAt(items, vs, m, k);
    }
  }


  /** No valid aircraft of the response is nearer than the first least-distance candidate. */
  lemma FirstMinIsNearest(obs: Coord, items: seq<Value>, dist: DistanceFn)
    requires Validos(items).Some? && Validos(items).value != []
    requires Positions(Validos(items).value).Some?
    ensures
      var cs := Positions(Validos(items).value).value;
      var c := cs[Sorting.FirstMinIndex(cs, Key(obs, dist))];
      forall j :: 0 <= j < |items| && HasLat(items[j]) ==>
        Position(items[j].fields).Some? && dist(obs, c.pos) <= dist(obs, Position(items[j].fields).value)
  {
    var vs := Validos(items).value;
    var cs := Positions(vs).value;
    ValidosMembers(items);
    var key := Key(obs, dist);
    var m := Sorting.FirstMinIndex(cs, key);
    forall j | 0 <= j < |items| && HasLat(items[j])
      ensures Position(items[j].fields).Some? && dist(obs, cs[m].pos) <= dist(obs, Position(items[j].fields).value)
    {
      var i :| 0 <= i < |vs| && vs[i] == items[j].fields;
      assert cs[i].pos == Position(items[j].fields).value;
      assert key(cs[m]) <= key(cs[i]);
    }
  }

  /** A valid aircraft listed before the first least-distance one is strictly farther. */
  lemma PrefixIsFarther(obs: Coord, dist: DistanceFn, vs: seq<map<string, Value>>, m: nat, a: map<string, Value>)
    requires Positions(vs).Some? && vs != []
    requires m == Sorting.FirstMinIndex(Positions(vs).value, Key(obs, dist))
    requires a in vs[..m]
    ensures Position(a).Some? && dist(obs, Positions(vs).value[m].pos) < dist(obs, Position(a).value)
  {
    var cs := Positions(vs).value;
    var m' :| 0 <= m' < m && vs[..m][m'] == a;
    assert vs[m'] == a;
    assert Key(obs, dist)(cs[m]) < Key(obs, dist)(cs[m']);
  }

  /**
   * The valid aircraft of a response prefix that filters to the candidates
   * before the first least-distance one are all strictly farther.
   */
  lemma EarlierAreFarther(obs: Coord, dist: DistanceFn, items: seq<Value>, k: nat,
                          vs: seq<map<string, Value>>, m: nat)
    requires k <= |items|
    requires Positions(vs).Some? && vs != []
    requires m == Sorting.FirstMinIndex(Positions(vs).value, Key(obs, dist))
    requires Validos(items[..k]) == Some(vs[..m])
    ensures forall j :: 0 <= j < k && HasLat(items[j]) ==>
      Position(items[j].fields).Some? && dist(obs, Positions(vs).value[m].pos) < dist(obs, Position(items[j].fields).value)
  {
    ValidosMembers(items[..k]);
    forall j | 0 <= j < k && HasLat(items[j])
      ensures Position(items[j].fields).Some? && dist(obs, Positions(vs).value[m].pos) < dist(obs, Position(items[j].fields).value)
    {
      assert items[..k][j] == items[j];
      PrefixIsFarther(obs, dist, vs, m, items[j].fields);
    }
  }

  /**
   * Response entry k is aircraft c, it has a truthy `lat`, and every valid
   * aircraft before it is strictly farther from the observer than c.
   */
  predicate EarliestNearestAt(obs: Coord, dist: DistanceFn, items: seq<Value>, c: Candidate, k: int) {
    && 0 <= k < |items| && items[k] == Obj(c.fields) && HasLat(items[k])
    && forall j :: 0 <= j < k && HasLat(items[j]) ==>
         Position(items[j].fields).Some? && dist(obs, c.pos) < dist(obs, Position(items[j].fields).value)
  }

  /**
   * The first least-distance candidate of the valid list sits in the
   * response after only strictly farther valid aircraft.
   */
  lemma FirstMinIsEarliest(obs: Coord, items: seq<Value>, dist: DistanceFn)
    requires Validos(items).Some? && Validos(items).value != []
    requires Positions(Validos(items).value).Some?
    ensures
      var cs := Positions(Validos(items).value).value;
      var c := cs[Sorting.FirstMinIndex(cs, Key(obs, dist))];
      exists k :: EarliestNearestAt(obs, dist, items, c, k)
  {
    var vs := Validos(items).value;
    var cs := Positions(vs).value;
    var m := Sorting.FirstMinIndex(cs, Key(obs, dist));
    ValidosOrder(items, m);
    var k :| ValidAt(items, vs, m, k);
    EarlierAreFarther(obs, dist, items, k, vs, m);
    var c := cs[m];
    assert c.fields == vs[m];
    assert EarliestNearestAt(obs, dist, items, c, k);
  }

  /**
   * The chosen aircraft has a truthy `lat`, no valid aircraft of the
   * response is nearer to the observer, and every valid aircraft before
   * it in the response is strictly farther (ties go to the first).
   */
  lemma ChosenIsNearest(obs: Coord, body: Fetched, dist: DistanceFn)
    requires Choose(obs, body, dist).Some?
    ensures
      var c := Choose(obs, body, dist).value;
      var items := AcItems(body.json).value;
      && (forall j :: 0 <= j < |items| && HasLat(items[j]) ==>
            Position(items[j].fields).Some? && dist(obs, c.pos) <= dist(obs, Position(items[j].fields).value))
      && exists k :: EarliestNearestAt(obs, dist, items, c, k)
  {
    var items := AcItems(body.json).value;
    var cs := Positions(Validos(items).value).value;
    Sorting.SortByHead(cs, Key(obs, dist));
    FirstMinIsNearest(obs, items, dist);
    FirstMinIsEarliest(obs, items, dist);
  }

  /**
   * The record a source yields reports a distance no greater than that of
   * any aircraft in its response with a truthy `lat`.
   */
  lemma ReportedIsNearest(obs: Coord, body: Fetched, dist: DistanceFn, bearing: BearingFn)
    ensures Attempt(obs, body, dist, bearing).Some? ==>
      var r := Attempt(obs, body, dist, bearing).value;
      var items := AcItems(body.json).value;
      forall j :: 0 <= j < |items| && HasLat(items[j]) ==>
        Position(items[j].fields).Some? && r.dist <= dist(obs, Position(items[j].fields).value)
  {
    if Attempt(obs, body, dist, bearing).Some? {
      AttemptFound(obs, body, dist, bearing);
      ChosenIsNearest(obs, body, dist);
    }
  }

  /** `float(request.args.get(name, 0))`: 0.0 when absent; None when float() raises. */
  function Arg(arg: Option<string>, parse: string -> Option<real>): Option<real> {
    match arg
    case None => Some(0.0)
    case Some(s) => parse(s)
  }

  /** The observer `(lat_u, lon_u)`; None when either conversion raises, outside the `try`. */
  function Observer(latArg: Option<string>, lonArg: Option<string>, parse: string -> Option<real>): (r: Option<Coord>)
    ensures r.Some? <==> (latArg.None? || parse(latArg.value).Some?) && (lonArg.None? || parse(lonArg.value).Some?)
    ensures r.Some? && latArg.None? ==> r.value.lat == 0.0
    ensures r.Some? && lonArg.None? ==> r.value.lon == 0.0
    ensures r.Some? && latArg.Some? ==> Some(r.value.lat) == parse(latArg.value)
    ensures r.Some? && lonArg.Some? ==> Some(r.value.lon) == parse(lonArg.value)
  {
    match (Arg(latArg, parse), Arg(lonArg, parse))
    case (Some(lat), Some(lon)) => Some(Coord(lat, lon))
    case _ => None
  }

  /** One attempt as a function value, the form the source loop takes it in. */
  function AttemptAt(obs: Coord, dist: DistanceFn, bearing: BearingFn): Fetched -> Option<Sighting> {
    (b: Fetched) => Attempt(obs, b, dist, bearing)
  }

  /** What the source at position i of the order yields for this observer. */
  function Answer(obs: Coord, i: nat, fetch: Query -> Fetched, dist: DistanceFn, bearing: BearingFn): Option<Sighting>
    requires i < |Sources|
  {
    AttemptAt(obs, dist, bearing)(fetch(QueryFor(Sources[i], obs)))
  }

  /** The source at position i of the order is skipped for this observer. */
  predicate Skipped(obs: Coord, i: nat, fetch: Query -> Fetched, dist: DistanceFn, bearing: BearingFn)
    requires i < |Sources|
  {
    Answer(obs, i, fetch, dist, bearing).None?
  }

  /**
   * The `for api in apis` loop: try the sources in order and stop at the
   * first whose `attempt` (the body of the `try`) yields a record.
   * `queried` lists the requests sent, in order: a prefix of the source
   * order that ends at the answering source, or covers every source when
   * none answers.
   */
  method TrySources(obs: Coord, fetch: Query -> Fetched, attempt: Fetched -> Option<Sighting>)
    returns (report: Option<Sighting>, queried: seq<Query>)
    ensures 1 <= |queried| <= |Sources|
    ensures forall i :: 0 <= i < |queried| ==> queried[i] == QueryFor(Sources[i], obs)
    ensures forall i :: 0 <= i < |queried| - 1 ==> attempt(fetch(QueryFor(Sources[i], obs))).None?
    ensures report.Some? ==> attempt(fetch(QueryFor(Sources[|queried| - 1], obs))) == report
    ensures report.None? <==> forall i :: 0 <= i < |Sources| ==> attempt(fetch(QueryFor(Sources[i], obs))).None?
    ensures report.None? ==> |queried| == |Sources|
  {
    queried := [];
    var i := 0;
    while i < |Sources|
      invariant 0 <= i <= |Sources|
      invariant |queried| == i
      invariant forall k :: 0 <= k < i ==> queried[k] == QueryFor(Sources[k], obs)
      invariant forall k :: 0 <= k < i ==> attempt(fetch(queried[k])).None?
    {
      var q := QueryFor(Sources[i], obs);
      queried := queried + [q];
      var r := attempt(fetch(q));
      if r.Some? {
        return r, queried;
      }
      i := i + 1;
    }
    report := None;
  }

  /**
   * The loop for a parsed observer, with the outcome stated per source:
   * every source before the last one queried is skipped, a found record
   * is the last one's answer, and "not found" means every source is
   * skipped.
   */
  method Waterfall(obs: Coord, fetch: Query -> Fetched, dist: DistanceFn, bearing: BearingFn)
    returns (report: Report, queried: seq<Query>)
    ensures !report.Unhandled?
    ensures 1 <= |queried| <= |Sources|
    ensures forall i :: 0 <= i < |queried| ==> queried[i] == QueryFor(Sources[i], obs)
    ensures forall i :: 0 <= i < |queried| - 1 ==> Skipped(obs, i, fetch, dist, bearing)
    ensures report.Found? ==>
      Answer(obs, |queried| - 1, fetch, dist, bearing) == Some(report.sighting)
    ensures report.NotFound? ==> |queried| == |Sources|
    ensures report.NotFound? <==> forall i :: 0 <= i < |Sources| ==> Skipped(obs, i, fetch, dist, bearing)
  {
    var found;
    found, queried := TrySources(obs, fetch, AttemptAt(obs, dist, bearing));
    if found.Some? {
      report := Found(found.value);
      assert !Skipped(obs, |queried| - 1, fetch, dist, bearing);
    } else {
      report := NotFound;
    }
  }

  /**
   * `get_data`: parse the observer outside the `try`, then try the
   * sources in order.
   */
  method GetData(latArg: Option<string>, lonArg: Option<string>, parse: string -> Option<real>,
                 fetch: Query -> Fetched, dist: DistanceFn, bearing: BearingFn)
    returns (report: Report, queried: seq<Query>)
    ensures report.Unhandled? <==> Observer(latArg, lonArg, parse).None?
    ensures report.Unhandled? ==> queried == []
    ensures !report.Unhandled? ==> 1 <= |queried| <= |Sources|
    ensures forall i :: 0 <= i < |queried| ==> queried[i] == QueryFor(Sources[i], Observer(latArg, lonArg, parse).value)
    ensures forall i :: 0 <= i < |queried| - 1 ==> Skipped(Observer(latArg, lonArg, parse).value, i, fetch, dist, bearing)
    ensures report.Found? ==>
      Answer(Observer(latArg, lonArg, parse).value, |queried| - 1, fetch, dist, bearing) == Some(report.sighting)
    ensures report.NotFound? ==> |queried| == |Sources|
    ensures report.NotFound? <==> (Observer(latArg, lonArg, parse).Some? &&
      forall i :: 0 <= i < |Sources| ==> Skipped(Observer(latArg, lonArg, parse).value, i, fetch, dist, bearing))
  {
    var observer := Observer(latArg, lonArg, parse);
    if observer.None? {
      return Unhandled, [];
    }
    report, queried := Waterfall(observer.value, fetch, dist, bearing);
  }
}
