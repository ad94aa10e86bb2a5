# Flight radar handlers in Dafny

This project models the two HTTP handlers of a small flight-radar web
application, as Dafny definitions with proved properties.

The first handler, `get_data` in `radar.py`, serves `/api/data`.
- It reads the observer's position from the `lat` and `lon` query
  parameters, each 0 when absent.
- It asks two point-radius ADS-B services in a fixed order, adsb.lol first
  and then airplanes.live, each with a 25 km radius.
- It reports the aircraft nearest to the observer from the first service
  that yields one. That report holds the callsign, distance, type code and
  bearing.
- Any exception while handling one service skips to the next. When no
  service answers, the result is `{"found": false}`.

The second handler, `flight_radar` in `index.py`, serves `/api/radar`.
- It requires both `lat` and `lon`, and answers 400 otherwise.
- It fetches one bounding-box query of the OpenSky state vectors.
- It keeps every state vector that has a position and lies within 100 km
  of the observer, and shapes each one into a flight record.
- It sorts the kept records by rounded distance with a stable sort, and
  returns them together with a weather string and a status line.
- Any exception inside its `try` becomes a 500 answer carrying fixed error
  strings.

Modules:
- `Wrappers` holds `Option`.
- `Json` holds the decoded JSON value with Python truthiness, `dict.get`
  and the numeric coercion used by arithmetic.
- `Geo` holds coordinates and the types of the distance, bearing and
  geodesic functions.
- `PyStr` holds `str.strip()` with Python's whitespace set, `str.upper()`
  on ASCII letters, and slicing to a prefix.
- `Sorting` holds one stable insertion sort, which models both
  `sorted(...)` and `list.sort`. It is proved sorted, a permutation and
  stable, and its head is the first element of minimal key.
- `Radar` holds `get_data`. The service loop is a method whose `queried`
  output records the requests sent, in order. It is proved once for any
  per-source attempt (`TrySources`), and then for this handler's attempt
  (`Waterfall`).
- `Index` holds `flight_radar`. The loop over the states is a method proved
  against the functional `Collect` of the per-state outcomes.

The network, the numeric libraries and `float()` parsing are
parameters of the operations.
- `fetch` returns `Raised` (the request or JSON decoding raised) or the
  decoded body.
- `dist`, `bearing` and `geodesic` stand for `haversine`,
  `calculate_bearing` and geopy's `geodesic(...).km`.
- `parse` stands for `float()` on a query string.
- `round2` stands for `round(·, 2)`.
- `weatherFor` stands for `get_weather_data`.

Points where a reading of the system's intent and its code differ follow
the code:
- The radar callsign falls back to `call` and then to the literal "N/A",
  never to the ICAO address.
- The radar callsign is stripped, cut to 10 characters, then upper-cased.
  The type code is upper-cased, then cut to 8.
- The radar report holds no altitude.
- Only a truthy `lat` is filtered. A kept aircraft without `lon` makes
  the sort key raise, so that whole service is skipped.
- In `index.py`, everything after the request (`resp.get`, the weather
  call, the loop, the sort) is inside the same `try`. One malformed state
  vector therefore turns the whole answer into the 500 error.

## Model

| member | source | states |
|---|---|---|
| Radar.TrySources | radar.py:170-185 | For any per-source attempt, the loop sends requests in source order with the observer and the 25 km radius. It stops at the first answering source: every earlier one yielded nothing, and the answer is that source's. It yields nothing exactly when no source answers, and then it queried them all |
| Radar.Waterfall | radar.py:170-185 | The same, stated for this handler's attempt. Every source but the last one queried is skipped. A found record is the last source's answer. "Not found" holds exactly when every source is skipped |
| Radar.GetData | radar.py:163-185 | A position that does not parse gives the framework error, and no service is queried. Otherwise the services are queried in the fixed order with the observer and the 25 km radius. Every queried service but the last was skipped. A found report is exactly the last service's attempt. "Not found" holds exactly when every service is skipped, and then both were queried |
| Radar.AcItems | radar.py:172-173 | The aircraft list is used exactly when the body is an object whose `ac` is a non-empty list, and it is that list |
| Radar.Validos | radar.py:174 | The filter succeeds exactly when every aircraft is an object, where `.get` does not raise. It is never longer than the input |
| Radar.ValidosMembers | radar.py:174 | Every kept aircraft has a truthy `lat` and comes from the list. Every aircraft of the list with a truthy `lat` is kept |
| Radar.ValidosOrder | radar.py:174 | The filter keeps the response order: the m-th kept aircraft sits at some index whose prefix filters to the first m kept ones |
| Radar.Positions | radar.py:176 | The sort keys can all be computed exactly when every kept aircraft has numeric `lat` and `lon`. Each candidate pairs the aircraft with that position |
| Radar.Choose | radar.py:175-176 | The chosen aircraft has a truthy `lat`, and its position is the one its distance is measured at |
| Radar.ChooseSomeIff | radar.py:172-176 | An aircraft is chosen exactly when the fetch succeeded, `ac` is a non-empty list, all its entries are objects, at least one has a truthy `lat`, and all those have numeric coordinates |
| Radar.ChosenIsNearest | radar.py:174-176 | The chosen aircraft is no farther than any aircraft with a truthy `lat`. It is an entry of the response before which every such aircraft is strictly farther, so ties go to the first |
| Radar.FirstMinIsNearest | radar.py:176 | The first-minimal candidate is no farther than any valid aircraft of the response |
| Radar.FirstMinIsEarliest | radar.py:176 | The first-minimal candidate sits in the response after only strictly farther valid aircraft |
| Radar.PrefixIsFarther | radar.py:176 | A valid aircraft earlier than the first-minimal candidate is strictly farther |
| Radar.EarlierAreFarther | radar.py:174-176 | Every valid aircraft in the part of the response before the first-minimal candidate is strictly farther |
| Radar.CallsignSource | radar.py:179 | The raw callsign is `flight` when present, else `call`, else "N/A" |
| Radar.Callsign | radar.py:179 | Shaping succeeds exactly when the raw callsign is a string. The result is the upper-cased first 10 characters of its stripped form, so it has at most 10 characters and no lower-case letter |
| Radar.CallsignDefault | radar.py:179 | With neither `flight` nor `call`, the callsign is "N/A" |
| Radar.TypeCode | radar.py:181 | A present `t` is shaped exactly when it is a string, to its upper-cased first 8 characters. A missing `t` is shaped from "UNKN". The result never exceeds 8 characters and has no lower-case letter |
| Radar.TypeCodeDefault | radar.py:181 | With no `t`, the type code is "UNKN" |
| Radar.Attempt | radar.py:172-183 | Definition, no contract: the body of the `try` for one source. It chooses the aircraft and shapes its callsign and type, then reports the distance and bearing to it. Its properties are stated by AttemptFound, ChooseSomeIff and ReportedIsNearest |
| Radar.ReportedIsNearest | radar.py:174-182 | The distance a source reports is no greater than the distance of any aircraft in its response with a truthy `lat` |
| Radar.Answer | radar.py:170-183 | Definition, no contract: what the source at position i yields for the observer, an attempt on its fetched body |
| Radar.Skipped | radar.py:184 | Definition, no contract: the source at position i yields nothing, so the loop continues |
| Radar.HasLat | radar.py:174 | Definition, no contract: the entry is an object, so `.get` works, and its `lat` (default None) is truthy |
| Radar.Position | radar.py:176 | Definition, no contract: `x['lat']` and `x['lon']` as the distance reads them. None when a key is missing or a value is not a number |
| Radar.Key | radar.py:176 | Definition, no contract: the sort key, the distance from the observer to a candidate's position |
| Radar.Arg | radar.py:164-165 | Definition, no contract: `float(request.args.get(name, 0))`. An absent parameter is 0.0, otherwise the parse of the string |
| Radar.Observer | radar.py:164-165 | The observer exists exactly when each given parameter parses. An absent coordinate is 0.0, and a given one is its parsed value |
| Radar.AttemptFound | radar.py:176-183 | A service yields a report exactly when an aircraft is chosen and its callsign and type can be shaped. The report's callsign, type, distance and bearing all describe that one chosen aircraft |
| Sorting.SortBy | radar.py:176 | The result is sorted by the key, is a permutation of the input and has the same length |
| Sorting.InsertBy | index.py:56 | Inserting into a sorted list keeps it sorted and adds exactly that element. The new head is the old head only when that head is strictly smaller |
| Sorting.SortByStable | index.py:56 | For every key value, the elements with that key keep their input order |
| Sorting.WithKey | index.py:56 | The elements with a given key, in order, form a subsequence that carries only that key |
| Sorting.FirstMinIndex | radar.py:176 | The index of an element with minimal key, before which every key is strictly larger |
| Sorting.SortByHead | radar.py:176 | `sorted(...)[0]` is the first element of minimal key |
| PyStr.Strip | radar.py:179 | The result is the input minus its leading and trailing whitespace. It is empty exactly when the input is all whitespace, and otherwise starts and ends with a non-space |
| PyStr.StripUnchanged | radar.py:179 | A string with no whitespace at either end is left as it is |
| PyStr.UpperUnchanged | radar.py:181 | A string with no lower-case letter is left as it is by upper-casing |
| PyStr.LeadingSpaces | radar.py:179 | The length of the leading whitespace run |
| PyStr.TrailingEnd | radar.py:179 | Where the trailing whitespace run begins |
| PyStr.Upper | radar.py:181 | Upper-casing keeps the length and maps each character through the ASCII upper-case rule |
| PyStr.UpperChar | radar.py:181 | A lower-case letter moves to its capital, and any other character is unchanged. No result is lower-case |
| PyStr.Prefix | radar.py:179 | A slice `[:n]` is the first min(n, length) characters |
| Json.AsNumber | radar.py:176 | Arithmetic accepts exactly numbers and booleans, and a number stands for itself |
| Json.Truthy | index.py:41-43 | Definition, no contract: Python truthiness. `None`, `False`, zero, the empty string, the empty list and the empty object are falsy |
| Json.Get | radar.py:179 | Definition, no contract: `dict.get(key, default)`, the value at the key when present and the default otherwise |
| Index.FlightRadar | index.py:17-64 | A missing or empty `lat` or `lon` gives 400 "Localização necessária" and nothing is fetched. An unparsable one gives the framework error. Otherwise one query is sent. The 500 answer with its two fixed strings happens exactly when the states or one state vector raise. The success answer's flights are the stable sort by distance of the collected records, never more than the states, with the weather of the observer and "RADAR CONECTADO" |
| Index.States | index.py:36-41 | The states are read exactly when the fetch succeeded with an object body whose `states` (default `[]`) is falsy or a list. A falsy `states`, such as `null` or a missing key, gives no states. A truthy list gives exactly its items |
| Index.Or | index.py:51-52 | `x or default` is x when truthy and the default otherwise |
| Index.CallsignOf | index.py:49 | The callsign is the stripped string when that is non-empty, else "S/INFO". It is never empty and never starts or ends with whitespace |
| Index.VisitRules | index.py:43-54 | A state vector is read as its list items, or a string state as its one-character strings. Any other value raises when subscripted. A state vector is kept exactly when it has a truthy position within 100 km and a string ICAO address and callsign. A skipped one is not within range. A kept record has the upper-cased ICAO, the shaped callsign, the rounded distance, heading and altitude defaulting to 0, and the position fields unchanged |
| Index.Outcomes | index.py:42-54 | One outcome per state vector, in order. Only a state within the radius is kept, and a state within the radius is never skipped: it is kept or reading its record raises |
| Index.Collect | index.py:40-54 | The collected list is never longer than the outcomes |
| Index.KeptIndices | index.py:42-54 | The positions of the kept state vectors, strictly increasing and complete |
| Index.CollectFails | index.py:42-54 | Collecting fails exactly when some state vector raises |
| Index.CollectFailsFrom | index.py:42-54 | A failure in a prefix of the states is a failure of the whole loop |
| Index.CollectExact | index.py:42-54 | Without failure, the j-th collected record is the record of the j-th kept state vector |
| Index.CollectedAreNearby | index.py:42-54 | Every collected flight is the record of some state within the radius |
| Index.NearbyAreCollected | index.py:42-54 | Without failure, every state within the radius is kept and its record is collected |
| Index.Visit | index.py:43-54 | Definition, no contract: the loop body for one state vector. Reading `s[6]` or `s[5]` past the end raises. Falsy coordinates skip. A failing geodesic raises. Beyond 100 km skips. A short vector or a non-string `s[0]` or `s[1]` raises. Otherwise it builds the record. Its properties are stated by VisitRules |
| Index.Nearby | index.py:43-46 | Definition, no contract: the state has truthy `s[6]` and `s[5]` and a geodesic distance of at most 100 km |
| Index.Given | index.py:21 | Definition, no contract: a query parameter passes `not lat` when it is present and not the empty string |
| Index.Observer | index.py:24 | The observer exists exactly when both parameters parse, and it holds the parsed values |
| Index.NearbyExactly | index.py:42-56 | Without failure, every record answered comes from a state vector within range, and every state vector within range contributes its record |

## Left out

- The HTML page and its client-side script in `radar.py` are not operations of the handlers.
- Flask routing, `jsonify` and HTTP status lines are modelled as the `Report` and `Response` datatypes.
- The framework's own error page for an uncaught exception becomes the `Unhandled` value. Only the `float()` conversions can raise uncaught.
- HTTP requests, time-outs and JSON decoding are the `fetch` parameter. Its `Raised` result covers every exception of `requests.get(...).json()`.
- The floating-point bodies of `haversine`, `calculate_bearing` and geopy's `geodesic` are parameters. Only their argument checks are modelled: numeric coordinates for the radar and a raising or successful call for the index. The index's bounding-box arithmetic only builds the URL and is not modelled.
- `get_weather_data` is the `weatherFor` parameter. It catches its own exceptions, so it always returns a string.
- `float()` and `round(·, 2)` are parameters. Reals stand for Python floats: NaN, infinities, rounding error and the int/float distinction are not modelled.
- Radar.AttemptFound: the reported distance is the unrounded real distance. The source's formatting `str(round(d, 1))` is number-to-text work that is not modelled.
- PyStr.Upper: only ASCII letters are upper-cased. Python's full Unicode case mapping, including characters whose capital form is longer such as 'ß', is not modelled.
- Index.States: a truthy `states` value that is not a list is treated as raising. Python would iterate an object's keys or a string's characters and then raise or index them. A string state vector inside the list is modelled, as one-character strings.
- Concurrency between requests and the order in which Python evaluates dictionary entries have no observable effect here and are not modelled.
