/** The request side of `NwsClient`: the URL, headers and query of each API
    request, and the base URL handed to the radar crawler. Sending the request
    and decoding its response are not part of the model; timestamps are given
    as the text `DATETIME_FMT` already formatted them into. */
module Client {
  import opened Wrappers
  import opened Strings
  import Radar

  /** The API every request goes to. */
  const Root: string := "https://api.weather.gov"

  /** The media type of both headers `get` sets. */
  const LdJson: string := "application/ld+json"

  /** An unsigned integer of the 64-bit targets the client is built for. */
  type Usize = n: nat | n <= UsizeMax

  /** A query string as the ordered list of its key/value pairs. */
  type Params = seq<(string, string)>

  /** What `get` hands to the HTTP client. */
  datatype Request = Request(url: string, headers: Params, query: Option<Params>)

  /** `get`: the endpoint appended to the API root, the JSON-LD content and
      accept headers, and the query when there are parameters. */
  function Get(endpoint: string, params: Option<Params>): (r: Request)
    ensures |r.url| == |Root| + |endpoint| && r.url[..|Root|] == Root && r.url[|Root|..] == endpoint
    ensures r.headers == [("Content-Type", LdJson), ("Accept", LdJson)]
    ensures r.query == params
  {
    var url := Root + endpoint;
    assert url[|Root|..] == endpoint;
    Request(url, [("Content-Type", LdJson), ("Accept", LdJson)], params)
  }

  /** Distinct endpoints are distinct requests. */
  lemma GetInjective(e1: string, e2: string, p1: Option<Params>, p2: Option<Params>)
    ensures Get(e1, p1).url == Get(e2, p2).url ==> e1 == e2
  {
    if Get(e1, p1).url == Get(e2, p2).url {
      assert e1 == Get(e1, p1).url[|Root|..];
    }
  }

  // ---------------------------------------------------------------------
  // Query parameters
  // ---------------------------------------------------------------------

  /** `max(1, min(500, limit))`: the page size the API accepts. */
  function ClampLimit(limit: nat): (r: nat)
    ensures 1 <= r <= 500
    ensures 1 <= limit <= 500 ==> r == limit
    ensures limit > 500 ==> r == 500
    ensures limit == 0 ==> r == 1
  {
    var capped := if limit < 500 then limit else 500;
    if capped > 1 then capped else 1
  }

  /** The keys of a query, in order. */
  function Keys(params: Params): (ks: seq<string>)
    ensures |ks| == |params| && forall i :: 0 <= i < |params| ==> ks[i] == params[i].0
  {
    seq(|params|, i requires 0 <= i < |params| => params[i].0)
  }

  /** The value of the first pair with `key`, as the server reads a query. */
  function Lookup(params: Params, key: string): (r: Option<string>)
    ensures r.None? <==> key !in Keys(params)
  {
    if params == [] then None
    else if params[0].0 == key then Some(params[0].1)
    else
      assert Keys(params) == [params[0].0] + Keys(params[1..]);
      Lookup(params[1..], key)
  }

  /** A key is looked up in the first part of a query before the rest. */
  lemma {:induction false} LookupConcat(a: Params, b: Params, key: string)
    ensures Lookup(a + b, key) == if key in Keys(a) then Lookup(a, key) else Lookup(b, key)
  {
    if a != [] {
      assert (a + b)[1..] == a[1..] + b;
      assert Keys(a) == [a[0].0] + Keys(a[1..]);
      LookupConcat(a[1..], b, key);
    } else {
      assert a + b == b;
    }
  }

  /** `xs` is `ys` with some elements left out and the rest in order. */
  predicate IsSubsequence(xs: seq<string>, ys: seq<string>) {
    if xs == [] then true
    else if ys == [] then false
    else if xs[0] == ys[0] then IsSubsequence(xs[1..], ys[1..])
    else IsSubsequence(xs, ys[1..])
  }

  /** The elements of `xs` whose flag is set, in order. */
  function Chosen(xs: seq<string>, flags: seq<bool>): (r: seq<string>)
    requires |flags| == |xs|
    ensures |r| <= |xs|
  {
    if xs == [] then []
    else (if flags[0] then [xs[0]] else []) + Chosen(xs[1..], flags[1..])
  }

  /** Choosing by flags keeps the order: the result is a subsequence. */
  lemma {:induction false} ChosenIsSubsequence(xs: seq<string>, flags: seq<bool>)
    requires |flags| == |xs|
    ensures IsSubsequence(Chosen(xs, flags), xs)
  {
    if xs != [] {
      ChosenIsSubsequence(xs[1..], flags[1..]);
      var rest := Chosen(xs[1..], flags[1..]);
      if flags[0] {
        assert Chosen(xs, flags) == [xs[0]] + rest;
        assert ([xs[0]] + rest)[1..] == rest;
      } else {
        assert Chosen(xs, flags) == rest;
        SubsequenceSkip(rest, xs);
      }
    }
  }

  /** Leaving out the head of the longer sequence keeps a subsequence. */
  lemma {:induction false} SubsequenceSkip(xs: seq<string>, ys: seq<string>)
    requires ys != [] && IsSubsequence(xs, ys[1..])
    ensures IsSubsequence(xs, ys)
    decreases |ys|, 0
  {
    if xs != [] && xs[0] == ys[0] {
      SubsequenceTail(xs, ys[1..]);
    }
  }

  /** Leaving out the head of the shorter sequence keeps a subsequence. */
  lemma {:induction false} SubsequenceTail(xs: seq<string>, ys: seq<string>)
    requires xs != [] && IsSubsequence(xs, ys)
    ensures IsSubsequence(xs[1..], ys)
    decreases |ys|, 1
  {
    if xs[0] == ys[0] {
      SubsequenceSkip(xs[1..], ys);
    } else {
      SubsequenceTail(xs, ys[1..]);
      SubsequenceSkip(xs[1..], ys);
    }
  }

  /** A query pair that is sent only when its argument is given. */
  function Pair(key: string, value: Option<string>): Params {
    if value.None? then [] else [(key, value.value)]
  }

  /** The query the two listing requests build: up to three pairs, in the
      order of their keys. */
  function Query(k1: string, v1: Option<string>, k2: string, v2: Option<string>, k3: string, v3: Option<string>)
    : Params
  {
    Pair(k1, v1) + Pair(k2, v2) + Pair(k3, v3)
  }

  lemma KeysConcat(a: Params, b: Params)
    ensures Keys(a + b) == Keys(a) + Keys(b)
  {
  }

  /** Choosing among three keys. */
  lemma ChosenThree(k1: string, k2: string, k3: string, f1: bool, f2: bool, f3: bool)
    ensures Chosen([k1, k2, k3], [f1, f2, f3])
      == (if f1 then [k1] else []) + (if f2 then [k2] else []) + (if f3 then [k3] else [])
  {
    assert [k1, k2, k3][1..] == [k2, k3] && [k2, k3][1..] == [k3] && [k3][1..] == [];
    assert [f1, f2, f3][1..] == [f2, f3] && [f2, f3][1..] == [f3] && [f3][1..] == [];
    assert Chosen([k3], [f3]) == (if f3 then [k3] else []) + Chosen([], []);
    assert Chosen([k2, k3], [f2, f3]) == (if f2 then [k2] else []) + Chosen([k3], [f3]);
  }

  /** The keys of a query are the keys of the given arguments, in order. */
  lemma QueryKeys(k1: string, v1: Option<string>, k2: string, v2: Option<string>, k3: string, v3: Option<string>)
    ensures Keys(Query(k1, v1, k2, v2, k3, v3)) == Chosen([k1, k2, k3], [v1.Some?, v2.Some?, v3.Some?])
  {
    var p1, p2, p3 := Pair(k1, v1), Pair(k2, v2), Pair(k3, v3);
    KeysConcat(p1 + p2, p3);
    KeysConcat(p1, p2);
    assert Keys(p1) == (if v1.Some? then [k1] else []);
    assert Keys(p2) == (if v2.Some? then [k2] else []);
    assert Keys(p3) == (if v3.Some? then [k3] else []);
    ChosenThree(k1, k2, k3, v1.Some?, v2.Some?, v3.Some?);
  }

  /** Under three distinct keys, each key of a query looks up to its argument. */
  lemma QueryLookup(k1: string, v1: Option<string>, k2: string, v2: Option<string>, k3: string, v3: Option<string>)
    requires k1 != k2 && k1 != k3 && k2 != k3
    ensures var q := Query(k1, v1, k2, v2, k3, v3);
      Lookup(q, k1) == v1 && Lookup(q, k2) == v2 && Lookup(q, k3) == v3
  {
    var p1, p2, p3 := Pair(k1, v1), Pair(k2, v2), Pair(k3, v3);
    KeysConcat(p1, p2);
    assert Keys(p1) == (if v1.Some? then [k1] else []);
    assert Keys(p2) == (if v2.Some? then [k2] else []);
    LookupConcat(p1 + p2, p3, k1);
    LookupConcat(p1, p2, k1);
    LookupConcat(p1 + p2, p3, k2);
    LookupConcat(p1, p2, k2);
    LookupConcat(p1 + p2, p3, k3);
    LookupConcat(p1, p2, k3);
  }

  /** Under three distinct keys, the query holds exactly the given arguments,
      in key order, each once, and is empty when none is given. */
  lemma QueryShape(k1: string, v1: Option<string>, k2: string, v2: Option<string>, k3: string, v3: Option<string>)
    requires k1 != k2 && k1 != k3 && k2 != k3
    ensures var q := Query(k1, v1, k2, v2, k3, v3);
      && Keys(q) == Chosen([k1, k2, k3], [v1.Some?, v2.Some?, v3.Some?])
      && IsSubsequence(Keys(q), [k1, k2, k3])
      && Lookup(q, k1) == v1 && Lookup(q, k2) == v2 && Lookup(q, k3) == v3
      && (v1.None? && v2.None? && v3.None? ==> q == [])
  {
    QueryKeys(k1, v1, k2, v2, k3, v3);
    QueryLookup(k1, v1, k2, v2, k3, v3);
    ChosenIsSubsequence([k1, k2, k3], [v1.Some?, v2.Some?, v3.Some?]);
  }

  /** The `limit` parameter: the clamped page size as a decimal numeral. */
  function LimitText(limit: Option<Usize>): (r: Option<string>)
    ensures r.Some? <==> limit.Some?
    ensures r.Some? ==> ParseUsize(r.value) == Some(ClampLimit(limit.value))
  {
    match limit
    case None => None
    case Some(n) =>
      DecimalRoundTrip(ClampLimit(n));
      Some(NatToDecimal(ClampLimit(n)))
  }

  /** `stations_observations`: the observations of station `id`; the query
      holds `start`, `end` and `limit` in that order, each only when given,
      and is sent (empty) even when none is. */
  method StationsObservations(id: string, start: Option<string>, end: Option<string>, limit: Option<Usize>)
    returns (req: Request)
    ensures req.url == Root + "/stations/" + id + "/observations"
    ensures req.query == Some(Query("start", start, "end", end, "limit", LimitText(limit)))
  {
    var params: Params := [];
    if start.Some? {
      params := params + [("start", start.value)];
    }
    assert params == Pair("start", start);
    if end.Some? {
      params := params + [("end", end.value)];
    }
    assert params == Pair("start", start) + Pair("end", end);
    var limitText := LimitText(limit);
    if limitText.Some? {
      params := params + [("limit", limitText.value)];
    }
    assert params == Pair("start", start) + Pair("end", end) + Pair("limit", limitText);
    req := Get("/stations/" + id + "/observations", Some(params));
  }

  /** The query of `stations_observations` names each given argument once,
      in the order start, end, limit, and sends the clamped limit. */
  lemma StationsObservationsQuery(start: Option<string>, end: Option<string>, limit: Option<Usize>)
    ensures var q := Query("start", start, "end", end, "limit", LimitText(limit));
      && IsSubsequence(Keys(q), ["start", "end", "limit"])
      && Keys(q) == Chosen(["start", "end", "limit"], [start.Some?, end.Some?, limit.Some?])
      && Lookup(q, "start") == start && Lookup(q, "end") == end && Lookup(q, "limit") == LimitText(limit)
      && (start.None? && end.None? && limit.None? ==> q == [])
  {
    assert "start"[0] != "end"[0] && "start"[0] != "limit"[0] && "end"[0] != "limit"[0];
    QueryShape("start", start, "end", end, "limit", LimitText(limit));
  }

  /** `stations`: the station list; the query holds the `ids` and the
      `states`, each list joined with commas, and `limit`, in that order, each
      only when given. */
  method Stations(ids: Option<seq<string>>, states: Option<seq<string>>, limit: Option<Usize>)
    returns (req: Request)
    ensures req.url == Root + "/stations"
    ensures req.query == Some(Query("id", JoinedList(ids), "state", JoinedList(states), "limit", LimitText(limit)))
  {
    var params: Params := [];
    if ids.Some? {
      params := params + [("id", Join(ids.value, ','))];
    }
    assert params == Pair("id", JoinedList(ids));
    if states.Some? {
      params := params + [("state", Join(states.value, ','))];
    }
    assert params == Pair("id", JoinedList(ids)) + Pair("state", JoinedList(states));
    var limitText := LimitText(limit);
    if limitText.Some? {
      params := params + [("limit", limitText.value)];
    }
    assert params == Pair("id", JoinedList(ids)) + Pair("state", JoinedList(states)) + Pair("limit", limitText);
    req := Get("/stations", Some(params));
  }

  /** A list parameter: its items joined with commas. */
  function JoinedList(items: Option<seq<string>>): (r: Option<string>)
    ensures r.Some? <==> items.Some?
  {
    match items
    case None => None
    case Some(xs) => Some(Join(xs, ','))
  }

  /** The query of `stations` names each given argument once, in the order
      id, state, limit. */
  lemma StationsQuery(ids: Option<seq<string>>, states: Option<seq<string>>, limit: Option<Usize>)
    ensures var q := Query("id", JoinedList(ids), "state", JoinedList(states), "limit", LimitText(limit));
      && IsSubsequence(Keys(q), ["id", "state", "limit"])
      && Keys(q) == Chosen(["id", "state", "limit"], [ids.Some?, states.Some?, limit.Some?])
      && Lookup(q, "id") == JoinedList(ids) && Lookup(q, "state") == JoinedList(states)
      && Lookup(q, "limit") == LimitText(limit)
      && (ids.None? && states.None? && limit.None? ==> q == [])
  {
    assert "id"[0] != "state"[0] && "id"[0] != "limit"[0] && "state"[0] != "limit"[0];
    QueryShape("id", JoinedList(ids), "state", JoinedList(states), "limit", LimitText(limit));
  }

  /** The server splits a list parameter at its commas and gets the items
      back, when there is at least one item and none holds a comma. */
  lemma JoinedListRoundTrip(xs: seq<string>)
    requires xs != [] && forall i :: 0 <= i < |xs| ==> ',' !in xs[i]
    ensures Split(JoinedList(Some(xs)).value, ',') == xs
  {
    SplitJoin(xs, ',');
  }

  /** `bool`'s `Display`. */
  function BoolText(b: bool): (s: string)
    ensures s == "true" || s == "false"
    ensures (s == "true") == b
  {
    if b then "true" else "false"
  }

  /** `stations_observations_latest`: no query at all without `require_qc`,
      and exactly that one pair with it. */
  method StationsObservationsLatest(id: string, requireQc: Option<bool>) returns (req: Request)
    ensures req.url == Root + "/stations/" + id + "/observations/latest"
    ensures requireQc.None? <==> req.query.None?
    ensures requireQc.Some? ==> req.query == Some([("require_qc", BoolText(requireQc.value))])
  {
    var params: Option<Params> := None;
    if requireQc.Some? {
      params := Some([("require_qc", BoolText(requireQc.value))]);
    }
    req := Get("/stations/" + id + "/observations/latest", params);
  }

  // ---------------------------------------------------------------------
  // Paths
  // ---------------------------------------------------------------------

  /** `stations_id`. */
  function StationsId(id: string): (r: Request)
    ensures r.query.None? && r.url == Root + "/stations/" + id
  {
    Get("/stations/" + id, None)
  }

  /** `stations_observations_time`, with the time already formatted. */
  function StationsObservationsTime(id: string, time: string): (r: Request)
    ensures r.query.None? && r.url == Root + "/stations/" + id + "/observations/" + time
  {
    Get("/stations/" + id + "/observations/" + time, None)
  }

  /** The coordinates of a grid point, `x,y`. */
  function Coordinates(x: Usize, y: Usize): string {
    NatToDecimal(x) + "," + NatToDecimal(y)
  }

  /** The path of a forecast grid point: office `id`, then its coordinates. */
  function GridpointPath(id: string, x: Usize, y: Usize): string {
    "/gridpoints/" + id + "/" + Coordinates(x, y)
  }

  /** `gridpoints`. */
  function Gridpoints(id: string, x: Usize, y: Usize): (r: Request)
    ensures r.query.None? && r.url == Root + GridpointPath(id, x, y)
  {
    Get(GridpointPath(id, x, y), None)
  }

  /** `gridpoints_stations`: the grid point's path followed by `/stations`. */
  function GridpointsStations(id: string, x: Usize, y: Usize): (r: Request)
    ensures r.query.None? && r.url == Root + GridpointPath(id, x, y) + "/stations"
  {
    Get(GridpointPath(id, x, y) + "/stations", None)
  }

  /** Reads a grid-point path back: the office, the two coordinates, and
      whether it asks for the grid point's stations. */
  function ParseGridpointPath(path: string): Option<(string, nat, nat, bool)> {
    ParseGridpointPieces(Split(path, '/'))
  }

  function ParseGridpointPieces(parts: seq<string>): Option<(string, nat, nat, bool)> {
    if (|parts| == 4 || (|parts| == 5 && parts[4] == "stations")) && parts[0] == [] && parts[1] == "gridpoints" then
      var xy := Split(parts[3], ',');
      if |xy| == 2 && ParseUsize(xy[0]).Some? && ParseUsize(xy[1]).Some? then
        Some((parts[2], ParseUsize(xy[0]).value, ParseUsize(xy[1]).value, |parts| == 5))
      else None
    else None
  }

  /** A numeral has no separator in it. */
  lemma NumeralHasNo(n: nat, c: char)
    requires !IsDigit(c)
    ensures c !in NatToDecimal(n)
  {
    var d := NatToDecimal(n);
    assert forall i :: 0 <= i < |d| ==> d[i] != c;
  }

  /** The coordinate pair of a grid-point path. */
  lemma CoordinatesRoundTrip(x: Usize, y: Usize)
    ensures var xy := Coordinates(x, y);
      && '/' !in xy
      && Split(xy, ',') == [NatToDecimal(x), NatToDecimal(y)]
  {
    var dx, dy := NatToDecimal(x), NatToDecimal(y);
    NumeralHasNo(x, ','); NumeralHasNo(y, ',');
    NumeralHasNo(x, '/'); NumeralHasNo(y, '/');
    assert Join([dx, dy], ',') == dx + "," + dy;
    SplitJoin([dx, dy], ',');
    assert dx + "," + dy == dx + [','] + dy;
  }

  /** A grid-point path is its pieces joined with `/`, the first piece empty. */
  lemma PathPieces(id: string, xy: string)
    ensures "/gridpoints/" + id + "/" + xy == Join([[], "gridpoints", id, xy], '/')
  {
    var tail := Join([id, xy], '/');
    assert [id, xy][1..] == [xy];
    assert Join([xy], '/') == xy;
    assert tail == id + ['/'] + xy;
    var four: seq<string> := [[], "gridpoints", id, xy];
    assert four[1..] == ["gridpoints", id, xy] && four[1..][1..] == [id, xy];
    assert Join(four, '/') == [] + "/" + ("gridpoints" + "/" + tail);
    assert "/gridpoints/" == "/" + "gridpoints" + "/";
  }

  /** The pieces of a grid-point path read back as the office and the
      coordinates. */
  lemma GridpointPiecesRoundTrip(parts: seq<string>, id: string, x: Usize, y: Usize)
    requires |parts| == 4 || (|parts| == 5 && parts[4] == "stations")
    requires parts[0] == [] && parts[1] == "gridpoints" && parts[2] == id
    requires parts[3] == Coordinates(x, y)
    ensures ParseGridpointPieces(parts) == Some((id, x as nat, y as nat, |parts| == 5))
  {
    CoordinatesRoundTrip(x, y);
    DecimalRoundTrip(x);
    DecimalRoundTrip(y);
  }

  /** A path made of pieces with no `/` in them is parsed piece by piece. */
  lemma ParseJoinedPieces(path: string, parts: seq<string>)
    requires parts != [] && path == Join(parts, '/')
    requires forall i :: 0 <= i < |parts| ==> '/' !in parts[i]
    ensures ParseGridpointPath(path) == ParseGridpointPieces(parts)
  {
    SplitJoin(parts, '/');
  }

  /** Appending `/stations` to a joined path joins one more piece. */
  lemma StationsPiece(path: string, parts: seq<string>)
    requires parts != [] && path == Join(parts, '/')
    ensures path + "/stations" == Join(parts + ["stations"], '/')
  {
    JoinSnoc(parts, "stations", '/');
    assert "/stations" == ['/'] + "stations";
  }

  /** None of the pieces of a grid-point path holds a `/`. */
  lemma PiecesHaveNoSlash(id: string, xy: string, parts: seq<string>)
    requires '/' !in id && '/' !in xy
    requires parts == [[], "gridpoints", id, xy] || parts == [[], "gridpoints", id, xy, "stations"]
    ensures forall i :: 0 <= i < |parts| ==> '/' !in parts[i]
  {
    assert '/' !in "gridpoints" && '/' !in "stations";
  }

  /** Grid-point paths read back as what built them, for an office with no
      `/` in it. */
  lemma GridpointPathRoundTrip(id: string, x: Usize, y: Usize)
    requires '/' !in id
    ensures ParseGridpointPath(GridpointPath(id, x, y)) == Some((id, x as nat, y as nat, false))
  {
    var xy := Coordinates(x, y);
    CoordinatesRoundTrip(x, y);
    var four: seq<string> := [[], "gridpoints", id, xy];
    PathPieces(id, xy);
    PiecesHaveNoSlash(id, xy, four);
    ParseJoinedPieces(GridpointPath(id, x, y), four);
    GridpointPiecesRoundTrip(four, id, x, y);
  }

  /** The stations of a grid point read back as the grid point, marked as
      asking for its stations. */
  lemma GridpointStationsPathRoundTrip(id: string, x: Usize, y: Usize)
    requires '/' !in id
    ensures ParseGridpointPath(GridpointPath(id, x, y) + "/stations") == Some((id, x as nat, y as nat, true))
  {
    var xy := Coordinates(x, y);
    CoordinatesRoundTrip(x, y);
    var four: seq<string> := [[], "gridpoints", id, xy];
    PathPieces(id, xy);
    var path := GridpointPath(id, x, y);
    var five := four + ["stations"];
    StationsPiece(path, four);
    PiecesHaveNoSlash(id, xy, five);
    ParseJoinedPieces(path + "/stations", five);
    GridpointPiecesRoundTrip(five, id, x, y);
  }

  // ---------------------------------------------------------------------
  // Radar
  // ---------------------------------------------------------------------

  /** The directory of the MRMS data server that holds the level-2 radar
      products of every site. */
  const RadarRoot: string := "https://mrms.ncep.noaa.gov/data/RIDGEII/L2/"

  /** The scheme and host the URL parser reports for any radar base URL. */
  const RadarOrigin: Radar.Origin := Radar.Origin("https", "mrms.ncep.noaa.gov")

  /** The index page of product `t` of radar site `id`: always a directory,
      ending in `/`, so a file name can be appended to it. */
  function RadarBase(id: string, t: Radar.RadarType): (base: string)
    ensures |base| > |RadarRoot| && base[..|RadarRoot|] == RadarRoot && base[|base| - 1] == '/'
  {
    RadarRoot + RadarPath(id, t)
  }

  /** The part of a radar base URL below `RadarRoot`. */
  function RadarPath(id: string, t: Radar.RadarType): string {
    id + "/" + Radar.Display(t) + "/"
  }

  /** Reads the site and the product back from a radar base URL. */
  function ParseRadarBase(base: string): Option<(string, Radar.RadarType)> {
    if |base| < |RadarRoot| || base[..|RadarRoot|] != RadarRoot then None
    else
      var parts := Split(base[|RadarRoot|..], '/');
      if |parts| == 3 && parts[2] == [] && Radar.Decode(parts[1]).Some? then Some((parts[0], Radar.Decode(parts[1]).value))
      else None
  }

  /** The path below the root is the site, the product and an empty last
      piece, joined with `/`. */
  lemma RadarPathPieces(id: string, t: Radar.RadarType)
    ensures RadarPath(id, t) == Join([id, Radar.Display(t), []], '/')
  {
    var code := Radar.Display(t);
    var pieces := [id, code, []];
    assert pieces[1..] == [code, []] && [code, []][1..] == [[]];
    assert Join([[]], '/') == [];
    assert Join([code, []], '/') == code + ['/'];
    assert Join(pieces, '/') == id + ['/'] + (code + ['/']);
  }

  /** A product code has no `/` in it. */
  lemma CodeHasNoSlash(t: Radar.RadarType)
    ensures '/' !in Radar.Display(t)
  {
  }

  /** A radar base URL names its site and its product, for a site with no `/`
      in it. */
  lemma RadarBaseRoundTrip(id: string, t: Radar.RadarType)
    requires '/' !in id
    ensures ParseRadarBase(RadarBase(id, t)) == Some((id, t))
  {
    var code := Radar.Display(t);
    var base := RadarBase(id, t);
    var pieces := [id, code, []];
    assert base[|RadarRoot|..] == RadarPath(id, t);
    RadarPathPieces(id, t);
    CodeHasNoSlash(t);
    assert forall i :: 0 <= i < |pieces| ==> '/' !in pieces[i];
    SplitJoin(pieces, '/');
    Radar.DecodeDisplay(t);
  }

  /** `radar`: crawls the index page of product `t` of site `id`. */
  method RadarFiles(id: string, t: Radar.RadarType, cells: seq<Radar.Cell>)
    returns (r: Result<seq<Radar.RemoteFile>, Radar.Fault>)
    ensures r == Radar.CrawlRows(RadarBase(id, t), Some(RadarOrigin), cells)
  {
    r := Radar.Crawl(RadarBase(id, t), Some(RadarOrigin), cells);
  }
}
