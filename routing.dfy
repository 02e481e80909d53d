/** Driving routes between a day's cached points (`routing.py`). OSRM is an
    oracle from the request to its reply; the geocoding cache is a value. */
module Routing {
  import opened Common
  import opened Text
  import opened Models

  const OSRM_URL: string := "https://router.project-osrm.org/route/v1/driving"

  /** The fixed query parameters of every route request. */
  const ROUTE_PARAMS: seq<(string, string)> := [("overview", "full"), ("geometries", "geojson"), ("steps", "false")]

  // ------------------------------------------------------------- waypoints

  /** `_get_coordinates`: the cache row stored under exactly `name`, turned
      round into OSRM's (longitude, latitude) order; None on a miss. */
  function GetCoordinates(name: string, cache: map<string, CacheEntry>): (r: Option<LonLat>)
    ensures r.Some? <==> name in cache
    ensures r.Some? ==> r.value == LonLat(cache[name].longitude, cache[name].latitude)
  {
    if name in cache then Some(LonLat(cache[name].longitude, cache[name].latitude)) else None
  }

  /** The waypoint a start or end location contributes: none when it is
      empty or not cached. */
  function Endpoint(location: Option<string>, cache: map<string, CacheEntry>): (w: seq<LonLat>)
    ensures |w| <= 1
    ensures |w| == 1 <==> Truthy(location) && location.value in cache
  {
    if Truthy(location) then
      match GetCoordinates(location.value, cache)
      case Some(c) => [c]
      case None => []
    else []
  }

  /** Whether a place has both coordinates. */
  predicate Resolved(p: Place)
    reads p
  {
    p.longitude.Some? && p.latitude.Some?
  }

  /** The waypoints of the resolved places, in place order. */
  function PlacePoints(ps: seq<Place>): (w: seq<LonLat>)
    reads ps
    ensures |w| <= |ps|
    decreases |ps|
  {
    if ps == [] then []
    else
      var n := |ps| - 1;
      PlacePoints(ps[..n]) + Point(ps[n])
  }

  /** The waypoint of one place: its coordinates when it has both. */
  function Point(p: Place): (w: seq<LonLat>)
    reads p
    ensures |w| <= 1
  {
    if Resolved(p) then [LonLat(p.longitude.value, p.latitude.value)] else []
  }

  /** `_build_waypoints`: start, then the resolved places, then end. */
  function Waypoints(day: Day, cache: map<string, CacheEntry>): (w: seq<LonLat>)
    reads day.places
  {
    Endpoint(day.startLocation, cache) + PlacePoints(day.places) + Endpoint(day.endLocation, cache)
  }

  /** The points of consecutive runs of places follow each other: the
      place order is kept. */
  lemma {:induction false} PlacePointsAppend(ps: seq<Place>, qs: seq<Place>)
    ensures PlacePoints(ps + qs) == PlacePoints(ps) + PlacePoints(qs)
    decreases |qs|
  {
    if qs != [] {
      var n := |qs| - 1;
      PlacePointsAppend(ps, qs[..n]);
      assert PlacePoints(ps + qs) == PlacePoints(ps + qs[..n]) + Point(qs[n]) by {
        assert (ps + qs)[..|ps| + n] == ps + qs[..n];
        assert (ps + qs)[|ps| + n] == qs[n];
      }
      assert PlacePoints(qs) == PlacePoints(qs[..n]) + Point(qs[n]);
    } else {
      assert ps + qs == ps;
    }
  }

  /** When every place is resolved, waypoint k is place k's coordinates. */
  lemma {:induction false} PlacePointsAllResolved(ps: seq<Place>)
    requires forall p :: p in ps ==> Resolved(p)
    ensures |PlacePoints(ps)| == |ps|
    ensures forall k :: 0 <= k < |ps| ==> Resolved(ps[k]) && PlacePoints(ps)[k] == LonLat(ps[k].longitude.value, ps[k].latitude.value)
    decreases |ps|
  {
    if ps != [] {
      var n := |ps| - 1;
      assert forall p :: p in ps[..n] ==> p in ps;
      assert ps[n] in ps;
      PlacePointsAllResolved(ps[..n]);
    }
  }

  /** Unresolved places add no waypoint. */
  lemma {:induction false} PlacePointsNoneResolved(ps: seq<Place>)
    requires forall p :: p in ps ==> !Resolved(p)
    ensures PlacePoints(ps) == []
    decreases |ps|
  {
    if ps != [] {
      var n := |ps| - 1;
      assert forall p :: p in ps[..n] ==> p in ps;
      assert ps[n] in ps;
      PlacePointsNoneResolved(ps[..n]);
    }
  }

  /** At most one waypoint per place plus the two endpoints; a cached
      start comes first and a cached end comes last. */
  lemma WaypointsShape(day: Day, cache: map<string, CacheEntry>)
    ensures |Waypoints(day, cache)| <= |day.places| + 2
    ensures Truthy(day.startLocation) && day.startLocation.value in cache ==>
      Waypoints(day, cache)[0] == GetCoordinates(day.startLocation.value, cache).value
    ensures Truthy(day.endLocation) && day.endLocation.value in cache ==>
      Waypoints(day, cache)[|Waypoints(day, cache)| - 1] == GetCoordinates(day.endLocation.value, cache).value
  {
  }

  // ---------------------------------------------------------- the request

  /** "lon,lat" for one waypoint, with `fmt` the float formatting. */
  function Pair(w: LonLat, fmt: real -> string): string
  {
    fmt(w.lon) + "," + fmt(w.lat)
  }

  function Pairs(ws: seq<LonLat>, fmt: real -> string): (ps: seq<string>)
    ensures |ps| == |ws| && forall i :: 0 <= i < |ws| ==> ps[i] == Pair(ws[i], fmt)
  {
    seq(|ws|, i requires 0 <= i < |ws| => Pair(ws[i], fmt))
  }

  /** The path of the request: each waypoint as "lon,lat", joined by ";". */
  function CoordsPath(ws: seq<LonLat>, fmt: real -> string): string
  {
    Join(Pairs(ws, fmt), ";")
  }

  /** The path lists the waypoints in input order: when no formatted number
      contains ';' or ',', splitting the path on ';' gives one "lon,lat"
      piece per waypoint, and splitting piece i on ',' gives waypoint i. */
  lemma CoordsPathSplits(ws: seq<LonLat>, fmt: real -> string)
    requires ws != []
    requires forall x :: ';' !in fmt(x) && ',' !in fmt(x)
    ensures SplitOn(CoordsPath(ws, fmt), ';') == Pairs(ws, fmt)
    ensures forall i :: 0 <= i < |ws| ==> SplitOn(Pairs(ws, fmt)[i], ',') == [fmt(ws[i].lon), fmt(ws[i].lat)]
  {
    var ps := Pairs(ws, fmt);
    forall p | p in ps
      ensures ';' !in p
    {
      var i :| 0 <= i < |ps| && ps[i] == p;
      assert p == fmt(ws[i].lon) + [','] + fmt(ws[i].lat);
    }
    SplitOnJoin(ps, ';');
    forall i | 0 <= i < |ws|
      ensures SplitOn(ps[i], ',') == [fmt(ws[i].lon), fmt(ws[i].lat)]
    {
      assert ps[i] == fmt(ws[i].lon) + [','] + fmt(ws[i].lat);
      SplitOnFirst(fmt(ws[i].lon), ',', fmt(ws[i].lat));
      SplitOnWithout(fmt(ws[i].lat), ',');
    }
  }

  // ----------------------------------------------------------- the reply

  datatype Leg = Leg(distance: real, duration: real)

  /** One entry of the reply's `routes`; `legs` is None when the key is
      absent. */
  datatype OsrmRoute = OsrmRoute(distance: real, duration: real, geometry: Geometry, legs: Option<seq<Leg>>)

  /** What the client call yields: an exception (network error, timeout,
      HTTP error status, undecodable body) or the decoded JSON, with
      `code`/`routes` None when the key is absent. */
  datatype OsrmReply = Unreachable | Answer(code: Option<string>, routes: Option<seq<OsrmRoute>>)

  datatype OsrmRequest = OsrmRequest(url: string, params: seq<(string, string)>)

  type Osrm = OsrmRequest -> OsrmReply

  /** One segment per leg, the i-th joining waypoint i to waypoint i + 1. */
  function Segments(legs: seq<Leg>): (segs: seq<Segment>)
    ensures |segs| == |legs|
  {
    seq(|legs|, i requires 0 <= i < |legs| => Segment(i, i + 1, legs[i].distance, legs[i].duration))
  }

  /** The reply read as a route: None for an exception, a code other than
      "Ok", or no routes; otherwise the first route's totals and geometry
      and its legs as segments. */
  function ParseRoute(reply: OsrmReply): (r: Option<RouteResult>)
  {
    match reply
    case Unreachable => None
    case Answer(code, routes) =>
      if code != Some("Ok") || routes.None? || routes.value == [] then None
      else
        var route := routes.value[0];
        var legs := if route.legs.Some? then route.legs.value else [];
        Some(RouteResult(route.distance, route.duration, route.geometry, Segments(legs)))
  }

  /** The requests made and the route obtained. */
  datatype RouteCall = RouteCall(result: Option<RouteResult>, requested: seq<OsrmRequest>)

  /** `get_route`. */
  function GetRoute(ws: seq<LonLat>, fmt: real -> string, osrm: Osrm): RouteCall
  {
    if |ws| < 2 then RouteCall(None, [])
    else
      var request := OsrmRequest(OSRM_URL + "/" + CoordsPath(ws, fmt), ROUTE_PARAMS);
      RouteCall(ParseRoute(osrm(request)), [request])
  }

  /** Fewer than two waypoints: no route and no request. Otherwise exactly
      one request, to the OSRM URL followed by the waypoint path. */
  lemma GetRouteRequests(ws: seq<LonLat>, fmt: real -> string, osrm: Osrm)
    ensures |ws| < 2 ==> GetRoute(ws, fmt, osrm) == RouteCall(None, [])
    ensures |ws| >= 2 ==>
      GetRoute(ws, fmt, osrm).requested == [OsrmRequest(OSRM_URL + "/" + CoordsPath(ws, fmt), ROUTE_PARAMS)]
  {
  }

  /** An exception, a code other than "Ok", or absent or empty routes give
      no route. */
  lemma GetRouteFailures(ws: seq<LonLat>, fmt: real -> string, osrm: Osrm)
    requires |ws| >= 2
    requires var reply := osrm(OsrmRequest(OSRM_URL + "/" + CoordsPath(ws, fmt), ROUTE_PARAMS));
      || reply.Unreachable?
      || reply.code != Some("Ok")
      || reply.routes.None?
      || reply.routes.value == []
    ensures GetRoute(ws, fmt, osrm).result == None
  {
  }

  /** A route obtained copies the first route's totals and geometry and has
      one segment per leg: segment i runs from waypoint i to waypoint i + 1
      with that leg's distance and duration. */
  lemma GetRouteSegments(ws: seq<LonLat>, fmt: real -> string, osrm: Osrm)
    requires GetRoute(ws, fmt, osrm).result.Some?
    ensures var reply := osrm(OsrmRequest(OSRM_URL + "/" + CoordsPath(ws, fmt), ROUTE_PARAMS));
      var route := reply.routes.value[0];
      var legs := if route.legs.Some? then route.legs.value else [];
      var r := GetRoute(ws, fmt, osrm).result.value;
      && |ws| >= 2 && reply.Answer? && reply.code == Some("Ok") && reply.routes.Some? && reply.routes.value != []
      && r.totalDistanceM == route.distance && r.totalDurationS == route.duration && r.geometry == route.geometry
      && |r.segments| == |legs|
      && (forall i :: 0 <= i < |legs| ==>
            r.segments[i] == Segment(i, i + 1, legs[i].distance, legs[i].duration))
  {
  }

  /** Consecutive segments share a waypoint and the last ends at the last
      leg's end: the segments chain from waypoint 0 to waypoint |legs|. */
  lemma SegmentsChain(legs: seq<Leg>)
    ensures forall i :: 0 <= i < |legs| ==> Segments(legs)[i].fromIndex == i && Segments(legs)[i].toIndex == i + 1
    ensures forall i :: 0 <= i < |legs| - 1 ==> Segments(legs)[i].toIndex == Segments(legs)[i + 1].fromIndex
  {
  }

  // ---------------------------------------------------------- route_trip

  /** `str(day_number)` of each day, in order. */
  function DayKeys(days: seq<Day>): (ks: seq<string>)
    ensures |ks| == |days| && forall i :: 0 <= i < |days| ==> ks[i] == IntToString(days[i].dayNumber)
  {
    seq(|days|, i requires 0 <= i < |days| => IntToString(days[i].dayNumber))
  }

  /** The places objects of all days. */
  function AllPlaces(days: seq<Day>): set<Place>
  {
    set d, p | d in days && p in d.places :: p
  }

  /** The waypoints of each day, in day order. */
  function DayWaypoints(days: seq<Day>, cache: map<string, CacheEntry>): (wss: seq<seq<LonLat>>)
    reads AllPlaces(days)
    ensures |wss| == |days|
    decreases |days|
  {
    if days == [] then []
    else
      var n := |days| - 1;
      assert forall d :: d in days[..n] ==> d in days;
      assert days[n] in days;
      assert forall p :: p in days[n].places ==> p in AllPlaces(days);
      DayWaypoints(days[..n], cache) + [Waypoints(days[n], cache)]
  }

  lemma {:induction false} DayWaypointsAt(days: seq<Day>, cache: map<string, CacheEntry>, i: nat)
    requires i < |days|
    ensures DayWaypoints(days, cache)[i] == Waypoints(days[i], cache)
    decreases |days|
  {
    var n := |days| - 1;
    if i < n {
      DayWaypointsAt(days[..n], cache, i);
    }
  }

  /** The value route_trip stores for a day with these waypoints: None
      unless there are at least two and OSRM gives a route. */
  function DayRoute(ws: seq<LonLat>, fmt: real -> string, osrm: Osrm): Option<RouteResult>
  {
    if |ws| >= 2 then GetRoute(ws, fmt, osrm).result else None
  }

  /** The guard in route_trip repeats the one in get_route. */
  lemma DayRouteIsGetRoute(ws: seq<LonLat>, fmt: real -> string, osrm: Osrm)
    ensures DayRoute(ws, fmt, osrm) == GetRoute(ws, fmt, osrm).result
  {
  }

  /** The stored value of each day, in order. */
  function DayRoutes(wss: seq<seq<LonLat>>, fmt: real -> string, osrm: Osrm): (rs: seq<Option<RouteResult>>)
    ensures |rs| == |wss|
    ensures forall i :: 0 <= i < |wss| ==> rs[i] == DayRoute(wss[i], fmt, osrm)
  {
    seq(|wss|, i requires 0 <= i < |wss| => DayRoute(wss[i], fmt, osrm))
  }

  /** The keys are the day numbers written out. */
  lemma DayKeySet(days: seq<Day>)
    ensures (set k | k in DayKeys(days)) == (set d | d in days :: IntToString(d.dayNumber))
  {
    var keys := DayKeys(days);
    forall k | k in keys ensures exists d :: d in days && k == IntToString(d.dayNumber) {
      var j :| 0 <= j < |keys| && keys[j] == k;
      assert days[j] in days;
    }
    forall d | d in days ensures IntToString(d.dayNumber) in keys {
      var j :| 0 <= j < |days| && days[j] == d;
      assert keys[j] == IntToString(d.dayNumber);
    }
  }

  /** Writing `vals[i]` under each day's key, in day order, keys the table
      by every day, and a day number that occurs once keeps its own value. */
  lemma KeyedByDay<V>(days: seq<Day>, vals: seq<V>, i: nat)
    requires |vals| == |days| && i < |days|
    requires forall j :: i < j < |days| ==> days[j].dayNumber != days[i].dayNumber
    ensures var table := Assoc(map[], DayKeys(days), vals);
      && table.Keys == (set d | d in days :: IntToString(d.dayNumber))
      && table[IntToString(days[i].dayNumber)] == vals[i]
  {
    var keys := DayKeys(days);
    AssocKeys(map[], keys, vals);
    DayKeySet(days);
    forall j | i < j < |days|
      ensures keys[j] != keys[i]
    {
      IntToStringInjective(days[j].dayNumber, days[i].dayNumber);
    }
    assert keys[i] !in keys[i + 1..];
    AssocLastWins(map[], keys, vals, i);
  }

  /** The table route_trip returns: every day's key, and for a day number
      that occurs once, that day's route or None. (A repeated day number
      keeps its last day's value.) */
  lemma RouteTable(days: seq<Day>, cache: map<string, CacheEntry>, fmt: real -> string, osrm: Osrm, i: nat)
    requires i < |days|
    requires forall j :: i < j < |days| ==> days[j].dayNumber != days[i].dayNumber
    ensures var table := Assoc(map[], DayKeys(days), DayRoutes(DayWaypoints(days, cache), fmt, osrm));
      && table.Keys == (set d | d in days :: IntToString(d.dayNumber))
      && table[IntToString(days[i].dayNumber)] == GetRoute(Waypoints(days[i], cache), fmt, osrm).result
  {
    KeyedByDay(days, DayRoutes(DayWaypoints(days, cache), fmt, osrm), i);
    DayWaypointsAt(days, cache, i);
  }

  // ------------------------------------------------------------ the code

  /** The points of the first k + 1 places extend those of the first k. */
  lemma PlacePointsSnoc(ps: seq<Place>, k: nat)
    requires k < |ps|
    ensures PlacePoints(ps[..k + 1]) == PlacePoints(ps[..k]) + Point(ps[k])
  {
    assert ps[..k + 1][..k] == ps[..k];
  }

  /** The step `_build_waypoints` takes for its start and for its end
      location: append the cached coordinates, if any. */
  method AppendEndpoint(ws: seq<LonLat>, location: Option<string>, cache: map<string, CacheEntry>) returns (ws': seq<LonLat>)
    ensures ws' == ws + Endpoint(location, cache)
  {
    ws' := ws;
    if Truthy(location) {
      var coords := GetCoordinates(location.value, cache);
      if coords.Some? {
        ws' := ws' + [coords.value];
      }
    }
  }

  /** `_build_waypoints`, appending as it goes. */
  method BuildWaypoints(day: Day, cache: map<string, CacheEntry>) returns (ws: seq<LonLat>)
    ensures ws == Waypoints(day, cache)
  {
    ws := AppendEndpoint([], day.startLocation, cache);
    ws := AppendPlaces(ws, day.places);
    ws := AppendEndpoint(ws, day.endLocation, cache);
  }

  /** The place loop of `_build_waypoints`. */
  method AppendPlaces(ws: seq<LonLat>, places: seq<Place>) returns (ws': seq<LonLat>)
    ensures ws' == ws + PlacePoints(places)
  {
    ws' := ws;
    for k := 0 to |places|
      invariant ws' == ws + PlacePoints(places[..k])
    {
      PlacePointsSnoc(places, k);
      ws' := AppendPoint(ws', places[k]);
    }
    assert places[..|places|] == places;
  }

  /** The step `_build_waypoints` takes for a place: append its
      coordinates when it has both. */
  method AppendPoint(ws: seq<LonLat>, place: Place) returns (ws': seq<LonLat>)
    ensures ws' == ws + Point(place)
  {
    ws' := ws;
    if place.longitude.Some? && place.latitude.Some? {
      ws' := ws' + [LonLat(place.longitude.value, place.latitude.value)];
    }
  }

  /** The segment loop of get_route. */
  method BuildSegments(legs: seq<Leg>) returns (segs: seq<Segment>)
    ensures segs == Segments(legs)
  {
    segs := [];
    var i := 0;
    while i < |legs|
      invariant i <= |legs|
      invariant segs == Segments(legs)[..i]
    {
      segs := segs + [Segment(i, i + 1, legs[i].distance, legs[i].duration)];
      i := i + 1;
    }
  }

  /** `get_route`: the guard, one request, then the reply read. */
  method FetchRoute(ws: seq<LonLat>, fmt: real -> string, osrm: Osrm) returns (result: Option<RouteResult>, ghost requested: seq<OsrmRequest>)
    ensures result == GetRoute(ws, fmt, osrm).result
    ensures requested == GetRoute(ws, fmt, osrm).requested
  {
    if |ws| < 2 {
      return None, [];
    }
    var request := OsrmRequest(OSRM_URL + "/" + CoordsPath(ws, fmt), ROUTE_PARAMS);
    requested := [request];
    var reply := osrm(request);
    if reply.Unreachable? {
      return None, requested;
    }
    if reply.code != Some("Ok") || reply.routes.None? || reply.routes.value == [] {
      return None, requested;
    }
    var route := reply.routes.value[0];
    var legs := if route.legs.Some? then route.legs.value else [];
    var segments := BuildSegments(legs);
    result := Some(RouteResult(route.distance, route.duration, route.geometry, segments));
  }

  /** The body of route_trip's loop for one day. */
  method RouteDay(day: Day, cache: map<string, CacheEntry>, fmt: real -> string, osrm: Osrm) returns (value: Option<RouteResult>)
    ensures value == DayRoute(Waypoints(day, cache), fmt, osrm)
  {
    var waypoints := BuildWaypoints(day, cache);
    value := None;
    if |waypoints| >= 2 {
      var routeResult, requested := FetchRoute(waypoints, fmt, osrm);
      value := routeResult;
    }
  }

  /** `route_trip`: one entry per day, written in day order. */
  method RouteTrip(days: seq<Day>, cache: map<string, CacheEntry>, fmt: real -> string, osrm: Osrm)
    returns (routeData: map<string, Option<RouteResult>>)
    ensures routeData == Assoc(map[], DayKeys(days), DayRoutes(DayWaypoints(days, cache), fmt, osrm))
  {
    ghost var keys := DayKeys(days);
    ghost var vals := DayRoutes(DayWaypoints(days, cache), fmt, osrm);
    routeData := map[];
    var i := 0;
    while i < |days|
      invariant i <= |days|
      invariant vals == DayRoutes(DayWaypoints(days, cache), fmt, osrm)
      invariant routeData == Assoc(map[], keys[..i], vals[..i])
    {
      assert forall p :: p in AllPlaces(days) ==> allocated(p);
      var value := RouteDayAt(days, cache, fmt, osrm, i);
      AssocSnoc(map[], keys, vals, i);
      routeData := routeData[IntToString(days[i].dayNumber) := value];
      i := i + 1;
    }
    assert keys[..i] == keys;
    assert vals[..i] == vals;
  }

  /** The loop body of route_trip for day `i`. */
  method RouteDayAt(days: seq<Day>, cache: map<string, CacheEntry>, fmt: real -> string, osrm: Osrm, i: nat)
    returns (value: Option<RouteResult>)
    requires i < |days|
    ensures value == DayRoutes(DayWaypoints(days, cache), fmt, osrm)[i]
  {
    DayWaypointsAt(days, cache, i);
    assert forall p :: p in AllPlaces(days) ==> allocated(p);
    value := RouteDay(days[i], cache, fmt, osrm);
  }
}
