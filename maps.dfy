/** The template context for the printed travel book
    (`maps.py` `_build_template_data`): the trip's days and places joined
    with the enrichment stored on the trip. */
module Maps {
  import opened Common
  import opened Text
  import opened Models

  datatype TripHeader = TripHeader(title: string, startDate: Option<string>, endDate: Option<string>)

  datatype PlaceView = PlaceView(
    name: string, placeType: string,
    latitude: Option<real>, longitude: Option<real>,
    enrichment: Option<PlaceInfo>)

  datatype DayView = DayView(
    dayNumber: int, startLocation: Option<string>, endLocation: Option<string>,
    startCoords: Option<LatLon>, endCoords: Option<LatLon>,
    route: Option<RouteResult>,
    places: seq<PlaceView>)

  datatype TemplateData = TemplateData(trip: TripHeader, days: seq<DayView>)

  /** `enriched.get("routes", {})`, with no enrichment read as empty. */
  function RoutesOf(enriched: Option<EnrichedData>): map<string, Option<RouteResult>>
  {
    if enriched.Some? && enriched.value.routes.Some? then enriched.value.routes.value else map[]
  }

  /** `enriched.get("places", {})`. */
  function PlaceEnrichmentOf(enriched: Option<EnrichedData>): map<string, PlaceInfo>
  {
    if enriched.Some? && enriched.value.places.Some? then enriched.value.places.value else map[]
  }

  /** `enriched.get("start_end_coords", {})`. */
  function StartEndOf(enriched: Option<EnrichedData>): map<string, StartEnd>
  {
    if enriched.Some? && enriched.value.startEndCoords.Some? then enriched.value.startEndCoords.value else map[]
  }

  /** `routes.get(key)`: a missing key and a stored None both give None. */
  function RouteAt(routes: map<string, Option<RouteResult>>, key: string): Option<RouteResult>
  {
    if key in routes then routes[key] else None
  }

  function EnrichmentAt(places: map<string, PlaceInfo>, name: string): Option<PlaceInfo>
  {
    if name in places then Some(places[name]) else None
  }

  /** `start_end_coords.get(key, {})`; its "start" and "end". */
  function CoordsAt(coords: map<string, StartEnd>, key: string): StartEnd
  {
    if key in coords then coords[key] else StartEnd(None, None)
  }

  /** `_build_template_data`. The header copies the trip's title and dates;
      day i of the result is day i of the trip, with its route and
      start/end coordinates looked up under `str(day_number)`; place j of
      day i is place j of that day with its enrichment looked up under its
      name. Without enrichment every lookup is None. */
  method BuildTemplateData(trip: Trip) returns (ctx: TemplateData)
    ensures ctx.trip == TripHeader(trip.title, trip.startDate, trip.endDate)
    ensures |ctx.days| == |trip.days|
    ensures forall i :: 0 <= i < |trip.days| ==>
      var day, view := trip.days[i], ctx.days[i];
      var key := IntToString(day.dayNumber);
      && view.dayNumber == day.dayNumber
      && view.startLocation == day.startLocation && view.endLocation == day.endLocation
      && view.route == RouteAt(RoutesOf(trip.enrichedData), key)
      && view.startCoords == CoordsAt(StartEndOf(trip.enrichedData), key).startCoords
      && view.endCoords == CoordsAt(StartEndOf(trip.enrichedData), key).endCoords
      && |view.places| == |day.places|
      && forall j :: 0 <= j < |day.places| ==>
           view.places[j] == PlaceView(day.places[j].name, day.places[j].placeType,
                                       day.places[j].latitude, day.places[j].longitude,
                                       EnrichmentAt(PlaceEnrichmentOf(trip.enrichedData), day.places[j].name))
    ensures trip.enrichedData.None? ==> forall i :: 0 <= i < |ctx.days| ==>
      && ctx.days[i].route == None && ctx.days[i].startCoords == None && ctx.days[i].endCoords == None
      && forall j :: 0 <= j < |ctx.days[i].places| ==> ctx.days[i].places[j].enrichment == None
  {
    var routes := RoutesOf(trip.enrichedData);
    var placesEnrichment := PlaceEnrichmentOf(trip.enrichedData);
    var startEndCoords := StartEndOf(trip.enrichedData);
    var days: seq<DayView> := [];
    for i := 0 to |trip.days|
      invariant |days| == i
      invariant forall k :: 0 <= k < i ==> DayMatches(trip.days[k], days[k], routes, placesEnrichment, startEndCoords)
    {
      var day := trip.days[i];
      var dayNumber := IntToString(day.dayNumber);
      var route := RouteAt(routes, dayNumber);
      var coords := CoordsAt(startEndCoords, dayNumber);
      var places: seq<PlaceView> := [];
      for j := 0 to |day.places|
        invariant |places| == j
        invariant forall k :: 0 <= k < j ==> places[k] == ViewOf(day.places[k], placesEnrichment)
      {
        var place := day.places[j];
        var enrichment := EnrichmentAt(placesEnrichment, place.name);
        places := places + [PlaceView(place.name, place.placeType, place.latitude, place.longitude, enrichment)];
      }
      days := days + [DayView(day.dayNumber, day.startLocation, day.endLocation, coords.startCoords, coords.endCoords, route, places)];
    }
    ctx := TemplateData(TripHeader(trip.title, trip.startDate, trip.endDate), days);
  }

  /** The view of one place. */
  function ViewOf(place: Place, enrichment: map<string, PlaceInfo>): PlaceView
    reads place
  {
    PlaceView(place.name, place.placeType, place.latitude, place.longitude, EnrichmentAt(enrichment, place.name))
  }

  /** `view` is the view of `day` against the three enrichment sections. */
  predicate DayMatches(day: Day, view: DayView, routes: map<string, Option<RouteResult>>,
                       enrichment: map<string, PlaceInfo>, coords: map<string, StartEnd>)
    reads day.places
  {
    var key := IntToString(day.dayNumber);
    && view.dayNumber == day.dayNumber
    && view.startLocation == day.startLocation && view.endLocation == day.endLocation
    && view.route == RouteAt(routes, key)
    && view.startCoords == CoordsAt(coords, key).startCoords
    && view.endCoords == CoordsAt(coords, key).endCoords
    && |view.places| == |day.places|
    && forall j :: 0 <= j < |day.places| ==> view.places[j] == ViewOf(day.places[j], enrichment)
  }
}
