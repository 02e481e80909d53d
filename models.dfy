/** The persistent records the trip services read and write (the ORM rows of
    `models.py`) and the JSON shapes stored in a trip's `enriched_data`. */
module Models {
  import opened Common

  /** A place visited on a day. Geocoding fills in its coordinates in place;
      `None` is a NULL column. */
  class Place {
    const name: string
    const placeType: string
    var latitude: Option<real>
    var longitude: Option<real>

    constructor (name: string, placeType: string)
      ensures this.name == name && this.placeType == placeType
      ensures latitude == None && longitude == None
    {
      this.name := name;
      this.placeType := placeType;
      latitude := None;
      longitude := None;
    }
  }

  /** One day of a trip; `places` is in visit order. */
  datatype Day = Day(dayNumber: int, startLocation: Option<string>, endLocation: Option<string>, places: seq<Place>)

  /** A row of the geocoding cache, keyed elsewhere by its unique place name. */
  datatype CacheEntry = CacheEntry(latitude: real, longitude: real, displayName: Option<string>)

  /** A routing waypoint in OSRM's (longitude, latitude) order. */
  datatype LonLat = LonLat(lon: real, lat: real)

  /** A (latitude, longitude) pair, as kept for rendering. */
  datatype LatLon = LatLon(lat: real, lon: real)

  /** The GeoJSON geometry of a route, copied unchanged from OSRM. */
  datatype Geometry = Geometry(kind: string, coordinates: seq<LonLat>)

  /** The leg from waypoint `fromIndex` to waypoint `toIndex`. */
  datatype Segment = Segment(fromIndex: nat, toIndex: nat, distanceM: real, durationS: real)

  datatype RouteResult = RouteResult(totalDistanceM: real, totalDurationS: real, geometry: Geometry, segments: seq<Segment>)

  /** The knowledge record kept per place name. */
  datatype PlaceInfo = PlaceInfo(description: string, imageUrl: Option<string>, imageAttribution: Option<string>, wikipediaUrl: Option<string>)

  datatype StartEnd = StartEnd(startCoords: Option<LatLon>, endCoords: Option<LatLon>)

  /** The sections of `enriched_data`; an absent section is `None`. Route and
      start/end maps are keyed by `str(day_number)`, places by place name. */
  datatype EnrichedData = EnrichedData(
    routes: Option<map<string, Option<RouteResult>>>,
    places: Option<map<string, PlaceInfo>>,
    startEndCoords: Option<map<string, StartEnd>>)

  /** A trip row with its days. The pipeline updates `status` and
      `errorMessage`; later stages fill `enrichedData` and `pdfPath`. */
  class Trip {
    const id: string
    const title: string
    const startDate: Option<string>
    const endDate: Option<string>
    const days: seq<Day>
    var status: string
    var errorMessage: Option<string>
    var enrichedData: Option<EnrichedData>
    var pdfPath: Option<string>

    constructor (id: string, title: string, startDate: Option<string>, endDate: Option<string>, days: seq<Day>)
      ensures this.id == id && this.title == title && this.days == days
      ensures this.startDate == startDate && this.endDate == endDate
      ensures status == "pending" && errorMessage == None && enrichedData == None && pdfPath == None
    {
      this.id := id;
      this.title := title;
      this.startDate := startDate;
      this.endDate := endDate;
      this.days := days;
      status := "pending";
      errorMessage := None;
      enrichedData := None;
      pdfPath := None;
    }
  }
}
