# Travel book generator: trip processing core

This project models the backend services of a travel book generator. A user
posts a trip made of a title, dates and numbered days. Each day holds up to
five places (hotel, attraction or restaurant) and an optional start and end
location. A background pipeline walks the trip through the stages
"geocoding", "routing", "enriching", "rendering" and "complete".

- **Geocoding** looks every place and location up against Nominatim. It uses a
  cache keyed by the exact query string, a process-wide rate limit of one
  request per 1.5 s, and up to three attempts with 2, 4 and 8 s backoff. For a
  place it tries up to three queries, built from a normalised name and a city
  context read from the day's start or end location.
- **Routing** turns each day's cached start, geocoded places and cached end
  into OSRM waypoints. It asks OSRM for a driving route and keys the result by
  day number.
- **Enrichment** fetches a description (at most 150 words) and an image for
  every place name from Wikipedia and Wikimedia Commons. It falls back to
  Wikipedia's search when the exact title gives nothing.
- **Template data** joins the days and places with the stored enrichment, for
  rendering.
- **Request validation** normalises names and locations and checks place
  types, the place count per day, the title and the day numbers. It sorts the
  days.
- **Model-output clean-up** removes a markdown code fence around a JSON
  answer and keeps the usable entries of a list of alternative names.

Modules:

| file | module | models |
|---|---|---|
| common.dfy | Common | Option/Result, Python truthiness, and the dictionary a sequence of `d[k] = v` writes builds |
| text.dfy | Text | the Python string operations the services use: `strip`, `split()`, `split(c)`, `join`, `lower`, `in`, `str(int)` |
| models.dfy | Models | the database rows (`Place`, `Trip` classes; `Day`, cache row, route and enrichment values) |
| schemas.dfy | Schemas | the request validators |
| geocoding.dfy | Geocoding | rate limit, retry loop, `geocode_place`, query construction, `geocode_trip`, and a `Geocoder` class holding the cache, clock and request log |
| routing.dfy | Routing | `_get_coordinates`, `_build_waypoints`, `get_route`, `route_trip` |
| enrichment.dfy | Enrichment | truncation, the Wikipedia/Wikimedia lookups and their fallback, `enrich_trip` |
| maps.dfy | Maps | `_build_template_data` |
| pipeline.dfy | Pipeline | `run_pipeline` over a table of trip rows |
| llm.dfy | Llm | `_strip_markdown` and the filter of `generate_name_variants` |

**External services are oracles.**
- Nominatim is a function from the query and the request's ordinal number to a
  reply. Retries and repeated queries can therefore see different replies.
- OSRM is a function from the request to a decoded reply.
- The Wikipedia API is a function from the request and its number within the
  enrichment run to a decoded reply. A name looked up twice can therefore get
  two different answers.
- The pipeline's surroundings (another writer marking the row "error", or an
  exception) are an event per stage.

**Time is modelled as state.** The monotonic clock is a field. `time.sleep(d)`
advances it by exactly `d` and appends `d` to a log of waits.

**Every operation has a partner.** Each method is proved equal to a
specification function, except `Maps.BuildTemplateData`, whose result is
described index by index. The properties are proved about those functions:
- geocoding: spacing of requests, retry counts, cache behaviour, and places
  resolved by their queries;
- routing: waypoint order, and segments that chain;
- enrichment: the table's keys, and the last write winning for a name on several days;
- validation: sorting and permutation;
- pipeline: the stage order and how a run ends;
- fence removal: round trips.

Some functions that model a source function carry no contract of their own
and have no row below: `Schemas.ParseTrip`, `Schemas.ValidateDays`,
`Schemas.ValidatePlaceType`, `Schemas.NormalizeSpaces`, `Routing.GetRoute`,
`Routing.ParseRoute`, `Enrichment.WikipediaSummary`,
`Enrichment.WikimediaImage`, `Enrichment.ParseExtract`,
`Enrichment.ParseImage`, `Pipeline.RunFrom` and `Geocoding.MockCoords`. The
rows of the lemmas about them carry their contracts.

## Model

| member | source | states |
|---|---|---|
| Common.OrElse | backend/app/services/geocoding.py:213-216 | `a or b`: the first value when it is a non-empty string, the second otherwise |
| Common.AssocKeys | backend/app/services/routing.py:107-122 | a dictionary filled by `d[k] = v` writes has exactly the keys written (plus the initial ones) |
| Common.AssocLastWins | backend/app/services/routing.py:107-122 | the value under a key is the one written by its last assignment |
| Common.AssocSnoc | backend/app/services/routing.py:109-122 | one more write extends the dictionary built so far by that entry |
| Text.TrimLeft | backend/app/schemas.py:12 | `lstrip()`: a suffix of the input, starting at a non-space, with only whitespace removed |
| Text.TrimRight | backend/app/schemas.py:12 | `rstrip()`: a prefix of the input, ending at a non-space, with only whitespace removed |
| Text.Strip | backend/app/schemas.py:12 | `strip()`: no whitespace at either end, never longer than the input |
| Text.StripFramed | backend/app/schemas.py:12 | `strip()` keeps one piece of the input and removes only whitespace before and after it |
| Text.StripWithin | backend/app/services/geocoding.py:160 | the stripped string is a substring of the input |
| Text.StripTrimmed | backend/app/schemas.py:54 | stripping a string with no whitespace at its ends changes nothing |
| Text.StripEach | backend/app/services/geocoding.py:190 | `[p.strip() for p in parts]`: element i is part i stripped |
| Text.WordsAreWords | backend/app/schemas.py:12 | `split()` yields non-empty words without whitespace |
| Text.WordsOfJoin | backend/app/schemas.py:12 | splitting words joined by single spaces gives back the words |
| Text.JoinCollapsed | backend/app/schemas.py:12 | words joined by single spaces have no leading, trailing or repeated whitespace; empty exactly without words |
| Text.CollapsedTrimmed | backend/app/schemas.py:12 | a collapsed string has no whitespace at its ends |
| Text.SplitOn | backend/app/services/geocoding.py:190 | `split(',')`: at least one piece and no piece holds the separator |
| Text.JoinSplitOn | backend/app/services/geocoding.py:190 | joining the pieces with the separator gives back the string |
| Text.SplitOnJoin | backend/app/services/routing.py:49 | joining separator-free pieces and splitting again gives back the pieces |
| Text.SplitOnSeveral | backend/app/services/geocoding.py:190-192 | there are at least two pieces exactly when the separator occurs |
| Text.SplitOnWithout | backend/app/services/geocoding.py:190 | a string without the separator is one piece |
| Text.SplitOnFirst | backend/app/services/geocoding.py:190 | a separator-free head followed by the separator splits off as the first piece |
| Text.Lower | backend/app/services/geocoding.py:55 | `lower()` keeps the length |
| Text.ReplaceChar | backend/app/services/enrichment.py:78 | `replace(' ', '_')`: same length, each space becomes an underscore and every other character is kept, so no space is left |
| Text.LowerIdempotent | backend/app/schemas.py:18 | lower-casing twice is lower-casing once |
| Text.IndexOf | backend/app/services/geocoding.py:225 | where `needle in hay` holds, the needle occurs at the index returned |
| Text.ContainsAt | backend/app/services/geocoding.py:225 | an occurrence at any index makes `needle in hay` true |
| Text.ContainsTransitive | backend/app/services/geocoding.py:157-179 | a substring of a substring is a substring |
| Text.NatToString | backend/app/services/routing.py:114 | `str(n)` of a natural number is a non-empty string of digits |
| Text.ParseIntToString | backend/app/services/routing.py:114 | `int(str(n)) == n` for every integer |
| Text.IntToStringInjective | backend/app/services/routing.py:114 | two day numbers give the same key exactly when they are equal |
| Models.Place.constructor | backend/app/models.py:46-55 | a new place has its name and type and no coordinates |
| Models.Trip.constructor | backend/app/models.py:17-30 | a new trip is "pending" with no error message, enrichment or PDF |
| Geocoding.RateLimited | backend/app/services/geocoding.py:44-50 | after the rate limit the watermark equals the clock and is at least 1.5 s past the old watermark; cache and requests unchanged |
| Geocoding.RateLimitedWaits | backend/app/services/geocoding.py:47-50 | it sleeps exactly the time left of 1.5 s since the watermark, and not at all when that has passed |
| Geocoding.Fetch | backend/app/services/geocoding.py:96-125 | the retry loop never changes the cache |
| Geocoding.Attempted | backend/app/services/geocoding.py:97-103 | an attempt sends one more request and keeps requests 1.5 s apart |
| Geocoding.FetchStep | backend/app/services/geocoding.py:96-125 | an HTTP error, timeout or connect error sleeps `2 ** (attempt + 1)` and tries again; any other reply ends the loop after this attempt |
| Geocoding.FetchSentCount | backend/app/services/geocoding.py:96-125 | the loop only appends requests, at most one per remaining attempt, and one for every attempt when it gives up |
| Geocoding.FetchSentQueries | backend/app/services/geocoding.py:99-103 | every request the loop sends is for the name looked up |
| Geocoding.FetchSent | backend/app/services/geocoding.py:96-125 | at most MAX_RETRIES requests, all for the name, and exactly MAX_RETRIES when it gives up |
| Geocoding.FetchSpaced | backend/app/services/geocoding.py:96-122 | consecutive requests of the loop are at least 1.5 s apart |
| Geocoding.ExhaustedRetries | backend/app/services/geocoding.py:96-132 | when every attempt fails transiently: no result, three requests, and backoff waits of 2, 4 and 8 s |
| Geocoding.AbortsAtOnce | backend/app/services/geocoding.py:123-125 | an unexpected exception ends the lookup after one request, with no backoff |
| Geocoding.FirstMockMatch | backend/app/services/geocoding.py:53-59 | the mock result is a table entry or the default |
| Geocoding.FirstMockMatchIsFirst | backend/app/services/geocoding.py:56-59 | the first key contained in the lower-cased name decides; no key gives the default |
| Geocoding.Geocode | backend/app/services/geocoding.py:62-154 | a cache hit returns the row and changes nothing; in mock mode a fresh lookup returns `_get_mock_coords(name)`, caches it and sends nothing; a result is cached under the exact query with its coordinates; no result leaves the cache alone; the cache is only added to |
| Geocoding.MockLookupFirstKey | backend/app/services/geocoding.py:53-86 | in mock mode the first key of the mock table contained in the lower-cased name decides the answer, and no match gives the default entry |
| Geocoding.GeocodeRequests | backend/app/services/geocoding.py:62-125 | at most three requests, all for the query; none on a cache hit or in mock mode |
| Geocoding.GeocodeSpaced | backend/app/services/geocoding.py:62-125 | a lookup keeps requests 1.5 s apart |
| Geocoding.FirstHitCached | backend/app/services/geocoding.py:134-154 | a fresh answer caches and returns its first hit, with `display_name` defaulting to the query |
| Geocoding.FirstHitCachedAfterRetries | backend/app/services/geocoding.py:97-154 | the same after any number of transient failures: the answer that ends the retry loop gives the first hit, cached on top of the loop's state |
| Geocoding.HitAfterOneRetry | backend/app/services/geocoding.py:97-154 | a transient failure, then an answer: two requests, one 2 s backoff, and the second answer's first hit returned and cached |
| Geocoding.EmptyAnswerNotCached | backend/app/services/geocoding.py:134-136 | an empty answer gives None and caches nothing |
| Geocoding.SecondLookupFromCache | backend/app/services/geocoding.py:68-72 | a repeated successful lookup is served from the cache with the same coordinates and no request |
| Geocoding.DropLeadingThe | backend/app/services/geocoding.py:162-164 | exactly `s[4:]` when the lower-cased input starts with "the ", the input itself otherwise |
| Geocoding.DropFirstSuffix | backend/app/services/geocoding.py:168-177 | the first suffix in table order that the lower-cased name ends with is cut off, and only that one; unchanged when none matches |
| Geocoding.NormalizePlaceName | backend/app/services/geocoding.py:157-179 | the normalised name is trimmed and is a substring of the input |
| Geocoding.NormalizeDropsTheAndSuffix | backend/app/services/geocoding.py:157-179 | "the " + middle + " museum" or " tower", in any case, normalises to the stripped middle |
| Geocoding.NormalizeKeepsPlainName | backend/app/services/geocoding.py:157-179 | a trimmed name without a leading "the " or a suffix is left unchanged |
| Geocoding.DropSuffixOf | backend/app/services/geocoding.py:168-177 | a name ending in " museum" or " tower", in any case, loses exactly that ending |
| Geocoding.LastParts | backend/app/services/geocoding.py:191-194 | a context exactly when there are at least two parts |
| Geocoding.ExtractCityContext | backend/app/services/geocoding.py:182-194 | a context exactly for a non-empty location containing a comma |
| Geocoding.CityContextOfParts | backend/app/services/geocoding.py:182-194 | two comma-free parts give the second stripped; more give the last two stripped joined by ", " |
| Geocoding.Qualify | backend/app/services/geocoding.py:226 | `f"{q}, {city}"` starts with the query and ends with ", city" |
| Geocoding.PlaceQueries | backend/app/services/geocoding.py:223-231 | one to three queries, always the normalised name; only it without a city; every other query ends with ", city" |
| Geocoding.PlaceQueriesCases | backend/app/services/geocoding.py:221-231 | each city-qualified query is tried exactly when its name does not contain the city, case-insensitively; order: normalised name with city, normalised name, original name with city |
| Geocoding.PlaceQueriesOrder | backend/app/services/geocoding.py:223-231 | the same for any normalised name no longer than the original |
| Geocoding.ResolvedByExtends | backend/app/services/geocoding.py:144-151 | a place resolved by a cached query stays resolved as the cache grows |
| Geocoding.FirstSuccess | backend/app/services/geocoding.py:233-240 | the winning query is cached with the coordinates returned; no query before it was cached; no success leaves the cache alone |
| Geocoding.FirstSuccessStops | backend/app/services/geocoding.py:233-240 | the `break`: every query before the winner found nothing, and the queries after it are never looked up |
| Geocoding.FirstSuccessEarlier | backend/app/services/geocoding.py:233-240 | looking up only the queries before the winner finds nothing |
| Geocoding.FirstSuccessPrefix | backend/app/services/geocoding.py:233-240 | looking up only the queries up to the winner gives the same result and state |
| Geocoding.FirstSuccessSent | backend/app/services/geocoding.py:233-240 | the query loop only appends requests, each for a query up to the winner |
| Geocoding.FirstSuccessSpaced | backend/app/services/geocoding.py:233-240 | the query loop keeps requests 1.5 s apart |
| Geocoding.EndpointsExtends | backend/app/services/geocoding.py:208-210 | looking up start and end locations only adds to the cache |
| Geocoding.EndpointsSpaced | backend/app/services/geocoding.py:208-210 | and keeps requests 1.5 s apart |
| Geocoding.QueriesFor | backend/app/services/geocoding.py:221-231 | each place gets one to three queries |
| Geocoding.QueryLists | backend/app/services/geocoding.py:219-231 | one query list per place |
| Geocoding.QueryListsAt | backend/app/services/geocoding.py:219-231 | place i's list is built from place i's name and the day's city |
| Geocoding.PlacesRun | backend/app/services/geocoding.py:219-243 | one outcome per place |
| Geocoding.PlacesRunResolved | backend/app/services/geocoding.py:219-243 | every place found is cached under one of its queries with its coordinates; no entry is lost |
| Geocoding.PlacesRunSpaced | backend/app/services/geocoding.py:219-243 | the place loop keeps requests 1.5 s apart |
| Geocoding.PlacesRunSnoc | backend/app/services/geocoding.py:219-240 | each place's query loop starts from the state the earlier places left |
| Geocoding.DayRun | backend/app/services/geocoding.py:206-243 | one outcome per place of the day |
| Geocoding.DayRunResolved | backend/app/services/geocoding.py:206-243 | after a day every place found is cached under one of its queries; no entry is lost |
| Geocoding.TripRunOf | backend/app/services/geocoding.py:197-248 | one outcome per place of every day |
| Geocoding.TripRunResolved | backend/app/services/geocoding.py:205-245 | at the end every place found is cached under one of its queries; later days never drop earlier entries |
| Geocoding.TripRunSpaced | backend/app/services/geocoding.py:205-245 | requests stay 1.5 s apart over a whole trip, since the watermark is shared |
| Geocoding.Geocoder.constructor | backend/app/services/geocoding.py:40-41 | the watermark starts at 0.0 with no waits or requests |
| Geocoding.Geocoder.Sleep | backend/app/services/geocoding.py:118-122 | `time.sleep(d)` advances the clock by d and logs d |
| Geocoding.Geocoder.RateLimit | backend/app/services/geocoding.py:44-50 | the new state is `RateLimited` of the old |
| Geocoding.Geocoder.Attempt | backend/app/services/geocoding.py:97-105 | the reply to this request, and the state after one attempt |
| Geocoding.Geocoder.FetchWithRetries | backend/app/services/geocoding.py:96-125 | outcome and new state are those of `Fetch` from attempt 0 |
| Geocoding.Geocoder.Retry | backend/app/services/geocoding.py:97-124 | one pass of the loop: an attempt that settles ends it with `Fetch`'s outcome and state; a transient failure backs off and leaves the rest of `Fetch` to the next attempt |
| Geocoding.Geocoder.GeocodePlace | backend/app/services/geocoding.py:62-154 | result and new state are those of `Geocode` |
| Geocoding.Geocoder.ResolvePlace | backend/app/services/geocoding.py:233-243 | the place gets the first successful query's coordinates, or keeps its own; the state is that of `FirstSuccess` |
| Geocoding.Geocoder.GeocodePlaceIn | backend/app/services/geocoding.py:219-243 | the same for the queries built from the place's name and city |
| Geocoding.Geocoder.GeocodeEndpoints | backend/app/services/geocoding.py:208-210 | the non-empty locations are looked up in order |
| Geocoding.Geocoder.GeocodePlaces | backend/app/services/geocoding.py:219-243 | each place gets its own outcome of `PlacesRun`; the state is `PlacesRun`'s |
| Geocoding.Geocoder.GeocodeDay | backend/app/services/geocoding.py:206-245 | endpoints, then places with the day's city context, as `DayRun` says |
| Routing.GetCoordinates | backend/app/services/routing.py:11-16 | a point exactly on a cache hit, in (longitude, latitude) order |
| Routing.Endpoint | backend/app/services/routing.py:24-27 | one waypoint exactly for a non-empty, cached location |
| Routing.Point | backend/app/services/routing.py:31-32 | at most one waypoint per place |
| Routing.PlacePoints | backend/app/services/routing.py:30-32 | at most one waypoint per place |
| Routing.PlacePointsAppend | backend/app/services/routing.py:30-32 | the points of two runs of places follow each other: place order is kept |
| Routing.PlacePointsAllResolved | backend/app/services/routing.py:30-32 | when every place has both coordinates, waypoint k is place k's (lon, lat) |
| Routing.PlacePointsNoneResolved | backend/app/services/routing.py:30-32 | places missing a coordinate add no waypoint |
| Routing.WaypointsShape | backend/app/services/routing.py:19-40 | at most places + 2 waypoints; a cached start comes first and a cached end last |
| Routing.Pairs | backend/app/services/routing.py:49 | one "lon,lat" pair per waypoint, in order |
| Routing.CoordsPathSplits | backend/app/services/routing.py:49-50 | the path splits on ';' back into one pair per waypoint, and each pair on ',' into its longitude and latitude |
| Routing.Segments | backend/app/services/routing.py:82-89 | one segment per leg |
| Routing.GetRouteRequests | backend/app/services/routing.py:46-73 | under two waypoints: no route and no request; otherwise exactly one request to the OSRM URL and path |
| Routing.GetRouteFailures | backend/app/services/routing.py:68-77 | an exception, a code other than "Ok", or missing or empty routes give None |
| Routing.GetRouteSegments | backend/app/services/routing.py:79-96 | a route copies the first route's totals and geometry; segment i joins waypoints i and i + 1 with leg i's distance and duration |
| Routing.SegmentsChain | backend/app/services/routing.py:83-89 | consecutive segments share a waypoint |
| Routing.DayKeys | backend/app/services/routing.py:114 | the key of day i is `str(day_number)` |
| Routing.DayKeySet | backend/app/services/routing.py:114 | the keys are the trip's day numbers written out |
| Routing.DayWaypoints | backend/app/services/routing.py:109-110 | one waypoint list per day |
| Routing.DayWaypointsAt | backend/app/services/routing.py:109-110 | day i's list is `_build_waypoints` of day i |
| Routing.DayRouteIsGetRoute | backend/app/services/routing.py:110-122 | the guard in `route_trip` repeats the one in `get_route` |
| Routing.DayRoutes | backend/app/services/routing.py:109-122 | day i's stored value is its route, or None |
| Routing.KeyedByDay | backend/app/services/routing.py:107-122 | the table's keys are the day numbers; a number occurring once keeps its own value |
| Routing.RouteTable | backend/app/services/routing.py:99-127 | every day is a key; a number occurring once maps to `get_route` of that day's waypoints |
| Routing.AppendEndpoint | backend/app/services/routing.py:24-27 | appends the location's cached point, if any |
| Routing.AppendPoint | backend/app/services/routing.py:31-32 | appends the place's point when it has both coordinates |
| Routing.AppendPlaces | backend/app/services/routing.py:30-32 | appends the points of the resolved places, in order |
| Routing.BuildWaypoints | backend/app/services/routing.py:19-40 | the waypoints are start, resolved places, end |
| Routing.BuildSegments | backend/app/services/routing.py:82-89 | the segment loop yields `Segments` |
| Routing.FetchRoute | backend/app/services/routing.py:43-96 | the route and the requests of `GetRoute` |
| Routing.RouteDay | backend/app/services/routing.py:110-122 | the value stored for one day |
| Routing.RouteDayAt | backend/app/services/routing.py:109-122 | the value stored for day i |
| Routing.RouteTrip | backend/app/services/routing.py:99-127 | the table is each day's value written under its key, in day order |
| Enrichment.TruncateToWords | backend/app/services/enrichment.py:14-19 | the text itself when it has at most `max_words` words; otherwise its first `max_words` words joined by spaces plus "..." |
| Enrichment.TruncateKeepsFirstWords | backend/app/services/enrichment.py:14-19 | a truncated text ends in "..." and what precedes it splits back into the first `max_words` words |
| Enrichment.SearchTitle | backend/app/services/enrichment.py:22-43 | the search makes exactly one opensearch call |
| Enrichment.SearchTitleCases | backend/app/services/enrichment.py:22-43 | a title exactly when the answer has at least two elements and a non-empty title list, and it is the first title; a failure gives None |
| Enrichment.ArticleUrl | backend/app/services/enrichment.py:78 | the page prefix followed by the title, each space turned into an underscore and every other character kept |
| Enrichment.ArticleUrlSpaceFree | backend/app/services/enrichment.py:78 | a title without spaces is appended unchanged |
| Enrichment.FetchExtract | backend/app/services/enrichment.py:46-80 | one extract call for the title |
| Enrichment.FetchExtractCases | backend/app/services/enrichment.py:46-80 | a summary exactly for a first page that exists and has an extract; description truncated to 150 words, URL from the canonical title |
| Enrichment.DescriptionBounded | backend/app/services/enrichment.py:76-77 | a description is the whole extract of at most 150 words, or its first 150 words followed by "..." |
| Enrichment.WikipediaSummaryCalls | backend/app/services/enrichment.py:83-108 | exact title first; the search only when that fails; the found title only when non-empty and different from the name |
| Enrichment.WikipediaSummarySource | backend/app/services/enrichment.py:83-108 | a summary comes from the name or from the title found; a client failing from then on gives None |
| Enrichment.FetchPageImage | backend/app/services/enrichment.py:114-149 | one image call for the title |
| Enrichment.FetchPageImageCases | backend/app/services/enrichment.py:114-149 | an image exactly for a first page that exists with a thumbnail source; attribution always the Commons licence |
| Enrichment.WikimediaImageCalls | backend/app/services/enrichment.py:152-174 | exact title, then the search, then the found title when non-empty and different |
| Enrichment.WikimediaImageAttribution | backend/app/services/enrichment.py:145-148 | every image carries "CC BY-SA 3.0, Wikimedia Commons"; a client failing from then on gives none |
| Enrichment.PlaceVisit | backend/app/services/enrichment.py:189-206 | one place's lookups: two to six calls, the first for the name's own extract |
| Enrichment.PlaceVisitFields | backend/app/services/enrichment.py:189-206 | description and URL come from the summary or the defaults together; image URL and attribution from the image, looked up after the summary's calls, or both None |
| Enrichment.PlaceVisitFailing | backend/app/services/enrichment.py:189-206 | a client failing from the visit's first call on leaves the default record |
| Enrichment.RunOfAt | backend/app/services/enrichment.py:187-208 | record k is the visit of occurrence k, numbered from where the earlier visits left off |
| Enrichment.OccurrencesNames | backend/app/services/enrichment.py:187-188 | the occurrences visited are exactly the trip's place names |
| Enrichment.EnrichedTableKeys | backend/app/services/enrichment.py:185-208 | the table's keys are exactly the trip's place names |
| Enrichment.EnrichedTableLastWins | backend/app/services/enrichment.py:185-208 | a name stores the record of its last occurrence; earlier records of that name are overwritten |
| Enrichment.LaterFailureOverwrites | backend/app/services/enrichment.py:185-208 | a name whose last visit meets a failing client stores the defaults, whatever an earlier visit found |
| Enrichment.EnrichPlace | backend/app/services/enrichment.py:189-206 | the record built for one place is its `PlaceVisit`, and the call count advances by that visit's calls |
| Enrichment.EnrichDay | backend/app/services/enrichment.py:188-208 | continues the table and the call count over the day's places, as `Assoc` and `RunOf` say |
| Enrichment.EnrichTrip | backend/app/services/enrichment.py:177-213 | the table is `places_data[name] = record` written for every place occurrence in order, each record from that visit's own lookups |
| Maps.BuildTemplateData | backend/app/services/maps.py:12-53 | header copies title and dates; day i is trip day i with route and coordinates looked up by `str(day_number)`; place j is that day's place j with its enrichment by name; no enrichment gives all None |
| Schemas.NormalizeSpacesCollapsed | backend/app/schemas.py:9-12 | the normalised name is collapsed, keeps the words, and is empty exactly without words |
| Schemas.NormalizeSpacesIdempotent | backend/app/schemas.py:9-12 | normalising twice changes nothing |
| Schemas.ValidatePlaceTypeCases | backend/app/schemas.py:14-21 | accepted exactly when the stripped, lower-cased value is hotel, attraction or restaurant, and then that value |
| Schemas.ValidatePlaceTypeStable | backend/app/schemas.py:14-21 | an accepted value is accepted again unchanged |
| Schemas.PlaceTypesTrimmed | backend/app/schemas.py:17 | the allowed types have no surrounding whitespace |
| Schemas.ParsePlaceNormalised | backend/app/schemas.py:5-21 | an accepted place has a collapsed name and one of the three types |
| Schemas.NormalizeLocationCases | backend/app/schemas.py:37-42 | None passes through; text is normalised like a name |
| Schemas.ParseEach | backend/app/schemas.py:28 | an accepted list has one item per input item |
| Schemas.ParseEachItems | backend/app/schemas.py:28 | a list is accepted exactly when every item is, item by item |
| Schemas.ParseDayCases | backend/app/schemas.py:24-35 | a day is accepted exactly with at most five places, all with valid types |
| Schemas.ParseDayNumber | backend/app/schemas.py:25 | an accepted day keeps its number |
| Schemas.ValidateTitleCases | backend/app/schemas.py:51-57 | accepted exactly when the stripped title is non-empty, and then the stripped title |
| Schemas.InsertByDay | backend/app/schemas.py:67 | insertion adds the day to the multiset of days |
| Schemas.InsertByDayMembers | backend/app/schemas.py:67 | the result holds the new day and the old ones and nothing else |
| Schemas.InsertByDaySorted | backend/app/schemas.py:67 | insertion into a list sorted by day number keeps it sorted |
| Schemas.InsertByDayUnique | backend/app/schemas.py:67 | inserting a new number keeps the numbers unique |
| Schemas.SortByDay | backend/app/schemas.py:67 | the sort is a permutation |
| Schemas.SortByDayOrders | backend/app/schemas.py:67 | the sort orders by day number and keeps unique numbers unique |
| Schemas.ValidateDaysCases | backend/app/schemas.py:59-67 | rejects an empty list and repeated numbers; otherwise a permutation in strictly ascending day order |
| Schemas.ParsedNumbers | backend/app/schemas.py:64-65 | parsed days repeat a number exactly when the raw days do |
| Schemas.ParseTripStages | backend/app/schemas.py:45-67 | the request passes when title, every day and the day list pass, and then carries the validated list |
| Schemas.ParseTripAccepts | backend/app/schemas.py:45-67 | accepted exactly for a non-blank title, at least one day, unique numbers and valid days; the days are then a permutation in strictly ascending order |
| Pipeline.StageNotError | backend/app/services/pipeline.py:7 | no stage is named "error" |
| Pipeline.RunFromWritesInOrder | backend/app/services/pipeline.py:36-43 | the statuses written from stage k on are the next stages, in order |
| Pipeline.WritesInOrder | backend/app/services/pipeline.py:36-43 | a run writes a prefix of the stage list |
| Pipeline.RunFromCompletes | backend/app/services/pipeline.py:36-43 | with every stage proceeding the run writes each remaining stage and ends "complete" |
| Pipeline.CleanRunCompletes | backend/app/services/pipeline.py:36-43 | an undisturbed run writes all five stages, ends "complete" and keeps the message |
| Pipeline.RunFromEnds | backend/app/services/pipeline.py:36-51 | a run that has started ends "complete" or "error" |
| Pipeline.RunEnds | backend/app/services/pipeline.py:25-53 | every run ends "complete" or "error" |
| Pipeline.ErrorStops | backend/app/services/pipeline.py:37-39 | a row already at "error" is left so, and nothing is written |
| Pipeline.RunFromStopsAt | backend/app/services/pipeline.py:36-51 | the first disturbed stage ends the run with "error"; an exception records its text; the stages before it were written |
| Pipeline.FailureAt | backend/app/services/pipeline.py:36-51 | the same for a whole run |
| Pipeline.RunStage | backend/app/services/pipeline.py:37-51 | one loop pass: stop on "error" or an exception, or write the stage; enrichment and PDF path untouched |
| Pipeline.RunStages | backend/app/services/pipeline.py:36-51 | the row's status and message end as `Run` says |
| Pipeline.RunPipeline | backend/app/services/pipeline.py:25-53 | an unknown id changes nothing; otherwise only status and message change, as `Run` says |
| Llm.FindFence | backend/app/services/llm.py:131 | the first "```" at or after a position |
| Llm.SkipSpace | backend/app/services/llm.py:131 | the end of a whitespace run stays within the text |
| Llm.SkipSpaceSpans | backend/app/services/llm.py:131 | `\s*` passes over whitespace only and stops at a non-space or the end |
| Llm.ContentStart | backend/app/services/llm.py:131 | the contents start after the fence and optional "json" tag |
| Llm.FencedSpan | backend/app/services/llm.py:131 | the fenced contents lie within the text |
| Llm.StripMarkdown | backend/app/services/llm.py:128-134 | the result has no surrounding whitespace |
| Llm.NoSpanUnfenced | backend/app/services/llm.py:131 | without two fences there is no match |
| Llm.StripMarkdownUnfenced | backend/app/services/llm.py:128-134 | without two fences the stripped text comes back |
| Llm.StripMarkdownPair | backend/app/services/llm.py:131-133 | with an opening fence and a closing fence, the result is the stripped text between them |
| Llm.StripMarkdownBareFence | backend/app/services/llm.py:128-134 | a trimmed block without backticks in a bare fence comes back unchanged |
| Llm.StripMarkdownJsonFence | backend/app/services/llm.py:128-134 | a trimmed block without backticks in a fenced block tagged json comes back unchanged |
| Llm.KeepStrings | backend/app/services/llm.py:122 | the filter never lengthens the list |
| Llm.KeepStringsKept | backend/app/services/llm.py:122 | everything kept is a string entry of the input that passes the test |
| Llm.KeepStringsAppend | backend/app/services/llm.py:122 | filtering a concatenation filters each part |
| Llm.FilterVariants | backend/app/services/llm.py:122 | at most as many variants as entries |
| Llm.FilterVariantsAppend | backend/app/services/llm.py:122 | the filter keeps the array's order |
| Llm.FilterVariantsUsable | backend/app/services/llm.py:122 | every variant is a string of the array with non-whitespace content |
| Llm.FilterVariantsOne | backend/app/services/llm.py:122 | an entry is kept exactly when it is a string with non-whitespace content |
| Llm.NameVariants | backend/app/services/llm.py:117-125 | [] on a failure inside the `try` or without an array; otherwise the filtered array |

## Left out

- HTTP, database sessions, commits and client opening and closing are not modelled. The clients are oracles; the cache and the trips table are values or fields. The `should_close` logic and `client.close()` are left out.
- Logging and the `print` lines at module load are left out.
- Concurrency is left out. The pipeline runs in a background task, and the rate limit's watermark is a module-level global; the model runs one call at a time.
- The clock only advances through the model's own sleeps. Time spent in requests is not modelled, and `time.monotonic()` is the `now` field.
- Coordinates and distances are opaque `real`s. The float formatting of `f"{lon},{lat}"` is a parameter `fmt`, and `float(result["lat"])` is taken as already done.
- Text.Lower: lower-cases ASCII letters only. Python's `str.lower()` also folds non-ASCII letters.
- `\s` in the fence regex and `str.split()` are both read as Python's whitespace set. The regex equivalence is argued on the definition of `FencedSpan`, not proved against a regex engine.
- JSON decoding is not modelled. The replies are modelled already decoded.
- Missing keys inside a decoded reply are not modelled. `KeyError` for a Nominatim hit without "lat", an OSRM leg without "distance" and the like is left out. So is an OSRM body that is not a JSON object (`data.get` raising outside the try).
- Enrichment.ParseExtract, Enrichment.ParseImage: a reply to an extract or image request whose body is not a JSON object (a list, say) gives no summary or image in the model. In the source, `data.get` at enrichment.py:68 and :137 runs outside the `try` and raises, which aborts `get_wikipedia_summary`, `get_wikimedia_image` and `enrich_trip` with no table built. The model instead records the default entry for that place, so `EnrichedTableKeys` and `PlaceVisitFailing` also describe such runs, which the source aborts.
- Routing, enrichment and template data return their values; storing them in `enriched_data` happens outside the core.
- Geocoding.TripRunOf: `geocode_trip`'s loop over days is modelled on values. The in-place `Geocoder` method stops at one day (`GeocodeDay`), so the model does not capture a place object shared between two days being updated twice.
- Geocoding.Geocoder.GeocodeDay: requires the day's place objects to be distinct. Two list entries aliasing one row are not modelled.
- Geocoding.Geocoder.GeocodePlaces: takes the query lists built up front. The source builds each list just before trying it; the lists depend only on names and the city, which the loop does not change.
- Geocoding.SecondLookupFromCache: states display equality only for a non-empty display name. A hit with `display_name == ""` is returned as "" the first time, but `display_name or name` gives the name from the cache.
- Schemas: pydantic's error locations and message formatting are not modelled. The error for an invalid type lists the three types in a fixed order, whereas Python's set order varies. Errors are a datatype collected in field order.
- Routing: the OSRM oracle takes only the request, unlike the Nominatim and Wikipedia oracles, which also take the request's number. Two days with the same waypoints therefore get the same reply in the model, and a transient OSRM failure on one day followed by a success for the same waypoints on a later day is not expressed. No property proved depends on replies differing.
- Pipeline: another writer's "error" is an event at the re-read. A row deleted mid-run (`trip.status` on `None`) is not modelled.
- `generate_name_variants`: the model call and prompt are left out. Only the filter and the `[]` fallback are modelled; the reply is an oracle value.
- `generate_name_variants`: a missing GROQ_API_KEY makes `_get_client()` raise `ValueError` at llm.py:104, outside the `try`, so the caller gets the exception rather than `[]`. This path is not modelled; `Llm.NameVariants` starts at the `try`.
- `render_trip_html`, the PDF worker, the web routers and chat are not part of this model.
