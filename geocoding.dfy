/** Geocoding of a trip's places and day start/end locations against
    Nominatim, behind a cache keyed by the exact query string, with a
    process-wide rate limit and a bounded retry loop with exponential
    backoff (backend/app/services/geocoding.py).

    The HTTP client is a `Server`: the reply it gives to the n-th request it
    serves. The monotonic clock and `time.sleep` become the `now` field and a
    log of requested waits; a sleep advances `now` by exactly its duration. */
module Geocoding {
  import opened Common
  import opened Text
  import opened Models

  const MAX_RETRIES: nat := 3
  const MIN_DELAY: real := 1.5

  // ------------------------------------------------------------ the client

  /** One entry of a Nominatim answer; `displayName` is `None` when the entry
      has no "display_name" key. */
  datatype Hit = Hit(lat: real, lon: real, displayName: Option<string>)

  /** What one Nominatim request produces. */
  datatype Reply =
    | Results(hits: seq<Hit>)  // a successful answer whose JSON body is a list
    | NullBody                 // a successful answer whose JSON body is `null`
    | HttpError(status: int)   // `raise_for_status` raised (403 included)
    | Timeout
    | ConnectError
    | OtherFailure             // any other exception, e.g. a body that is not JSON

  /** The errors after which geocode_place backs off and tries again. */
  predicate Transient(r: Reply)
  {
    r.HttpError? || r.Timeout? || r.ConnectError?
  }

  /** The reply to the n-th request served, given the query sent. */
  type Server = (string, nat) -> Reply

  /** A request sent to Nominatim and the clock reading when it was sent. */
  datatype Request = Request(query: string, at: real)

  /** `(lat, lon, display_name)` as returned by geocode_place. */
  datatype Located = Located(lat: real, lon: real, display: string)

  /** Everything geocoding reads and writes: the cache table, the clock and
      the watermark `_last_request_time`, the waits requested from
      `time.sleep`, and the requests sent so far. */
  datatype GeoState = GeoState(
    cache: map<string, CacheEntry>,
    now: real,
    last: real,
    waits: seq<real>,
    sent: seq<Request>)

  /** Requests are at least MIN_DELAY apart, none is later than the
      watermark, and the watermark is not ahead of the clock. */
  ghost predicate Spaced(s: GeoState)
  {
    && s.last <= s.now
    && (forall i :: 0 <= i < |s.sent| - 1 ==> s.sent[i].at + MIN_DELAY <= s.sent[i + 1].at)
    && (|s.sent| > 0 ==> s.sent[|s.sent| - 1].at <= s.last)
  }

  /** Entries already cached stay, with the same value: the cache is
      append-only. */
  ghost predicate Extends(c: map<string, CacheEntry>, c': map<string, CacheEntry>)
  {
    forall k :: k in c ==> k in c' && c'[k] == c[k]
  }

  // ---------------------------------------------------------- rate limiting

  /** `_rate_limit`: sleep off whatever is left of MIN_DELAY since the
      watermark, then move the watermark to the clock. */
  function RateLimited(s: GeoState): (t: GeoState)
    ensures t.last == t.now && t.now >= s.now
    ensures t.last >= s.last + MIN_DELAY
    ensures t.cache == s.cache && t.sent == s.sent
  {
    var elapsed := s.now - s.last;
    if elapsed < MIN_DELAY then
      var wait := MIN_DELAY - elapsed;
      s.(now := s.now + wait, last := s.now + wait, waits := s.waits + [wait])
    else
      s.(last := s.now)
  }

  /** The rate limit waits exactly as long as it must: the clock moves to
      the later of its own reading and the watermark plus MIN_DELAY, and a
      wait is logged only when the clock moved. */
  lemma RateLimitedWaits(s: GeoState)
    ensures var t := RateLimited(s);
      && (s.now >= s.last + MIN_DELAY ==> t.now == s.now && t.waits == s.waits)
      && (s.now < s.last + MIN_DELAY ==> t.now == s.last + MIN_DELAY && t.waits == s.waits + [t.now - s.now])
  {
  }

  /** `time.sleep(d)`. */
  function Slept(s: GeoState, d: real): GeoState
  {
    s.(now := s.now + d, waits := s.waits + [d])
  }

  function Pow2(n: nat): nat
  {
    if n == 0 then 1 else 2 * Pow2(n - 1)
  }

  /** The wait after a failed attempt: `2 ** (attempt + 1)` seconds. */
  function Backoff(attempt: nat): real
  {
    Pow2(attempt + 1) as real
  }

  // ------------------------------------------------------------ retry loop

  /** How the retry loop ends: with a parsed body (`None` for JSON null),
      with all attempts failed transiently, or at an unexpected error. */
  datatype Fetched = Received(body: Option<seq<Hit>>) | Exhausted | Aborted

  datatype Attempts = Attempts(outcome: Fetched, state: GeoState)

  /** How an attempt that did not fail transiently ends the loop. */
  function Settled(reply: Reply): Fetched
    requires !Transient(reply)
  {
    if reply.Results? then Received(Some(reply.hits))
    else if reply.NullBody? then Received(None)
    else Aborted
  }

  /** The retry loop of geocode_place, from `attempt` on. */
  function Fetch(server: Server, name: string, s: GeoState, attempt: nat): (r: Attempts)
    requires attempt <= MAX_RETRIES
    ensures r.state.cache == s.cache
    decreases MAX_RETRIES - attempt
  {
    if attempt == MAX_RETRIES then Attempts(Exhausted, s)
    else
      var t := Attempted(name, s);
      var reply := server(name, |s.sent|);
      if Transient(reply) then Fetch(server, name, Slept(t, Backoff(attempt)), attempt + 1)
      else Attempts(Settled(reply), t)
  }

  /** One attempt: the rate limit, then the request, stamped with the clock. */
  function Attempted(name: string, s: GeoState): (t: GeoState)
    ensures t.cache == s.cache && |t.sent| == |s.sent| + 1
    ensures Spaced(s) ==> Spaced(t)
  {
    var r := RateLimited(s);
    r.(sent := r.sent + [Request(name, r.now)])
  }

  /** One round of the retry loop: a transient failure backs off and tries
      again; anything else ends the loop after this attempt. */
  lemma FetchStep(server: Server, name: string, s: GeoState, attempt: nat)
    requires attempt < MAX_RETRIES
    ensures Transient(server(name, |s.sent|)) ==>
      Fetch(server, name, s, attempt) == Fetch(server, name, Slept(Attempted(name, s), Backoff(attempt)), attempt + 1)
    ensures !Transient(server(name, |s.sent|)) ==>
      Fetch(server, name, s, attempt) == Attempts(Settled(server(name, |s.sent|)), Attempted(name, s))
  {
  }

  /** The retry loop only appends requests, at most one per remaining
      attempt, and one for every attempt when it gives up. */
  lemma {:induction false} FetchSentCount(server: Server, name: string, s: GeoState, attempt: nat)
    requires attempt <= MAX_RETRIES
    ensures var r := Fetch(server, name, s, attempt);
      && |s.sent| <= |r.state.sent| <= |s.sent| + (MAX_RETRIES - attempt)
      && r.state.sent[..|s.sent|] == s.sent
      && (r.outcome.Exhausted? ==> |r.state.sent| == |s.sent| + (MAX_RETRIES - attempt))
    decreases MAX_RETRIES - attempt
  {
    if attempt < MAX_RETRIES {
      FetchStep(server, name, s, attempt);
      var t := Attempted(name, s);
      assert t.sent == s.sent + [t.sent[|s.sent|]];
      assert t.sent[..|s.sent|] == s.sent;
      if Transient(server(name, |s.sent|)) {
        var u := Slept(t, Backoff(attempt));
        assert u.sent == t.sent;
        FetchSentCount(server, name, u, attempt + 1);
        var r := Fetch(server, name, u, attempt + 1);
        assert Fetch(server, name, s, attempt) == r;
        assert r.state.sent[..|s.sent|] == r.state.sent[..|u.sent|][..|s.sent|];
      } else {
        assert Fetch(server, name, s, attempt).state == t;
      }
    }
  }

  /** Every request the retry loop sends is for the name looked up. */
  lemma {:induction false} FetchSentQueries(server: Server, name: string, s: GeoState, attempt: nat)
    requires attempt <= MAX_RETRIES
    ensures var r := Fetch(server, name, s, attempt);
      forall i :: |s.sent| <= i < |r.state.sent| ==> r.state.sent[i].query == name
    decreases MAX_RETRIES - attempt
  {
    if attempt < MAX_RETRIES {
      FetchStep(server, name, s, attempt);
      FetchSentCount(server, name, s, attempt);
      var t := Attempted(name, s);
      assert t.sent[|s.sent|].query == name;
      if Transient(server(name, |s.sent|)) {
        var u := Slept(t, Backoff(attempt));
        FetchSentQueries(server, name, u, attempt + 1);
        FetchSentCount(server, name, u, attempt + 1);
        var r := Fetch(server, name, u, attempt + 1);
        assert r.state.sent[|s.sent|] == r.state.sent[..|u.sent|][|s.sent|];
      }
    }
  }

  /** The retry loop sends at most MAX_RETRIES requests, all for the name
      looked up, and exactly MAX_RETRIES when it gives up. */
  lemma FetchSent(server: Server, name: string, s: GeoState, attempt: nat)
    requires attempt <= MAX_RETRIES
    ensures var r := Fetch(server, name, s, attempt);
      && |s.sent| <= |r.state.sent| <= |s.sent| + (MAX_RETRIES - attempt)
      && r.state.sent[..|s.sent|] == s.sent
      && (forall i :: |s.sent| <= i < |r.state.sent| ==> r.state.sent[i].query == name)
      && (r.outcome.Exhausted? ==> |r.state.sent| == |s.sent| + (MAX_RETRIES - attempt))
  {
    FetchSentCount(server, name, s, attempt);
    FetchSentQueries(server, name, s, attempt);
  }

  /** The retry loop keeps requests MIN_DELAY apart. */
  lemma {:induction false} FetchSpaced(server: Server, name: string, s: GeoState, attempt: nat)
    requires attempt <= MAX_RETRIES && Spaced(s)
    ensures Spaced(Fetch(server, name, s, attempt).state)
    decreases MAX_RETRIES - attempt
  {
    if attempt < MAX_RETRIES && Transient(server(name, |s.sent|)) {
      FetchSpaced(server, name, Slept(Attempted(name, s), Backoff(attempt)), attempt + 1);
    }
  }

  /** When every attempt fails transiently, exactly MAX_RETRIES requests
      are sent and the waits requested are the rate limit's, then 2, 4 and 8
      seconds of backoff (the rate limit never waits after a backoff). */
  lemma ExhaustedRetries(server: Server, name: string, s: GeoState)
    requires forall k :: |s.sent| <= k < |s.sent| + MAX_RETRIES ==> Transient(server(name, k))
    ensures Fetch(server, name, s, 0).outcome == Exhausted
    ensures |Fetch(server, name, s, 0).state.sent| == |s.sent| + MAX_RETRIES
    ensures Fetch(server, name, s, 0).state.waits == RateLimited(s).waits + [2.0, 4.0, 8.0]
  {
    var r0 := RateLimited(s);
    var t0 := Slept(r0.(sent := r0.sent + [Request(name, r0.now)]), Backoff(0));
    var r1 := RateLimited(t0);
    assert r1.waits == t0.waits;
    var t1 := Slept(r1.(sent := r1.sent + [Request(name, r1.now)]), Backoff(1));
    var r2 := RateLimited(t1);
    assert r2.waits == t1.waits;
    assert Pow2(3) == 8;
  }

  /** An unexpected error ends geocode_place at once: one request, no
      backoff. */
  lemma AbortsAtOnce(server: Server, name: string, s: GeoState)
    requires server(name, |s.sent|) == OtherFailure
    ensures Fetch(server, name, s, 0).outcome == Aborted
    ensures Fetch(server, name, s, 0).state.sent == s.sent + [Request(name, RateLimited(s).now)]
    ensures Fetch(server, name, s, 0).state.waits == RateLimited(s).waits
  {
  }

  // ------------------------------------------------------------- mock mode

  /** `MOCK_COORDS`, in its insertion order. */
  const MOCK_COORDS: seq<(string, Located)> := [
    ("paris", Located(48.8566, 2.3522, "Paris, France")),
    ("london", Located(51.5074, -0.1278, "London, UK")),
    ("tokyo", Located(35.6762, 139.6503, "Tokyo, Japan")),
    ("new york", Located(40.7128, -74.0060, "New York, USA")),
    ("default", Located(0.0, 0.0, "Unknown Location"))
  ]

  const MOCK_DEFAULT: Located := Located(0.0, 0.0, "Unknown Location")

  /** The first entry of `table` whose key occurs in `lowered`. */
  function FirstMockMatch(lowered: string, table: seq<(string, Located)>): (r: Located)
    ensures r == MOCK_DEFAULT || exists i :: 0 <= i < |table| && table[i].1 == r
  {
    if table == [] then MOCK_DEFAULT
    else if Contains(lowered, table[0].0) then table[0].1
    else FirstMockMatch(lowered, table[1..])
  }

  /** `_get_mock_coords`. */
  function MockCoords(name: string): Located
  {
    FirstMockMatch(Lower(name), MOCK_COORDS)
  }

  /** The mock table is searched in order: the first key contained in the
      lower-cased name decides, and no match gives the default entry. */
  lemma {:induction false} FirstMockMatchIsFirst(lowered: string, table: seq<(string, Located)>, i: nat)
    requires i <= |table|
    requires forall j :: 0 <= j < i ==> !Contains(lowered, table[j].0)
    ensures i < |table| && Contains(lowered, table[i].0) ==> FirstMockMatch(lowered, table) == table[i].1
    ensures i == |table| ==> FirstMockMatch(lowered, table) == MOCK_DEFAULT
  {
    if i > 0 {
      assert !Contains(lowered, table[0].0);
      FirstMockMatchIsFirst(lowered, table[1..], i - 1);
    }
  }

  // ---------------------------------------------------------- geocode_place

  /** The display a cache hit returns: `display_name or name`. */
  function CachedLabel(e: CacheEntry, name: string): string
  {
    if e.displayName.Some? && e.displayName.value != "" then e.displayName.value else name
  }

  datatype Lookup = Lookup(result: Option<Located>, state: GeoState)

  /** `geocode_place(name)`: the cache row for exactly `name` if there is
      one; otherwise, in mock mode, the mock table; otherwise the first
      Nominatim hit, which is then cached under `name`. */
  function Geocode(server: Server, mock: bool, s: GeoState, name: string): (r: Lookup)
    ensures name in s.cache ==> r.state == s
    ensures name in s.cache ==> r.result == Some(Located(s.cache[name].latitude, s.cache[name].longitude, CachedLabel(s.cache[name], name)))
    ensures r.result.Some? ==>
      && name in r.state.cache
      && r.state.cache[name].latitude == r.result.value.lat
      && r.state.cache[name].longitude == r.result.value.lon
    ensures r.result.Some? ==> r.state.cache == s.cache[name := r.state.cache[name]]
    ensures r.result.None? ==> r.state.cache == s.cache
    ensures Extends(s.cache, r.state.cache)
    ensures name !in s.cache && mock ==>
      var m := MockCoords(name);
      r == Lookup(Some(m), s.(cache := s.cache[name := CacheEntry(m.lat, m.lon, Some(m.display))]))
  {
    if name in s.cache then
      var e := s.cache[name];
      Lookup(Some(Located(e.latitude, e.longitude, CachedLabel(e, name))), s)
    else if mock then
      var m := MockCoords(name);
      Lookup(Some(m), s.(cache := s.cache[name := CacheEntry(m.lat, m.lon, Some(m.display))]))
    else
      var f := Fetch(server, name, s, 0);
      if f.outcome.Received? && f.outcome.body.Some? && |f.outcome.body.value| > 0 then
        var h := f.outcome.body.value[0];
        var display := if h.displayName.Some? then h.displayName.value else name;
        Lookup(Some(Located(h.lat, h.lon, display)), f.state.(cache := f.state.cache[name := CacheEntry(h.lat, h.lon, Some(display))]))
      else
        Lookup(None, f.state)
  }

  /** In mock mode a fresh lookup answers with the entry of the first key of
      MOCK_COORDS that the lower-cased name contains, or the default entry
      when none does. */
  lemma MockLookupFirstKey(server: Server, s: GeoState, name: string, i: nat)
    requires name !in s.cache
    requires i <= |MOCK_COORDS|
    requires forall j :: 0 <= j < i ==> !Contains(Lower(name), MOCK_COORDS[j].0)
    ensures i < |MOCK_COORDS| && Contains(Lower(name), MOCK_COORDS[i].0) ==>
      Geocode(server, true, s, name).result == Some(MOCK_COORDS[i].1)
    ensures i == |MOCK_COORDS| ==> Geocode(server, true, s, name).result == Some(MOCK_DEFAULT)
  {
    FirstMockMatchIsFirst(Lower(name), MOCK_COORDS, i);
  }

  /** A lookup sends at most MAX_RETRIES requests, all for the string looked
      up, none on a cache hit or in mock mode, and keeps requests MIN_DELAY
      apart. */
  lemma GeocodeRequests(server: Server, mock: bool, s: GeoState, name: string)
    ensures var r := Geocode(server, mock, s, name).state;
      && |s.sent| <= |r.sent| <= |s.sent| + MAX_RETRIES
      && r.sent[..|s.sent|] == s.sent
      && (forall i :: |s.sent| <= i < |r.sent| ==> r.sent[i].query == name)
      && (name in s.cache || mock ==> r.sent == s.sent && r.waits == s.waits)
  {
    FetchSent(server, name, s, 0);
  }

  /** A lookup keeps requests MIN_DELAY apart. */
  lemma GeocodeSpaced(server: Server, mock: bool, s: GeoState, name: string)
    requires Spaced(s)
    ensures Spaced(Geocode(server, mock, s, name).state)
  {
    if name !in s.cache && !mock {
      FetchSpaced(server, name, s, 0);
    }
  }

  /** A successful fresh lookup caches exactly the first hit under the query
      string and returns it, whatever the later hits are. */
  lemma FirstHitCached(server: Server, s: GeoState, name: string, h: Hit, more: seq<Hit>)
    requires name !in s.cache
    requires server(name, |s.sent|) == Results([h] + more)
    ensures var display := if h.displayName.Some? then h.displayName.value else name;
      && Geocode(server, false, s, name).result == Some(Located(h.lat, h.lon, display))
      && Geocode(server, false, s, name).state.cache == s.cache[name := CacheEntry(h.lat, h.lon, Some(display))]
      && |Geocode(server, false, s, name).state.sent| == |s.sent| + 1
  {
  }

  /** However many transient failures came first, a fresh lookup whose retry
      loop ends with a non-empty answer returns the first hit and caches
      exactly it under the query string, on top of the loop's state. */
  lemma FirstHitCachedAfterRetries(server: Server, s: GeoState, name: string, h: Hit, more: seq<Hit>)
    requires name !in s.cache
    requires Fetch(server, name, s, 0).outcome == Received(Some([h] + more))
    ensures var display := if h.displayName.Some? then h.displayName.value else name;
      var f := Fetch(server, name, s, 0);
      && Geocode(server, false, s, name).result == Some(Located(h.lat, h.lon, display))
      && Geocode(server, false, s, name).state == f.state.(cache := s.cache[name := CacheEntry(h.lat, h.lon, Some(display))])
  {
  }

  /** A lookup whose first request fails transiently and whose second is
      answered: two requests, a backoff of two seconds, and the first hit of
      the second answer. */
  lemma HitAfterOneRetry(server: Server, s: GeoState, name: string, h: Hit, more: seq<Hit>)
    requires name !in s.cache
    requires Transient(server(name, |s.sent|))
    requires server(name, |s.sent| + 1) == Results([h] + more)
    ensures var display := if h.displayName.Some? then h.displayName.value else name;
      var r := Geocode(server, false, s, name);
      && r.result == Some(Located(h.lat, h.lon, display))
      && r.state.cache == s.cache[name := CacheEntry(h.lat, h.lon, Some(display))]
      && |r.state.sent| == |s.sent| + 2
      && r.state.waits == RateLimited(s).waits + [2.0]
  {
    var t := Slept(Attempted(name, s), Backoff(0));
    assert |t.sent| == |s.sent| + 1;
    FetchStep(server, name, s, 0);
    FetchStep(server, name, t, 1);
    assert RateLimited(t).waits == t.waits;
  }

  /** An empty answer gives None and caches nothing. */
  lemma EmptyAnswerNotCached(server: Server, s: GeoState, name: string)
    requires name !in s.cache
    requires server(name, |s.sent|) == Results([])
    ensures Geocode(server, false, s, name).result == None
    ensures Geocode(server, false, s, name).state.cache == s.cache
  {
  }

  /** Looking the same string up twice: the second lookup is served from the
      cache, sends nothing, leaves the state alone and returns the same
      coordinates; the display is the same too unless the first was empty. */
  lemma SecondLookupFromCache(server: Server, mock: bool, s: GeoState, name: string)
    requires Geocode(server, mock, s, name).result.Some?
    ensures var first := Geocode(server, mock, s, name);
      var second := Geocode(server, mock, first.state, name);
      && second.state == first.state
      && second.result.Some?
      && second.result.value.lat == first.result.value.lat
      && second.result.value.lon == first.result.value.lon
      && (first.result.value.display != "" ==> second.result == first.result)
  {
    var first := Geocode(server, mock, s, name);
    if name !in s.cache {
      assert first.state.cache[name].displayName == Some(first.result.value.display);
    }
  }

  // --------------------------------------------------- query construction

  /** The suffixes `_normalize_place_name` removes, in dictionary order. */
  const SUFFIXES: seq<string> := [" museum", " tower"]

  /** Drop a leading "the " (checked case-insensitively). */
  function DropLeadingThe(s: string): (r: string)
    ensures |r| <= |s| && r == s[|s| - |r|..]
    ensures |r| < |s| <==> StartsWith(Lower(s), "the ")
    ensures StartsWith(Lower(s), "the ") ==> r == s[4..]
    ensures !StartsWith(Lower(s), "the ") ==> r == s
  {
    if StartsWith(Lower(s), "the ") then s[4..] else s
  }

  /** No entry of `table` before index i is a suffix of `lowered`. */
  predicate FirstEnding(lowered: string, table: seq<string>, i: nat)
    requires i <= |table|
  {
    forall j :: 0 <= j < i ==> !EndsWith(lowered, table[j])
  }

  /** Drop the first suffix of `table` that `lowered` ends with: at most one,
      as the loop breaks after a removal. */
  function DropFirstSuffix(s: string, lowered: string, table: seq<string>): (r: string)
    requires |lowered| == |s|
    ensures |r| <= |s| && r == s[..|r|]
    ensures (forall i :: 0 <= i < |table| ==> !EndsWith(lowered, table[i])) ==> r == s
    ensures |table| > 0 && EndsWith(lowered, table[0]) ==> |r| == |s| - |table[0]|
    ensures forall i :: 0 <= i < |table| && EndsWith(lowered, table[i]) && FirstEnding(lowered, table, i) ==>
      r == s[..|s| - |table[i]|]
  {
    if table == [] then s
    else if EndsWith(lowered, table[0]) then s[..|s| - |table[0]|]
    else DropFirstSuffix(s, lowered, table[1..])
  }

  /** `_normalize_place_name`: trim, drop a leading "the " and one trailing
      " museum" or " tower" (case-insensitively), trim again. The result is a
      piece of the input, so never longer. */
  function NormalizePlaceName(name: string): (r: string)
    ensures Trimmed(r)
    ensures Contains(name, r) && |r| <= |name|
  {
    var s0 := Strip(name);
    var s1 := DropLeadingThe(s0);
    var s2 := DropFirstSuffix(s1, Lower(s1), SUFFIXES);
    var r := Strip(s2);
    StripWithin(name);
    StripWithin(s2);
    ContainsSuffix(s0, s1);
    ContainsPrefix(s1, s2);
    ContainsTransitive(name, s0, s1);
    ContainsTransitive(name, s1, s2);
    ContainsTransitive(name, s2, r);
    r
  }

  /** A name made of a leading "the " and one of the suffixes, in any case,
      around a middle part normalises to that middle part, trimmed. */
  lemma NormalizeDropsTheAndSuffix(t: string, w: string, x: string)
    requires Lower(t) == "the " && Lower(x) in SUFFIXES
    ensures NormalizePlaceName(t + w + x) == Strip(w)
  {
    TheSuffixTrimmed(t, w, x);
    StripTrimmed(t + w + x);
    TheDropped(t, w, x);
    DropSuffixOf(w, x);
  }

  /** The leading "the " of such a name is dropped. */
  lemma TheDropped(t: string, w: string, x: string)
    requires Lower(t) == "the "
    ensures DropLeadingThe(t + w + x) == w + x
  {
    var name := t + w + x;
    assert name == t + (w + x);
    LowerAppend(t, w + x);
    assert name[4..] == w + x;
  }

  /** Such a name has no whitespace at its ends: it starts with a "t" and
      ends with the last letter of a suffix. */
  lemma TheSuffixTrimmed(t: string, w: string, x: string)
    requires Lower(t) == "the " && Lower(x) in SUFFIXES
    ensures Trimmed(t + w + x)
  {
    var name := t + w + x;
    assert Lower(t)[0] == LowerChar(t[0]);
    assert Lower(x)[|x| - 1] == LowerChar(x[|x| - 1]);
    assert name[0] == t[0] && name[|name| - 1] == x[|x| - 1];
  }

  /** A name ending in one of the suffixes, in any case, loses exactly that
      suffix. */
  lemma DropSuffixOf(w: string, x: string)
    requires Lower(x) in SUFFIXES
    ensures DropFirstSuffix(w + x, Lower(w + x), SUFFIXES) == w
  {
    var lowered := Lower(w + x);
    LowerAppend(w, x);
    assert EndsWith(lowered, Lower(x)) by {
      assert lowered[|lowered| - |x|..] == Lower(x);
    }
    if Lower(x) == SUFFIXES[1] {
      assert lowered[|lowered| - 1] == 'r';
      assert !EndsWith(lowered, SUFFIXES[0]);
      assert FirstEnding(lowered, SUFFIXES, 1);
    } else {
      assert FirstEnding(lowered, SUFFIXES, 0);
    }
    assert (w + x)[..|w|] == w;
  }

  /** A trimmed name with neither a leading "the " nor one of the suffixes
      is its own normal form. */
  lemma NormalizeKeepsPlainName(name: string)
    requires Trimmed(name) && !StartsWith(Lower(name), "the ")
    requires forall i :: 0 <= i < |SUFFIXES| ==> !EndsWith(Lower(name), SUFFIXES[i])
    ensures NormalizePlaceName(name) == name
  {
    StripTrimmed(name);
  }

  /** The city context read from the trimmed comma-separated parts: the
      last part, or the last two joined by ", " when there are more than
      two; None for a single part. */
  function LastParts(parts: seq<string>): (r: Option<string>)
    ensures r.Some? <==> |parts| >= 2
  {
    if |parts| > 2 then Some(parts[|parts| - 2] + ", " + parts[|parts| - 1])
    else if |parts| == 2 then Some(parts[1])
    else None
  }

  /** `_extract_city_context`; None without a comma or for None/"". */
  function ExtractCityContext(location: Option<string>): (r: Option<string>)
    ensures r.Some? <==> Truthy(location) && ',' in location.value
  {
    if !Truthy(location) then None
    else
      SplitOnSeveral(location.value, ',');
      LastParts(StripEach(SplitOn(location.value, ',')))
  }

  /** Read back on a location built from comma-free parts: two parts give the
      trimmed second one, more give the trimmed last two joined by ", ". */
  lemma CityContextOfParts(parts: seq<string>)
    requires |parts| >= 2
    requires forall p :: p in parts ==> ',' !in p
    ensures |parts| == 2 ==> ExtractCityContext(Some(Join(parts, ","))) == Some(Strip(parts[1]))
    ensures |parts| > 2 ==>
      ExtractCityContext(Some(Join(parts, ","))) == Some(Strip(parts[|parts| - 2]) + ", " + Strip(parts[|parts| - 1]))
  {
    var loc := Join(parts, ",");
    SplitOnJoin(parts, ',');
    SplitOnSeveral(loc, ',');
    assert ExtractCityContext(Some(loc)) == LastParts(StripEach(parts));
  }

  /** `f"{q}, {city}"`. */
  function Qualify(q: string, city: string): (r: string)
    ensures EndsWith(r, ", " + city) && StartsWith(r, q)
  {
    var r := q + ", " + city;
    assert r[|r| - |", " + city|..] == ", " + city;
    assert r[..|q|] == q;
    r
  }

  /** The queries geocode_trip tries for a place named `name` whose
      normalised name is `n`, in order: `n` with the city, `n` alone, `name`
      with the city; a city-qualified query only when the city is non-empty
      and not already (case-insensitively) part of the name it would
      qualify. */
  function PlaceQueries(name: string, n: string, city: Option<string>): (qs: seq<string>)
    ensures 1 <= |qs| <= 3
    ensures n in qs
    ensures !Truthy(city) ==> qs == [n]
    ensures forall i :: 0 <= i < |qs| && qs[i] != n ==>
      Truthy(city) && EndsWith(qs[i], ", " + city.value)
  {
    var first := if Truthy(city) && !Contains(Lower(n), Lower(city.value)) then [Qualify(n, city.value)] else [];
    var last := if Truthy(city) && !Contains(Lower(name), Lower(city.value)) then [Qualify(name, city.value)] else [];
    first + [n] + last
  }

  /** With a city, each city-qualified query is tried exactly when the name
      it qualifies does not already mention the city, case-insensitively; the
      normalised name with the city comes first, the normalised name alone
      next and the original name with the city last. Where both names
      mention the city only the normalised name is tried; where neither
      does, all three are. */
  lemma PlaceQueriesCases(name: string, city: string)
    requires city != ""
    ensures var n := NormalizePlaceName(name);
      var qs := PlaceQueries(name, n, Some(city));
      var qualifyN := !Contains(Lower(n), Lower(city));
      var qualifyName := !Contains(Lower(name), Lower(city));
      && (Qualify(n, city) in qs <==> qualifyN)
      && (Qualify(name, city) in qs <==> qualifyName)
      && |qs| == 1 + (if qualifyN then 1 else 0) + (if qualifyName then 1 else 0)
      && (qualifyN ==> qs[0] == Qualify(n, city))
      && qs[if qualifyN then 1 else 0] == n
      && (qualifyName ==> qs[|qs| - 1] == Qualify(name, city))
      && (!qualifyN && !qualifyName ==> qs == [n])
      && (qualifyN && qualifyName ==> qs == [Qualify(n, city), n, Qualify(name, city)])
  {
    PlaceQueriesOrder(name, NormalizePlaceName(name), city);
  }

  /** The same for any `n` no longer than `name`, which keeps the three
      queries apart. */
  lemma PlaceQueriesOrder(name: string, n: string, city: string)
    requires city != "" && |n| <= |name|
    ensures var qs := PlaceQueries(name, n, Some(city));
      var qualifyN := !Contains(Lower(n), Lower(city));
      var qualifyName := !Contains(Lower(name), Lower(city));
      && (Qualify(n, city) in qs <==> qualifyN)
      && (Qualify(name, city) in qs <==> qualifyName)
      && |qs| == 1 + (if qualifyN then 1 else 0) + (if qualifyName then 1 else 0)
      && (qualifyN ==> qs[0] == Qualify(n, city))
      && qs[if qualifyN then 1 else 0] == n
      && (qualifyName ==> qs[|qs| - 1] == Qualify(name, city))
      && (!qualifyN && !qualifyName ==> qs == [n])
      && (qualifyN && qualifyName ==> qs == [Qualify(n, city), n, Qualify(name, city)])
  {
    assert |Qualify(n, city)| > |n| && |Qualify(name, city)| > |name| >= |n|;
    assert Qualify(n, city) == Qualify(name, city) ==> n == name by {
      if Qualify(n, city) == Qualify(name, city) {
        assert |n| == |name|;
        assert n == Qualify(n, city)[..|n|] == Qualify(name, city)[..|name|] == name;
      }
    }
  }

  // ------------------------------------------------- geocode_trip, as values

  /** The cache maps `q` to the coordinates of `l`. */
  predicate Resolves(c: map<string, CacheEntry>, q: string, l: Located)
  {
    q in c && c[q].latitude == l.lat && c[q].longitude == l.lon
  }

  /** Some query of `qs` is cached with the coordinates of `l`. */
  ghost predicate ResolvedBy(c: map<string, CacheEntry>, qs: seq<string>, l: Located)
  {
    exists i :: 0 <= i < |qs| && Resolves(c, qs[i], l)
  }

  lemma ResolvedByExtends(c: map<string, CacheEntry>, c': map<string, CacheEntry>, qs: seq<string>, l: Located)
    requires ResolvedBy(c, qs, l) && Extends(c, c')
    ensures ResolvedBy(c', qs, l)
  {
    var i :| 0 <= i < |qs| && Resolves(c, qs[i], l);
    assert Resolves(c', qs[i], l);
  }

  /** Which query of a place's list resolved (`at`, or |queries| for none),
      what it resolved to, and the state after. */
  datatype Resolution = Resolution(found: Option<Located>, at: nat, state: GeoState)

  /** The query loop of geocode_trip: look the queries up in order and stop
      at the first that resolves. A query cached from the start resolves, so
      no query before the winning one was in the cache; the winning query is
      cached with the coordinates returned. */
  function FirstSuccess(server: Server, mock: bool, s: GeoState, queries: seq<string>): (r: Resolution)
    ensures r.found.Some? ==> r.at < |queries| && Resolves(r.state.cache, queries[r.at], r.found.value)
    ensures r.found.None? ==> r.at == |queries| && r.state.cache == s.cache
    ensures forall j :: 0 <= j < r.at && j < |queries| ==> queries[j] !in s.cache
    ensures Extends(s.cache, r.state.cache)
    decreases |queries|
  {
    if queries == [] then Resolution(None, 0, s)
    else
      var l := Geocode(server, mock, s, queries[0]);
      if l.result.Some? then Resolution(l.result, 0, l.state)
      else
        var r := FirstSuccess(server, mock, l.state, queries[1..]);
        Resolution(r.found, r.at + 1, r.state)
  }

  /** The `break` of the query loop: every query before the winning one
      found nothing, and trying only the queries up to the winning one gives
      the same result and state, so the later queries are never looked up. */
  lemma FirstSuccessStops(server: Server, mock: bool, s: GeoState, queries: seq<string>)
    ensures var r := FirstSuccess(server, mock, s, queries);
      && FirstSuccess(server, mock, s, queries[..r.at]).found == None
      && FirstSuccess(server, mock, s, queries[..Tried(r, queries)]) == r
  {
    FirstSuccessEarlier(server, mock, s, queries);
    FirstSuccessPrefix(server, mock, s, queries);
  }

  lemma {:induction false} FirstSuccessEarlier(server: Server, mock: bool, s: GeoState, queries: seq<string>)
    ensures FirstSuccess(server, mock, s, queries[..FirstSuccess(server, mock, s, queries).at]).found == None
    decreases |queries|
  {
    if queries != [] {
      var r := FirstSuccess(server, mock, s, queries);
      var l := Geocode(server, mock, s, queries[0]);
      if l.result.Some? {
        assert queries[..0] == [];
      } else {
        var rest := queries[1..];
        FirstSuccessEarlier(server, mock, l.state, rest);
        var r' := FirstSuccess(server, mock, l.state, rest);
        assert queries[..r.at][0] == queries[0] && queries[..r.at][1..] == rest[..r'.at];
      }
    }
  }

  lemma {:induction false} FirstSuccessPrefix(server: Server, mock: bool, s: GeoState, queries: seq<string>)
    ensures var r := FirstSuccess(server, mock, s, queries);
      FirstSuccess(server, mock, s, queries[..Tried(r, queries)]) == r
    decreases |queries|
  {
    if queries != [] {
      var l := Geocode(server, mock, s, queries[0]);
      if l.result.Some? {
        assert queries[..1][0] == queries[0];
      } else {
        var rest := queries[1..];
        FirstSuccessPrefix(server, mock, l.state, rest);
        var r' := FirstSuccess(server, mock, l.state, rest);
        var t := Tried(r', rest);
        var short := queries[..t + 1];
        assert short[0] == queries[0] && short[1..] == rest[..t];
        assert FirstSuccess(server, mock, s, short) == Resolution(r'.found, r'.at + 1, r'.state);
      }
    }
  }

  /** How many queries the loop looked up: up to the winning one, or all. */
  function Tried(r: Resolution, queries: seq<string>): nat
  {
    if r.found.Some? then r.at + 1 else |queries|
  }

  /** The query loop only appends requests, each for a query it tried. */
  lemma {:induction false} FirstSuccessSent(server: Server, mock: bool, s: GeoState, queries: seq<string>)
    ensures var r := FirstSuccess(server, mock, s, queries);
      && Tried(r, queries) <= |queries|
      && |s.sent| <= |r.state.sent| && r.state.sent[..|s.sent|] == s.sent
      && (forall i :: |s.sent| <= i < |r.state.sent| ==> r.state.sent[i].query in queries[..Tried(r, queries)])
    decreases |queries|
  {
    if queries != [] {
      var r := FirstSuccess(server, mock, s, queries);
      var l := Geocode(server, mock, s, queries[0]);
      GeocodeRequests(server, mock, s, queries[0]);
      if l.result.Some? {
        assert queries[..1][0] == queries[0];
      } else {
        var rest := queries[1..];
        FirstSuccessSent(server, mock, l.state, rest);
        var r' := FirstSuccess(server, mock, l.state, rest);
        var t := Tried(r', rest);
        SentStep(s.sent, l.state.sent, r.state.sent, queries, t);
      }
    }
  }

  /** Requests for the first query followed by requests for one of the next
      `t` queries are all for one of the first `t + 1`. */
  lemma SentStep(a: seq<Request>, b: seq<Request>, c: seq<Request>, queries: seq<string>, t: nat)
    requires 0 < |queries| && t < |queries|
    requires |a| <= |b| <= |c| && b[..|a|] == a && c[..|b|] == b
    requires forall i :: |a| <= i < |b| ==> b[i].query == queries[0]
    requires forall i :: |b| <= i < |c| ==> c[i].query in queries[1..][..t]
    ensures |a| <= |c| && c[..|a|] == a
    ensures forall i :: |a| <= i < |c| ==> c[i].query in queries[..t + 1]
  {
    forall i | |a| <= i < |c|
      ensures c[i].query in queries[..t + 1]
    {
      if i < |b| {
        assert c[i] == b[i];
        assert queries[..t + 1][0] == queries[0];
      } else {
        var k :| 0 <= k < t && queries[1..][k] == c[i].query;
        assert queries[..t + 1][k + 1] == queries[1..][k];
      }
    }
  }

  lemma {:induction false} FirstSuccessSpaced(server: Server, mock: bool, s: GeoState, queries: seq<string>)
    requires Spaced(s)
    ensures Spaced(FirstSuccess(server, mock, s, queries).state)
    decreases |queries|
  {
    if queries != [] {
      GeocodeSpaced(server, mock, s, queries[0]);
      FirstSuccessSpaced(server, mock, Geocode(server, mock, s, queries[0]).state, queries[1..]);
    }
  }

  /** The lookups of a day's start and end locations (the ones that are
      non-empty), in order. */
  function Endpoints(server: Server, mock: bool, s: GeoState, locs: seq<Option<string>>): GeoState
    decreases |locs|
  {
    if locs == [] then s
    else
      var s1 := if Truthy(locs[0]) then Geocode(server, mock, s, locs[0].value).state else s;
      Endpoints(server, mock, s1, locs[1..])
  }

  /** Looking up the endpoints only adds to the cache. */
  lemma {:induction false} EndpointsExtends(server: Server, mock: bool, s: GeoState, locs: seq<Option<string>>)
    ensures Extends(s.cache, Endpoints(server, mock, s, locs).cache)
    decreases |locs|
  {
    if locs != [] {
      var s1 := if Truthy(locs[0]) then Geocode(server, mock, s, locs[0].value).state else s;
      EndpointsExtends(server, mock, s1, locs[1..]);
    }
  }

  lemma {:induction false} EndpointsSpaced(server: Server, mock: bool, s: GeoState, locs: seq<Option<string>>)
    requires Spaced(s)
    ensures Spaced(Endpoints(server, mock, s, locs))
    decreases |locs|
  {
    if locs != [] {
      var s1 := if Truthy(locs[0]) then Geocode(server, mock, s, locs[0].value).state else s;
      if Truthy(locs[0]) {
        GeocodeSpaced(server, mock, s, locs[0].value);
      }
      EndpointsSpaced(server, mock, s1, locs[1..]);
    }
  }

  /** The query list geocode_trip builds for one place name. */
  function QueriesFor(name: string, city: Option<string>): (qs: seq<string>)
    ensures 1 <= |qs| <= 3
  {
    PlaceQueries(name, NormalizePlaceName(name), city)
  }

  /** The query lists of a day's places, in place order. */
  function QueryLists(ps: seq<Place>, city: Option<string>): (ls: seq<seq<string>>)
    ensures |ls| == |ps|
  {
    seq(|ps|, i requires 0 <= i < |ps| => QueriesFor(ps[i].name, city))
  }

  /** Each place gets its own queries, one to three of them. */
  lemma QueryListsAt(ps: seq<Place>, city: Option<string>, i: nat)
    requires i < |ps|
    ensures QueryLists(ps, city)[i] == QueriesFor(ps[i].name, city)
    ensures 1 <= |QueryLists(ps, city)[i]| <= 3
  {
  }

  /** What geocoding finds for each of a list of places, and the state after. */
  datatype Run = Run(found: seq<Option<Located>>, state: GeoState)

  /** The place loop of geocode_trip for one day, given each place's query
      list: one outcome per place. */
  function PlacesRun(server: Server, mock: bool, s: GeoState, lists: seq<seq<string>>): (r: Run)
    ensures |r.found| == |lists|
    decreases |lists|
  {
    if lists == [] then Run([], s)
    else
      var n := |lists| - 1;
      var prev := PlacesRun(server, mock, s, lists[..n]);
      var res := FirstSuccess(server, mock, prev.state, lists[n]);
      Run(prev.found + [res.found], res.state)
  }

  /** After the place loop every place found is cached under one of its
      queries with the coordinates found, and no cache entry was lost. */
  lemma {:induction false} PlacesRunResolved(server: Server, mock: bool, s: GeoState, lists: seq<seq<string>>)
    ensures var r := PlacesRun(server, mock, s, lists);
      && (forall k :: 0 <= k < |lists| && r.found[k].Some? ==> ResolvedBy(r.state.cache, lists[k], r.found[k].value))
      && Extends(s.cache, r.state.cache)
    decreases |lists|
  {
    if lists != [] {
      var n := |lists| - 1;
      PlacesRunResolved(server, mock, s, lists[..n]);
      var prev := PlacesRun(server, mock, s, lists[..n]);
      var res := FirstSuccess(server, mock, prev.state, lists[n]);
      PlacesRunStep(prev, res, lists);
    }
  }

  lemma {:induction false} PlacesRunSpaced(server: Server, mock: bool, s: GeoState, lists: seq<seq<string>>)
    requires Spaced(s)
    ensures Spaced(PlacesRun(server, mock, s, lists).state)
    decreases |lists|
  {
    if lists != [] {
      var n := |lists| - 1;
      PlacesRunSpaced(server, mock, s, lists[..n]);
      FirstSuccessSpaced(server, mock, PlacesRun(server, mock, s, lists[..n]).state, lists[n]);
    }
  }

  /** One more place: its query loop runs from the state the earlier
      places left. */
  lemma PlacesRunSnoc(server: Server, mock: bool, s: GeoState, lists: seq<seq<string>>, k: nat)
    requires k < |lists|
    ensures var prev := PlacesRun(server, mock, s, lists[..k]);
      var res := FirstSuccess(server, mock, prev.state, lists[k]);
      PlacesRun(server, mock, s, lists[..k + 1]) == Run(prev.found + [res.found], res.state)
  {
    assert lists[..k + 1][..k] == lists[..k];
  }

  lemma PlacesRunStep(prev: Run, res: Resolution, lists: seq<seq<string>>)
    requires |lists| > 0 && |prev.found| == |lists| - 1
    requires forall k :: 0 <= k < |lists| - 1 && prev.found[k].Some? ==> ResolvedBy(prev.state.cache, lists[..|lists| - 1][k], prev.found[k].value)
    requires Extends(prev.state.cache, res.state.cache)
    requires res.found.Some? ==> res.at < |lists[|lists| - 1]| && Resolves(res.state.cache, lists[|lists| - 1][res.at], res.found.value)
    ensures forall k :: 0 <= k < |lists| && (prev.found + [res.found])[k].Some? ==>
      ResolvedBy(res.state.cache, lists[k], (prev.found + [res.found])[k].value)
  {
    var f := prev.found + [res.found];
    forall k | 0 <= k < |lists| && f[k].Some?
      ensures ResolvedBy(res.state.cache, lists[k], f[k].value)
    {
      if k < |lists| - 1 {
        assert lists[..|lists| - 1][k] == lists[k];
        ResolvedByExtends(prev.state.cache, res.state.cache, lists[k], f[k].value);
      } else {
        assert Resolves(res.state.cache, lists[k][res.at], f[k].value);
      }
    }
  }

  /** The city context of a day: that of its start location, or failing
      that of its end location. */
  function CityOf(day: Day): Option<string>
  {
    OrElse(ExtractCityContext(day.startLocation), ExtractCityContext(day.endLocation))
  }

  /** geocode_trip for one day: the non-empty start and end locations, then
      the places with the day's city context. */
  function DayRun(server: Server, mock: bool, s: GeoState, day: Day): (r: Run)
    ensures |r.found| == |day.places|
  {
    var s1 := Endpoints(server, mock, s, [day.startLocation, day.endLocation]);
    PlacesRun(server, mock, s1, QueryLists(day.places, CityOf(day)))
  }

  /** After a day, every place found is cached under one of its queries
      with the coordinates it got, and no cache entry was lost. */
  lemma DayRunResolved(server: Server, mock: bool, s: GeoState, day: Day)
    ensures var r := DayRun(server, mock, s, day);
      && (forall k :: 0 <= k < |day.places| && r.found[k].Some? ==>
            ResolvedBy(r.state.cache, QueryLists(day.places, CityOf(day))[k], r.found[k].value))
      && Extends(s.cache, r.state.cache)
  {
    var s1 := Endpoints(server, mock, s, [day.startLocation, day.endLocation]);
    EndpointsExtends(server, mock, s, [day.startLocation, day.endLocation]);
    PlacesRunResolved(server, mock, s1, QueryLists(day.places, CityOf(day)));
  }

  datatype TripRun = TripRun(found: seq<seq<Option<Located>>>, state: GeoState)

  /** geocode_trip, day after day. */
  function TripRunOf(server: Server, mock: bool, s: GeoState, days: seq<Day>): (r: TripRun)
    ensures |r.found| == |days| && forall j :: 0 <= j < |days| ==> |r.found[j]| == |days[j].places|
    decreases |days|
  {
    if days == [] then TripRun([], s)
    else
      var n := |days| - 1;
      var prev := TripRunOf(server, mock, s, days[..n]);
      var d := DayRun(server, mock, prev.state, days[n]);
      AppendLengths(prev.found, d.found, days);
      TripRun(prev.found + [d.found], d.state)
  }

  lemma AppendLengths(prev: seq<seq<Option<Located>>>, last: seq<Option<Located>>, days: seq<Day>)
    requires |days| > 0 && |prev| == |days| - 1
    requires forall j :: 0 <= j < |prev| ==> |prev[j]| == |days[j].places|
    requires |last| == |days[|days| - 1].places|
    ensures forall j :: 0 <= j < |days| ==> |(prev + [last])[j]| == |days[j].places|
  {
  }

  /** At the end of a trip every place found is cached under one of its
      queries with the coordinates it got: a later day's lookups never
      drop an earlier day's entries. */
  lemma {:induction false} TripRunResolved(server: Server, mock: bool, s: GeoState, days: seq<Day>)
    ensures var r := TripRunOf(server, mock, s, days);
      && (forall j, k :: 0 <= j < |days| && 0 <= k < |days[j].places| && r.found[j][k].Some? ==>
            ResolvedBy(r.state.cache, QueryLists(days[j].places, CityOf(days[j]))[k], r.found[j][k].value))
      && Extends(s.cache, r.state.cache)
    decreases |days|
  {
    if days != [] {
      var n := |days| - 1;
      TripRunResolved(server, mock, s, days[..n]);
      var prev := TripRunOf(server, mock, s, days[..n]);
      DayRunResolved(server, mock, prev.state, days[n]);
      TripRunStep(prev, DayRun(server, mock, prev.state, days[n]), days[..n], days);
    }
  }

  /** Requests stay MIN_DELAY apart over a whole trip: the rate limiter's
      watermark is shared by every lookup. */
  lemma {:induction false} TripRunSpaced(server: Server, mock: bool, s: GeoState, days: seq<Day>)
    requires Spaced(s)
    ensures Spaced(TripRunOf(server, mock, s, days).state)
    decreases |days|
  {
    if days != [] {
      var n := |days| - 1;
      TripRunSpaced(server, mock, s, days[..n]);
      var s1 := TripRunOf(server, mock, s, days[..n]).state;
      EndpointsSpaced(server, mock, s1, [days[n].startLocation, days[n].endLocation]);
      PlacesRunSpaced(server, mock, Endpoints(server, mock, s1, [days[n].startLocation, days[n].endLocation]), QueryLists(days[n].places, CityOf(days[n])));
    }
  }

  lemma TripRunStep(prev: TripRun, d: Run, before: seq<Day>, days: seq<Day>)
    requires |days| > 0 && before == days[..|days| - 1] && |prev.found| == |before|
    requires forall j :: 0 <= j < |before| ==> |prev.found[j]| == |before[j].places|
    requires forall j, k :: 0 <= j < |before| && 0 <= k < |before[j].places| && prev.found[j][k].Some? ==>
      ResolvedBy(prev.state.cache, QueryLists(before[j].places, CityOf(before[j]))[k], prev.found[j][k].value)
    requires Extends(prev.state.cache, d.state.cache)
    requires |d.found| == |days[|days| - 1].places|
    requires forall k :: 0 <= k < |d.found| && d.found[k].Some? ==>
      ResolvedBy(d.state.cache, QueryLists(days[|days| - 1].places, CityOf(days[|days| - 1]))[k], d.found[k].value)
    ensures forall j :: 0 <= j < |days| ==> |(prev.found + [d.found])[j]| == |days[j].places|
    ensures forall j, k :: 0 <= j < |days| && 0 <= k < |days[j].places| && (prev.found + [d.found])[j][k].Some? ==>
      ResolvedBy(d.state.cache, QueryLists(days[j].places, CityOf(days[j]))[k], (prev.found + [d.found])[j][k].value)
  {
    var f: seq<seq<Option<Located>>> := prev.found + [d.found];
    forall j: int, k: int | 0 <= j < |days| && 0 <= k < |days[j].places| && f[j][k].Some?
      ensures ResolvedBy(d.state.cache, QueryLists(days[j].places, CityOf(days[j]))[k], f[j][k].value)
    {
      if j < |days| - 1 {
        assert before[j] == days[j];
        assert f[j][k] == prev.found[j][k];
        ResolvedByExtends(prev.state.cache, d.state.cache, QueryLists(days[j].places, CityOf(days[j]))[k], f[j][k].value);
      } else {
        assert f[j] == d.found;
      }
    }
  }

  // -------------------------------------------------------- the service

  /** Whether a place holds the coordinates found, or, when nothing was
      found, the coordinates it had before. */
  predicate Placed(p: Place, found: Option<Located>, lat0: Option<real>, lon0: Option<real>)
    reads p
  {
    if found.Some? then p.latitude == Some(found.value.lat) && p.longitude == Some(found.value.lon)
    else p.latitude == lat0 && p.longitude == lon0
  }

  /** The geocoding service: the cache table, the rate limiter's watermark,
      the clock and the client, updated in place by each lookup. */
  class Geocoder {
    const server: Server
    const mock: bool
    var cache: map<string, CacheEntry>
    var now: real
    var lastRequestTime: real
    var waits: seq<real>
    var sent: seq<Request>

    function State(): GeoState
      reads this
    {
      GeoState(cache, now, lastRequestTime, waits, sent)
    }

    /** A service over an existing cache; the watermark starts at 0.0. */
    constructor (server: Server, mock: bool, cache: map<string, CacheEntry>, now: real)
      requires 0.0 <= now
      ensures this.server == server && this.mock == mock
      ensures State() == GeoState(cache, now, 0.0, [], [])
      ensures Spaced(State())
    {
      this.server := server;
      this.mock := mock;
      this.cache := cache;
      this.now := now;
      lastRequestTime := 0.0;
      waits := [];
      sent := [];
    }

    /** `time.sleep(d)`. */
    method Sleep(d: real)
      modifies this
      ensures State() == Slept(old(State()), d)
    {
      now := now + d;
      waits := waits + [d];
    }

    /** `_rate_limit`. */
    method RateLimit()
      modifies this
      ensures State() == RateLimited(old(State()))
    {
      var elapsed := now - lastRequestTime;
      if elapsed < MIN_DELAY {
        Sleep(MIN_DELAY - elapsed);
      }
      lastRequestTime := now;
    }

    /** One attempt of the retry loop: the rate limit, then the request. */
    method Attempt(name: string) returns (reply: Reply)
      modifies this
      ensures reply == server(name, |old(sent)|)
      ensures State() == Attempted(name, old(State()))
    {
      RateLimit();
      reply := server(name, |sent|);
      sent := sent + [Request(name, now)];
    }

    /** The retry loop of `geocode_place`. */
    method FetchWithRetries(name: string) returns (outcome: Fetched)
      modifies this
      ensures Attempts(outcome, State()) == Fetch(server, name, old(State()), 0)
    {
      ghost var s0 := State();
      outcome := Exhausted;
      var attempt := 0;
      while attempt < MAX_RETRIES
        invariant attempt <= MAX_RETRIES && outcome == Exhausted
        invariant Fetch(server, name, s0, 0) == Fetch(server, name, State(), attempt)
        decreases MAX_RETRIES - attempt
      {
        var done;
        done, outcome := Retry(name, attempt);
        if done {
          return;
        }
        attempt := attempt + 1;
      }
    }

    /** One pass of the retry loop: an attempt that settles ends the loop;
      a transient failure backs off before the next attempt. */
    method Retry(name: string, attempt: nat) returns (done: bool, outcome: Fetched)
      requires attempt < MAX_RETRIES
      modifies this
      ensures done ==> Attempts(outcome, State()) == Fetch(server, name, old(State()), attempt)
      ensures !done ==> outcome == Exhausted
      ensures !done ==> Fetch(server, name, old(State()), attempt) == Fetch(server, name, State(), attempt + 1)
    {
      ghost var s := State();
      FetchStep(server, name, s, attempt);
      var reply := Attempt(name);
      if !Transient(reply) {
        return true, Settled(reply);
      }
      Sleep(Backoff(attempt));
      done, outcome := false, Exhausted;
    }

    /** `geocode_place`: cache, then mock table, then the retry loop. */
    method GeocodePlace(name: string) returns (r: Option<Located>)
      modifies this
      ensures Lookup(r, State()) == Geocode(server, mock, old(State()), name)
    {
      if name in cache {
        var e := cache[name];
        return Some(Located(e.latitude, e.longitude, CachedLabel(e, name)));
      }
      if mock {
        var m := MockCoords(name);
        cache := cache[name := CacheEntry(m.lat, m.lon, Some(m.display))];
        return Some(m);
      }
      var outcome := FetchWithRetries(name);
      if outcome.Received? && outcome.body.Some? && |outcome.body.value| > 0 {
        var h := outcome.body.value[0];
        var display := if h.displayName.Some? then h.displayName.value else name;
        cache := cache[name := CacheEntry(h.lat, h.lon, Some(display))];
        return Some(Located(h.lat, h.lon, display));
      }
      return None;
    }

    /** The query loop for one place: the first query that resolves gives
        the place its coordinates; if none does, they are left alone. */
    method ResolvePlace(p: Place, queries: seq<string>) returns (result: Option<Located>)
      modifies this, p
      ensures result == FirstSuccess(server, mock, old(State()), queries).found
      ensures State() == FirstSuccess(server, mock, old(State()), queries).state
      ensures Placed(p, result, old(p.latitude), old(p.longitude))
    {
      ghost var s0 := State();
      var i := 0;
      while i < |queries|
        invariant i <= |queries|
        invariant FirstSuccess(server, mock, s0, queries).found == FirstSuccess(server, mock, State(), queries[i..]).found
        invariant FirstSuccess(server, mock, s0, queries).state == FirstSuccess(server, mock, State(), queries[i..]).state
        invariant p.latitude == old(p.latitude) && p.longitude == old(p.longitude)
      {
        assert queries[i..][1..] == queries[i + 1..];
        result := GeocodePlace(queries[i]);
        if result.Some? {
          p.latitude, p.longitude := Some(result.value.lat), Some(result.value.lon);
          return;
        }
        i := i + 1;
      }
      result := None;
    }

    /** One place of a day: build its queries, then try them in order. */
    method GeocodePlaceIn(p: Place, city: Option<string>) returns (result: Option<Located>)
      modifies this, p
      ensures result == FirstSuccess(server, mock, old(State()), QueriesFor(p.name, city)).found
      ensures State() == FirstSuccess(server, mock, old(State()), QueriesFor(p.name, city)).state
      ensures Placed(p, result, old(p.latitude), old(p.longitude))
    {
      var normalized := NormalizePlaceName(p.name);
      result := ResolvePlace(p, PlaceQueries(p.name, normalized, city));
    }

    /** Look up the non-empty ones among a day's start and end locations. */
    method GeocodeEndpoints(locs: seq<Option<string>>)
      modifies this
      ensures State() == Endpoints(server, mock, old(State()), locs)
    {
      ghost var s0 := State();
      var i := 0;
      while i < |locs|
        invariant i <= |locs|
        invariant Endpoints(server, mock, s0, locs) == Endpoints(server, mock, State(), locs[i..])
      {
        assert locs[i..][1..] == locs[i + 1..];
        if Truthy(locs[i]) {
          var _ := GeocodePlace(locs[i].value);
        }
        i := i + 1;
      }
    }

    /** The place loop of geocode_trip for one day, given each place's
        query list. */
    method GeocodePlaces(places: seq<Place>, lists: seq<seq<string>>)
      requires |lists| == |places|
      requires forall i, i' :: 0 <= i < i' < |places| ==> places[i] != places[i']
      modifies this, places
      ensures State() == PlacesRun(server, mock, old(State()), lists).state
      ensures forall i :: 0 <= i < |places| ==>
        Placed(places[i], PlacesRun(server, mock, old(State()), lists).found[i], old(places[i].latitude), old(places[i].longitude))
    {
      ghost var s0 := State();
      ghost var found: seq<Option<Located>> := [];
      var k := 0;
      while k < |places|
        invariant k <= |places| && |found| == k
        invariant PlacesRun(server, mock, s0, lists[..k]) == Run(found, State())
        invariant forall i :: 0 <= i < k ==>
          Placed(places[i], found[i], old(places[i].latitude), old(places[i].longitude))
        invariant forall i :: k <= i < |places| ==>
          places[i].latitude == old(places[i].latitude) && places[i].longitude == old(places[i].longitude)
      {
        var p := places[k];
        PlacesRunSnoc(server, mock, s0, lists, k);
        label before:
        var result := ResolvePlace(p, lists[k]);
        forall i | 0 <= i < |places| && i != k
          ensures places[i].latitude == old@before(places[i].latitude) && places[i].longitude == old@before(places[i].longitude)
        {
          assert places[i] != p;
        }
        found := found + [result];
        k := k + 1;
      }
      assert lists[..k] == lists;
    }

    /** geocode_trip for one day: its start and end locations, then its
        places with the day's city context. */
    method GeocodeDay(day: Day) returns (ghost r: Run)
      requires forall i, i' :: 0 <= i < i' < |day.places| ==> day.places[i] != day.places[i']
      modifies this, day.places
      ensures r == DayRun(server, mock, old(State()), day)
      ensures State() == r.state && |r.found| == |day.places|
      ensures forall i :: 0 <= i < |day.places| ==>
        Placed(day.places[i], r.found[i], old(day.places[i].latitude), old(day.places[i].longitude))
    {
      r := DayRun(server, mock, State(), day);
      GeocodeEndpoints([day.startLocation, day.endLocation]);
      var city := OrElse(ExtractCityContext(day.startLocation), ExtractCityContext(day.endLocation));
      var lists := QueryLists(day.places, city);
      GeocodePlaces(day.places, lists);
    }
  }
}
