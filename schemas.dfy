/** Validation and normalisation of a trip creation request (`schemas.py`).
    Each field validator either returns the normalised value or rejects the
    request with an error; the request parsers collect the errors of all
    fields in field order. */
module Schemas {
  import opened Common
  import opened Text

  const MAX_PLACES_PER_DAY: nat := 5
  const PLACE_TYPES: seq<string> := ["hotel", "attraction", "restaurant"]

  datatype SchemaError =
    | InvalidPlaceType(value: string)
    | TooManyPlaces(count: nat)
    | EmptyTitle
    | NoDays
    | DuplicateDayNumbers

  /** The text of each error. */
  function Message(e: SchemaError): string
  {
    match e
    case InvalidPlaceType(_) => "place_type must be one of: " + Join(PLACE_TYPES, ", ")
    case TooManyPlaces(_) => "Maximum 5 places per day"
    case EmptyTitle => "Title cannot be empty"
    case NoDays => "At least one day is required"
    case DuplicateDayNumbers => "Day numbers must be unique"
  }

  /** The request as sent, before validation. */
  datatype RawPlace = RawPlace(name: string, placeType: string)
  datatype RawDay = RawDay(dayNumber: int, startLocation: Option<string>, endLocation: Option<string>, places: seq<RawPlace>)
  datatype RawTrip = RawTrip(title: string, startDate: Option<string>, endDate: Option<string>, days: seq<RawDay>)

  /** The validated request. */
  datatype PlaceInput = PlaceInput(name: string, placeType: string)
  datatype DayInput = DayInput(dayNumber: int, startLocation: Option<string>, endLocation: Option<string>, places: seq<PlaceInput>)
  datatype TripCreateRequest = TripCreateRequest(title: string, startDate: Option<string>, endDate: Option<string>, days: seq<DayInput>)

  // ------------------------------------------------------------- whitespace

  /** `normalize_name`, also used by `normalize_location`:
      `" ".join(v.strip().split())`, with surrounding whitespace removed and
      every inner run of whitespace replaced by one space. */
  function NormalizeSpaces(v: string): (r: string)
  {
    Join(Words(Strip(v)), " ")
  }

  /** The result is collapsed (no whitespace at either end, single spaces
      inside), keeps the words of the stripped input, and is empty exactly
      when the input holds no word. */
  lemma NormalizeSpacesCollapsed(v: string)
    ensures Collapsed(NormalizeSpaces(v))
    ensures Words(NormalizeSpaces(v)) == Words(Strip(v))
    ensures NormalizeSpaces(v) == "" <==> Words(Strip(v)) == []
  {
    WordsAreWords(Strip(v));
    JoinCollapsed(Words(Strip(v)));
    WordsOfJoin(Words(Strip(v)));
  }

  /** Normalising twice changes nothing. */
  lemma NormalizeSpacesIdempotent(v: string)
    ensures NormalizeSpaces(NormalizeSpaces(v)) == NormalizeSpaces(v)
  {
    var r := NormalizeSpaces(v);
    NormalizeSpacesCollapsed(v);
    CollapsedTrimmed(r);
    StripTrimmed(r);
  }

  // -------------------------------------------------------------- PlaceInput

  /** `validate_place_type`: stripped and lower-cased, then accepted only
      when it is one of the three place types. */
  function ValidatePlaceType(v: string): (r: Result<string, SchemaError>)
  {
    var t := Lower(Strip(v));
    if t in PLACE_TYPES then Ok(t) else Err(InvalidPlaceType(t))
  }

  /** Accepted exactly when the stripped, lower-cased value is a place type,
      and then that value is the result. */
  lemma ValidatePlaceTypeCases(v: string)
    ensures ValidatePlaceType(v).Ok? <==> Lower(Strip(v)) in PLACE_TYPES
    ensures ValidatePlaceType(v).Ok? ==> ValidatePlaceType(v).value == Lower(Strip(v))
  {
  }

  /** An accepted value is accepted again unchanged. */
  lemma ValidatePlaceTypeStable(v: string)
    requires ValidatePlaceType(v).Ok?
    ensures ValidatePlaceType(ValidatePlaceType(v).value) == ValidatePlaceType(v)
  {
    var t := Lower(Strip(v));
    assert t in PLACE_TYPES;
    PlaceTypesTrimmed(t);
    StripTrimmed(t);
    LowerIdempotent(Strip(v));
  }

  lemma PlaceTypesTrimmed(t: string)
    requires t in PLACE_TYPES
    ensures Trimmed(t)
  {
    if t == "hotel" {
      assert t[0] == 'h' && t[|t| - 1] == 'l';
    } else if t == "attraction" {
      assert t[0] == 'a' && t[|t| - 1] == 'n';
    } else {
      assert t[0] == 'r' && t[|t| - 1] == 't';
    }
  }

  /** A place: the name is normalised and never rejected; the type is
      validated. */
  function ParsePlace(raw: RawPlace): (r: Result<PlaceInput, seq<SchemaError>>)
  {
    match ValidatePlaceType(raw.placeType)
    case Ok(t) => Ok(PlaceInput(NormalizeSpaces(raw.name), t))
    case Err(e) => Err([e])
  }

  // ---------------------------------------------------------------- DayInput

  /** `validate_place_count`. */
  function ValidatePlaceCount(places: seq<PlaceInput>): (r: Result<seq<PlaceInput>, SchemaError>)
  {
    if |places| > MAX_PLACES_PER_DAY then Err(TooManyPlaces(|places|)) else Ok(places)
  }

  /** `normalize_location`: None passes through, text is normalised as a
      name is. */
  function NormalizeLocation(v: Option<string>): (r: Option<string>)
  {
    match v
    case None => None
    case Some(s) => Some(NormalizeSpaces(s))
  }

  lemma NormalizeLocationCases(v: Option<string>)
    ensures v.None? <==> NormalizeLocation(v).None?
    ensures v.Some? ==> Collapsed(NormalizeLocation(v).value)
  {
    if v.Some? {
      NormalizeSpacesCollapsed(v.value);
    }
  }

  /** A list field parsed item by item: the parsed items when all parse,
      otherwise the errors of all items, in order. */
  function ParseEach<R, T>(parse: R -> Result<T, seq<SchemaError>>, raws: seq<R>): (r: Result<seq<T>, seq<SchemaError>>)
    ensures r.Ok? ==> |r.value| == |raws|
    decreases |raws|
  {
    if raws == [] then Ok([])
    else
      var first := parse(raws[0]);
      var rest := ParseEach(parse, raws[1..]);
      if first.Ok? && rest.Ok? then Ok([first.value] + rest.value)
      else Err((if first.Err? then first.error else []) + (if rest.Err? then rest.error else []))
  }

  /** The list parses exactly when every item does, and item i of the
      result is item i parsed. */
  lemma {:induction false} ParseEachItems<R, T>(parse: R -> Result<T, seq<SchemaError>>, raws: seq<R>)
    ensures ParseEach(parse, raws).Ok? <==> forall i :: 0 <= i < |raws| ==> parse(raws[i]).Ok?
    ensures ParseEach(parse, raws).Ok? ==>
      forall i :: 0 <= i < |raws| ==> ParseEach(parse, raws).value[i] == parse(raws[i]).value
    decreases |raws|
  {
    if raws != [] {
      ParseEachItems(parse, raws[1..]);
      if ParseEach(parse, raws).Ok? {
        forall i | 0 <= i < |raws|
          ensures ParseEach(parse, raws).value[i] == parse(raws[i]).value
        {
          if i > 0 {
            assert raws[1..][i - 1] == raws[i];
          }
        }
      } else if parse(raws[0]).Ok? {
        var i :| 0 <= i < |raws[1..]| && !parse(raws[1..][i]).Ok?;
        assert raws[1..][i] == raws[i + 1];
      }
    }
  }

  /** A day: locations normalised; places parsed item by item, then
      counted. */
  function ParseDay(raw: RawDay): (r: Result<DayInput, seq<SchemaError>>)
  {
    match ParseEach(ParsePlace, raw.places)
    case Err(es) => Err(es)
    case Ok(places) =>
      match ValidatePlaceCount(places)
      case Err(e) => Err([e])
      case Ok(ps) => Ok(DayInput(raw.dayNumber, NormalizeLocation(raw.startLocation), NormalizeLocation(raw.endLocation), ps))
  }

  // -------------------------------------------------------- TripCreateRequest

  /** `validate_title`: stripped, and rejected when nothing is left. */
  function ValidateTitle(v: string): (r: Result<string, SchemaError>)
  {
    var t := Strip(v);
    if t == "" then Err(EmptyTitle) else Ok(t)
  }

  lemma ValidateTitleCases(v: string)
    ensures ValidateTitle(v).Ok? <==> Strip(v) != ""
    ensures ValidateTitle(v).Ok? ==> ValidateTitle(v).value == Strip(v) && Trimmed(ValidateTitle(v).value)
  {
  }

  /** No day number occurs twice: `len(numbers) == len(set(numbers))`. */
  predicate UniqueNumbers(ds: seq<DayInput>)
  {
    forall i, j :: 0 <= i < j < |ds| ==> ds[i].dayNumber != ds[j].dayNumber
  }

  predicate SortedByDay(ds: seq<DayInput>)
  {
    forall i, j :: 0 <= i < j < |ds| ==> ds[i].dayNumber <= ds[j].dayNumber
  }

  /** Insert `d` before the first day with a number at least its own. */
  function InsertByDay(d: DayInput, ds: seq<DayInput>): (r: seq<DayInput>)
    ensures multiset(r) == multiset(ds) + multiset{d}
  {
    if ds == [] || d.dayNumber <= ds[0].dayNumber then [d] + ds
    else
      assert ds == [ds[0]] + ds[1..];
      [ds[0]] + InsertByDay(d, ds[1..])
  }

  /** The inserted list holds the new day and the old ones, and nothing else. */
  lemma InsertByDayMembers(d: DayInput, ds: seq<DayInput>)
    ensures forall x :: x in InsertByDay(d, ds) <==> x == d || x in ds
  {
    var r := InsertByDay(d, ds);
    forall x
      ensures x in r <==> x == d || x in ds
    {
      assert x in r <==> x in multiset(r);
      assert x in ds <==> x in multiset(ds);
    }
  }

  /** A day no later than every day of a sorted list may head it. */
  lemma SortedCons(h: DayInput, t: seq<DayInput>)
    requires SortedByDay(t)
    requires forall x :: x in t ==> h.dayNumber <= x.dayNumber
    ensures SortedByDay([h] + t)
  {
    forall i, j | 0 <= i < j < |[h] + t|
      ensures ([h] + t)[i].dayNumber <= ([h] + t)[j].dayNumber
    {
      assert ([h] + t)[j] == t[j - 1];
      if i > 0 {
        assert ([h] + t)[i] == t[i - 1];
      } else {
        assert t[j - 1] in t;
      }
    }
  }

  /** A day whose number no day of a list carries may head it. */
  lemma UniqueCons(h: DayInput, t: seq<DayInput>)
    requires UniqueNumbers(t)
    requires forall x :: x in t ==> h.dayNumber != x.dayNumber
    ensures UniqueNumbers([h] + t)
  {
    forall i, j | 0 <= i < j < |[h] + t|
      ensures ([h] + t)[i].dayNumber != ([h] + t)[j].dayNumber
    {
      assert ([h] + t)[j] == t[j - 1];
      if i > 0 {
        assert ([h] + t)[i] == t[i - 1];
      } else {
        assert t[j - 1] in t;
      }
    }
  }

  lemma {:induction false} InsertByDaySorted(d: DayInput, ds: seq<DayInput>)
    requires SortedByDay(ds)
    ensures SortedByDay(InsertByDay(d, ds))
  {
    if ds == [] || d.dayNumber <= ds[0].dayNumber {
      forall x | x in ds
        ensures d.dayNumber <= x.dayNumber
      {
        var k :| 0 <= k < |ds| && ds[k] == x;
        assert k == 0 || ds[0].dayNumber <= ds[k].dayNumber;
      }
      SortedCons(d, ds);
    } else {
      var t := ds[1..];
      assert SortedByDay(t);
      InsertByDaySorted(d, t);
      InsertByDayMembers(d, t);
      forall x | x in InsertByDay(d, t)
        ensures ds[0].dayNumber <= x.dayNumber
      {
        if x != d {
          var k :| 0 <= k < |t| && t[k] == x;
          assert ds[k + 1] == x;
        }
      }
      SortedCons(ds[0], InsertByDay(d, t));
    }
  }

  /** Inserting a day whose number is new keeps the numbers unique. */
  lemma {:induction false} InsertByDayUnique(d: DayInput, ds: seq<DayInput>)
    requires UniqueNumbers(ds)
    requires forall x :: x in ds ==> x.dayNumber != d.dayNumber
    ensures UniqueNumbers(InsertByDay(d, ds))
  {
    if ds == [] || d.dayNumber <= ds[0].dayNumber {
      UniqueCons(d, ds);
    } else {
      var t := ds[1..];
      assert UniqueNumbers(t);
      assert forall x :: x in t ==> x in ds;
      InsertByDayUnique(d, t);
      InsertByDayMembers(d, t);
      forall x | x in InsertByDay(d, t)
        ensures ds[0].dayNumber != x.dayNumber
      {
        if x != d {
          var k :| 0 <= k < |t| && t[k] == x;
          assert ds[k + 1] == x;
        } else {
          assert ds[0] in ds;
        }
      }
      UniqueCons(ds[0], InsertByDay(d, t));
    }
  }

  /** `sorted(days, key=lambda d: d.day_number)`. */
  function SortByDay(ds: seq<DayInput>): (r: seq<DayInput>)
    ensures multiset(r) == multiset(ds)
  {
    if ds == [] then []
    else
      assert ds == [ds[0]] + ds[1..];
      InsertByDay(ds[0], SortByDay(ds[1..]))
  }

  /** The sort orders by day number, and keeps unique numbers unique. */
  lemma {:induction false} SortByDayOrders(ds: seq<DayInput>)
    ensures SortedByDay(SortByDay(ds))
    ensures UniqueNumbers(ds) ==> UniqueNumbers(SortByDay(ds))
  {
    if ds != [] {
      var rest := SortByDay(ds[1..]);
      SortByDayOrders(ds[1..]);
      InsertByDaySorted(ds[0], rest);
      if UniqueNumbers(ds) {
        assert UniqueNumbers(ds[1..]);
        forall x | x in rest
          ensures x.dayNumber != ds[0].dayNumber
        {
          assert x in multiset(rest);
          var k :| 0 <= k < |ds[1..]| && ds[1..][k] == x;
          assert ds[k + 1] == x;
        }
        InsertByDayUnique(ds[0], rest);
      }
    }
  }

  /** `validate_days`: rejected when empty or when a number repeats;
      otherwise the same days ordered by day number. */
  function ValidateDays(ds: seq<DayInput>): (r: Result<seq<DayInput>, SchemaError>)
  {
    if ds == [] then Err(NoDays)
    else if !UniqueNumbers(ds) then Err(DuplicateDayNumbers)
    else Ok(SortByDay(ds))
  }

  /** Accepted exactly for a non-empty list with unique numbers; the result
      is a permutation of the input in strictly ascending day order. */
  lemma ValidateDaysCases(ds: seq<DayInput>)
    ensures ValidateDays(ds).Ok? <==> ds != [] && UniqueNumbers(ds)
    ensures ds == [] ==> ValidateDays(ds) == Err(NoDays)
    ensures ds != [] && !UniqueNumbers(ds) ==> ValidateDays(ds) == Err(DuplicateDayNumbers)
    ensures ValidateDays(ds).Ok? ==>
      var r := ValidateDays(ds).value;
      && multiset(r) == multiset(ds)
      && forall i, j :: 0 <= i < j < |r| ==> r[i].dayNumber < r[j].dayNumber
  {
    SortByDayOrders(ds);
  }

  /** The whole request: the title's error and the days' errors, in field
      order; the day list validator runs only when every day parsed. */
  function ParseTrip(raw: RawTrip): (r: Result<TripCreateRequest, seq<SchemaError>>)
  {
    var title := ValidateTitle(raw.title);
    var days := match ParseEach(ParseDay, raw.days)
      case Err(es) => Err(es)
      case Ok(ds) =>
        match ValidateDays(ds)
        case Err(e) => Err([e])
        case Ok(sorted) => Ok(sorted);
    if title.Ok? && days.Ok? then Ok(TripCreateRequest(title.value, raw.startDate, raw.endDate, days.value))
    else Err((if title.Err? then [title.error] else []) + (if days.Err? then days.error else []))
  }

  /** A day is accepted exactly when it has at most five places and each
      has a valid type. */
  lemma ParseDayCases(raw: RawDay)
    ensures ParseDay(raw).Ok? <==>
      |raw.places| <= MAX_PLACES_PER_DAY && forall i :: 0 <= i < |raw.places| ==> ParsePlace(raw.places[i]).Ok?
  {
    ParseEachItems(ParsePlace, raw.places);
  }

  /** The request is accepted exactly when the stripped title is not empty,
      there is at least one day, no day number repeats, no day has more
      than five places and every place type is valid. The accepted days
      are the parsed days in strictly ascending day order. */
  lemma ParseTripAccepts(raw: RawTrip)
    ensures ParseTrip(raw).Ok? <==>
      && Strip(raw.title) != ""
      && raw.days != []
      && (forall i :: 0 <= i < |raw.days| ==> ParseDay(raw.days[i]).Ok?)
      && (forall i, j :: 0 <= i < j < |raw.days| ==> raw.days[i].dayNumber != raw.days[j].dayNumber)
    ensures ParseTrip(raw).Ok? ==>
      var days := ParseTrip(raw).value.days;
      && multiset(days) == multiset(ParseEach(ParseDay, raw.days).value)
      && forall i, j :: 0 <= i < j < |days| ==> days[i].dayNumber < days[j].dayNumber
  {
    ParseTripStages(raw);
    ValidateTitleCases(raw.title);
    ParseEachItems(ParseDay, raw.days);
    var parsed := ParseEach(ParseDay, raw.days);
    if parsed.Ok? {
      ParsedNumbers(raw.days, parsed.value);
      ValidateDaysCases(parsed.value);
    }
  }

  /** Parsed days keep their numbers, so they repeat a number exactly when
      the raw days do. */
  lemma ParsedNumbers(raws: seq<RawDay>, ds: seq<DayInput>)
    requires |ds| == |raws|
    requires forall i :: 0 <= i < |raws| ==> ParseDay(raws[i]).Ok? && ds[i] == ParseDay(raws[i]).value
    ensures UniqueNumbers(ds) <==> forall i, j :: 0 <= i < j < |raws| ==> raws[i].dayNumber != raws[j].dayNumber
  {
    forall i | 0 <= i < |raws|
      ensures ds[i].dayNumber == raws[i].dayNumber
    {
      ParseDayNumber(raws[i]);
    }
  }

  /** A parsed day keeps its number. */
  lemma ParseDayNumber(raw: RawDay)
    requires ParseDay(raw).Ok?
    ensures ParseDay(raw).value.dayNumber == raw.dayNumber
  {
  }

  /** The request passes when the title, every day and the day list pass,
      and then carries the validated day list. */
  lemma ParseTripStages(raw: RawTrip)
    ensures var parsed := ParseEach(ParseDay, raw.days);
      && (ParseTrip(raw).Ok? <==> ValidateTitle(raw.title).Ok? && parsed.Ok? && ValidateDays(parsed.value).Ok?)
      && (ParseTrip(raw).Ok? ==> ParseTrip(raw).value.days == ValidateDays(parsed.value).value)
  {
  }

  /** Every accepted name is collapsed and every accepted place type is
      one of the three. */
  lemma ParsePlaceNormalised(raw: RawPlace)
    requires ParsePlace(raw).Ok?
    ensures Collapsed(ParsePlace(raw).value.name)
    ensures ParsePlace(raw).value.placeType in PLACE_TYPES
  {
    var t := Lower(Strip(raw.placeType));
    assert ValidatePlaceType(raw.placeType) == Ok(t);
    assert ParsePlace(raw).value == PlaceInput(NormalizeSpaces(raw.name), t);
    NormalizeSpacesCollapsed(raw.name);
  }
}
