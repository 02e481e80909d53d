/** Place descriptions and images from Wikipedia and Wikimedia Commons
    (`enrichment.py`). The HTTP client is an oracle from the call made and its
    number within the run to the decoded reply; every function returns the
    calls it made, in order. */
module Enrichment {
  import opened Common
  import opened Text
  import opened Models

  const MAX_DESCRIPTION_WORDS: nat := 150
  const WIKI_PAGE_URL: string := "https://en.wikipedia.org/wiki/"
  const IMAGE_ATTRIBUTION: string := "CC BY-SA 3.0, Wikimedia Commons"
  const NO_DESCRIPTION: string := "No description available."

  // ------------------------------------------------------------ truncation

  /** `_truncate_to_words`: the text itself when it has at most `maxWords`
      words, otherwise its first `maxWords` words joined by single spaces
      followed by "...". */
  function TruncateToWords(text: string, maxWords: nat): (r: string)
    ensures |Words(text)| <= maxWords ==> r == text
    ensures |Words(text)| > maxWords ==> r == Join(Words(text)[..maxWords], " ") + "..."
  {
    var words := Words(text);
    if |words| <= maxWords then text else Join(words[..maxWords], " ") + "..."
  }

  /** A truncated text ends in "..." and what comes before it splits back
      into exactly the first `maxWords` words of the original. */
  lemma TruncateKeepsFirstWords(text: string, maxWords: nat)
    requires |Words(text)| > maxWords
    ensures var r := TruncateToWords(text, maxWords);
      |r| >= 3 && r[|r| - 3..] == "..." && Words(r[..|r| - 3]) == Words(text)[..maxWords]
  {
    var ws := Words(text)[..maxWords];
    WordsAreWords(text);
    assert AllWords(ws);
    WordsOfJoin(ws);
    var r := TruncateToWords(text, maxWords);
    assert r[..|r| - 3] == Join(ws, " ");
  }

  // ------------------------------------------------------- client and replies

  /** The three kinds of request the module sends to the Wikipedia API. */
  datatype WikiCall = SearchCall(query: string) | ExtractCall(title: string) | ImageCall(title: string)

  /** One entry of `query.pages`; an absent key is None. */
  datatype Page = Page(id: string, title: Option<string>, extract: Option<string>, thumbnailSource: Option<string>)

  /** A decoded reply: the client raised (network error, HTTP error status,
      undecodable body); an opensearch array, whose element 1 is the list
      of titles; or the `query.pages` entries in the order the dictionary
      lists them (empty when `query` or `pages` is absent). */
  datatype WikiReply =
    | Failed
    | OpenSearch(data: seq<seq<string>>)
    | Pages(pages: seq<Page>)

  /** The client: the reply to a call, given the call and the number of calls
      made before it in the same run. The same call made twice can therefore
      get two different replies. */
  type Wiki = (WikiCall, nat) -> WikiReply

  /** A value together with the calls made to compute it; a function started
      at call number `at` makes its k-th call as call number `at + k`. */
  datatype Outcome<T> = Outcome(value: Option<T>, calls: seq<WikiCall>)

  /** The summary a page yields. */
  datatype Summary = Summary(description: string, wikipediaUrl: string)

  /** The image a page yields. */
  datatype Image = Image(imageUrl: string, imageAttribution: string)

  // -------------------------------------------------------------- search

  /** `_search_wikipedia_title`: the first title of an opensearch answer
      with at least two elements and a non-empty title list; None on a
      failure or any other reply. */
  function SearchTitle(name: string, wiki: Wiki, at: nat): (o: Outcome<string>)
    ensures o.calls == [SearchCall(name)]
  {
    var reply := wiki(SearchCall(name), at);
    var title := if reply.OpenSearch? && |reply.data| >= 2 && |reply.data[1]| > 0 then Some(reply.data[1][0]) else None;
    Outcome(title, [SearchCall(name)])
  }

  lemma SearchTitleCases(name: string, wiki: Wiki, at: nat)
    ensures var reply := wiki(SearchCall(name), at);
      var title := SearchTitle(name, wiki, at).value;
      && (reply.Failed? ==> title == None)
      && (title.Some? <==> reply.OpenSearch? && |reply.data| >= 2 && reply.data[1] != [])
      && (title.Some? ==> title.value == reply.data[1][0])
  {
  }

  // ------------------------------------------------------------- extracts

  /** The article URL of a title: the page prefix followed by the title with
      every space turned into an underscore and every other character kept. */
  function ArticleUrl(title: string): (url: string)
    ensures |url| == |WIKI_PAGE_URL| + |title| && url[..|WIKI_PAGE_URL|] == WIKI_PAGE_URL
    ensures forall i :: 0 <= i < |title| ==> url[|WIKI_PAGE_URL| + i] == (if title[i] == ' ' then '_' else title[i])
    ensures ' ' !in url
  {
    var path := ReplaceChar(title, ' ', '_');
    var url := WIKI_PAGE_URL + path;
    assert forall i :: |WIKI_PAGE_URL| <= i < |url| ==> url[i] == path[i - |WIKI_PAGE_URL|];
    url
  }

  /** A title without spaces is appended to the prefix unchanged. */
  lemma ArticleUrlSpaceFree(title: string)
    requires ' ' !in title
    ensures ArticleUrl(title) == WIKI_PAGE_URL + title
  {
    var url := ArticleUrl(title);
    assert url[|WIKI_PAGE_URL|..] == title;
    assert url == url[..|WIKI_PAGE_URL|] + url[|WIKI_PAGE_URL|..];
  }

  /** The parsing half of `_fetch_extract`. Only the first listed page is
      looked at. */
  function ParseExtract(title: string, reply: WikiReply): Option<Summary>
  {
    if !reply.Pages? || reply.pages == [] then None
    else
      var page := reply.pages[0];
      if page.id == "-1" || !Truthy(page.extract) then None
      else
        var canonical := if page.title.Some? then page.title.value else title;
        Some(Summary(TruncateToWords(page.extract.value, MAX_DESCRIPTION_WORDS), ArticleUrl(canonical)))
  }

  /** `_fetch_extract`. */
  function FetchExtract(title: string, wiki: Wiki, at: nat): (o: Outcome<Summary>)
    ensures o.calls == [ExtractCall(title)]
  {
    Outcome(ParseExtract(title, wiki(ExtractCall(title), at)), [ExtractCall(title)])
  }

  /** A failure, no page, the missing-page id "-1" or an empty extract give
      None; otherwise the description is the extract cut to 150 words and
      the URL names the canonical title, or the requested one when the
      page has none. */
  lemma FetchExtractCases(title: string, wiki: Wiki, at: nat)
    ensures var reply := wiki(ExtractCall(title), at);
      var s := FetchExtract(title, wiki, at).value;
      && (s.Some? <==> reply.Pages? && reply.pages != [] && reply.pages[0].id != "-1" && Truthy(reply.pages[0].extract))
      && (s.Some? ==>
            var page := reply.pages[0];
            && s.value.description == TruncateToWords(page.extract.value, MAX_DESCRIPTION_WORDS)
            && s.value.wikipediaUrl == ArticleUrl(if page.title.Some? then page.title.value else title))
  {
  }

  /** A description has at most 150 words before its "...". */
  lemma DescriptionBounded(title: string, wiki: Wiki, at: nat)
    requires FetchExtract(title, wiki, at).value.Some?
    ensures var d := FetchExtract(title, wiki, at).value.value.description;
      var extract := wiki(ExtractCall(title), at).pages[0].extract.value;
      || (d == extract && |Words(extract)| <= MAX_DESCRIPTION_WORDS)
      || (|d| >= 3 && Words(d[..|d| - 3]) == Words(extract)[..MAX_DESCRIPTION_WORDS])
  {
    var extract := wiki(ExtractCall(title), at).pages[0].extract.value;
    if |Words(extract)| > MAX_DESCRIPTION_WORDS {
      TruncateKeepsFirstWords(extract, MAX_DESCRIPTION_WORDS);
    }
  }

  /** `get_wikipedia_summary`: the exact title first; when that yields
      nothing, the search result, but only a non-empty title different
      from the name. */
  function WikipediaSummary(name: string, wiki: Wiki, at: nat): Outcome<Summary>
  {
    var exact := FetchExtract(name, wiki, at);
    if exact.value.Some? then exact
    else
      var search := SearchTitle(name, wiki, at + 1);
      if Truthy(search.value) && search.value.value != name then
        var second := FetchExtract(search.value.value, wiki, at + 2);
        Outcome(second.value, exact.calls + search.calls + second.calls)
      else Outcome(None, exact.calls + search.calls)
  }

  /** The fallback chain: one call when the exact title has an extract;
      otherwise a search, then the found title's extract only when the
      search gave a different, non-empty title. */
  lemma WikipediaSummaryCalls(name: string, wiki: Wiki, at: nat)
    ensures var o := WikipediaSummary(name, wiki, at);
      var found := SearchTitle(name, wiki, at + 1).value;
      && (FetchExtract(name, wiki, at).value.Some? ==> o == FetchExtract(name, wiki, at))
      && (FetchExtract(name, wiki, at).value.None? && Truthy(found) && found.value != name ==>
            o == Outcome(FetchExtract(found.value, wiki, at + 2).value, [ExtractCall(name), SearchCall(name), ExtractCall(found.value)]))
      && (FetchExtract(name, wiki, at).value.None? && !(Truthy(found) && found.value != name) ==>
            o == Outcome(None, [ExtractCall(name), SearchCall(name)]))
  {
  }

  /** Every summary returned is the extract of the name itself or of the
      title the search suggested; a client failing from call `at` on gives
      None. */
  lemma WikipediaSummarySource(name: string, wiki: Wiki, at: nat)
    ensures var o := WikipediaSummary(name, wiki, at);
      var found := SearchTitle(name, wiki, at + 1).value;
      o.value.Some? ==>
        || o.value == FetchExtract(name, wiki, at).value
        || (found.Some? && o.value == FetchExtract(found.value, wiki, at + 2).value)
    ensures (forall c, i :: at <= i ==> wiki(c, i) == Failed) ==> WikipediaSummary(name, wiki, at).value == None
  {
  }

  // --------------------------------------------------------------- images

  /** The parsing half of `_fetch_page_image`. */
  function ParseImage(reply: WikiReply): Option<Image>
  {
    if !reply.Pages? || reply.pages == [] then None
    else
      var page := reply.pages[0];
      if page.id == "-1" || !Truthy(page.thumbnailSource) then None
      else Some(Image(page.thumbnailSource.value, IMAGE_ATTRIBUTION))
  }

  /** `_fetch_page_image`. */
  function FetchPageImage(title: string, wiki: Wiki, at: nat): (o: Outcome<Image>)
    ensures o.calls == [ImageCall(title)]
  {
    Outcome(ParseImage(wiki(ImageCall(title), at)), [ImageCall(title)])
  }

  /** An image is given exactly when the first page is real and has a
      thumbnail source; its URL is that source and its attribution is
      always the Commons licence. */
  lemma FetchPageImageCases(title: string, wiki: Wiki, at: nat)
    ensures var reply := wiki(ImageCall(title), at);
      var i := FetchPageImage(title, wiki, at).value;
      && (i.Some? <==> reply.Pages? && reply.pages != [] && reply.pages[0].id != "-1" && Truthy(reply.pages[0].thumbnailSource))
      && (i.Some? ==> i.value == Image(reply.pages[0].thumbnailSource.value, IMAGE_ATTRIBUTION))
  {
  }

  /** `get_wikimedia_image`: the exact title, then the search result when
      it is a non-empty title different from the name. */
  function WikimediaImage(name: string, wiki: Wiki, at: nat): Outcome<Image>
  {
    var exact := FetchPageImage(name, wiki, at);
    if exact.value.Some? then exact
    else
      var search := SearchTitle(name, wiki, at + 1);
      if Truthy(search.value) && search.value.value != name then
        var second := FetchPageImage(search.value.value, wiki, at + 2);
        Outcome(second.value, exact.calls + search.calls + second.calls)
      else Outcome(None, exact.calls + search.calls)
  }

  lemma WikimediaImageCalls(name: string, wiki: Wiki, at: nat)
    ensures var o := WikimediaImage(name, wiki, at);
      var found := SearchTitle(name, wiki, at + 1).value;
      && (FetchPageImage(name, wiki, at).value.Some? ==> o == FetchPageImage(name, wiki, at))
      && (FetchPageImage(name, wiki, at).value.None? && Truthy(found) && found.value != name ==>
            o == Outcome(FetchPageImage(found.value, wiki, at + 2).value, [ImageCall(name), SearchCall(name), ImageCall(found.value)]))
      && (FetchPageImage(name, wiki, at).value.None? && !(Truthy(found) && found.value != name) ==>
            o == Outcome(None, [ImageCall(name), SearchCall(name)]))
  {
  }

  /** Every image carries the Commons attribution, and a client failing
      from call `at` on gives no image. */
  lemma WikimediaImageAttribution(name: string, wiki: Wiki, at: nat)
    ensures WikimediaImage(name, wiki, at).value.Some? ==> WikimediaImage(name, wiki, at).value.value.imageAttribution == IMAGE_ATTRIBUTION
    ensures (forall c, i :: at <= i ==> wiki(c, i) == Failed) ==> WikimediaImage(name, wiki, at).value == None
  {
  }

  // ------------------------------------------------------------ enrich_trip

  /** The record a place starts from before its lookups. */
  const DEFAULT_RECORD: PlaceInfo := PlaceInfo(NO_DESCRIPTION, None, None, None)

  /** One visit of enrich_trip's place loop: the record built and the calls
      made, the summary's before the image's. */
  datatype Visit = Visit(info: PlaceInfo, calls: seq<WikiCall>)

  /** The visit of a place named `name`, its first call being call number
      `at`: two calls when both exact titles answer, at most six, and the
      first always asks for the name's own extract. */
  function PlaceVisit(name: string, wiki: Wiki, at: nat): (v: Visit)
    ensures 2 <= |v.calls| <= 6 && v.calls[0] == ExtractCall(name)
  {
    var summary := WikipediaSummary(name, wiki, at);
    var image := WikimediaImage(name, wiki, at + |summary.calls|);
    var s := summary.value;
    var i := image.value;
    Visit(
      PlaceInfo(
        if s.Some? then s.value.description else NO_DESCRIPTION,
        if i.Some? then Some(i.value.imageUrl) else None,
        if i.Some? then Some(i.value.imageAttribution) else None,
        if s.Some? then Some(s.value.wikipediaUrl) else None),
      summary.calls + image.calls)
  }

  /** Description and URL come from the summary and fall back to the
      defaults together; image URL and attribution come from the image,
      looked up once the summary's calls are made, and are both None
      without one. */
  lemma PlaceVisitFields(name: string, wiki: Wiki, at: nat)
    ensures var r := PlaceVisit(name, wiki, at).info;
      var summary := WikipediaSummary(name, wiki, at);
      var image := WikimediaImage(name, wiki, at + |summary.calls|).value;
      && (summary.value.None? ==> r.description == NO_DESCRIPTION && r.wikipediaUrl == None)
      && (summary.value.Some? ==> r.description == summary.value.value.description && r.wikipediaUrl == Some(summary.value.value.wikipediaUrl))
      && (image.None? ==> r.imageUrl == None && r.imageAttribution == None)
      && (image.Some? ==> r.imageUrl == Some(image.value.imageUrl) && r.imageAttribution == Some(IMAGE_ATTRIBUTION))
  {
    WikimediaImageAttribution(name, wiki, at + |WikipediaSummary(name, wiki, at).calls|);
  }

  /** A client failing from call `at` on leaves the defaults. */
  lemma PlaceVisitFailing(name: string, wiki: Wiki, at: nat)
    requires forall c, i :: at <= i ==> wiki(c, i) == Failed
    ensures PlaceVisit(name, wiki, at).info == DEFAULT_RECORD
  {
    WikipediaSummarySource(name, wiki, at);
    WikimediaImageAttribution(name, wiki, at + |WikipediaSummary(name, wiki, at).calls|);
  }

  /** The names of a day's places, in order. */
  function Names(places: seq<Place>): (ns: seq<string>)
    ensures |ns| == |places|
  {
    seq(|places|, k requires 0 <= k < |places| => places[k].name)
  }

  /** The place names enrich_trip visits, day after day, one entry per
      occurrence: a name on two days occurs twice. */
  function Occurrences(days: seq<Day>): seq<string>
    decreases |days|
  {
    if days == [] then [] else Occurrences(days[..|days| - 1]) + Names(days[|days| - 1].places)
  }

  /** How a place name is visited, given the number of the first call. */
  type Visitor = (string, nat) -> Visit

  /** The visits enrich_trip makes with the client `wiki`. */
  function Visits(wiki: Wiki): Visitor
  {
    (name: string, at: nat) => PlaceVisit(name, wiki, at)
  }

  /** The records built for a sequence of place visits and all calls made,
      each visit starting where the ones before it left off. */
  datatype EnrichRun = EnrichRun(records: seq<PlaceInfo>, calls: seq<WikiCall>)

  function RunOf(names: seq<string>, visit: Visitor): (r: EnrichRun)
    ensures |r.records| == |names|
    decreases |names|
  {
    if names == [] then EnrichRun([], [])
    else
      var prev := RunOf(names[..|names| - 1], visit);
      var v := visit(names[|names| - 1], |prev.calls|);
      EnrichRun(prev.records + [v.info], prev.calls + v.calls)
  }

  /** The table enrich_trip returns: `places_data[name] = record` for every
      occurrence, in order. */
  function EnrichedTable(days: seq<Day>, wiki: Wiki): map<string, PlaceInfo>
  {
    Assoc(map[], Occurrences(days), RunOf(Occurrences(days), Visits(wiki)).records)
  }

  /** Record k is the visit of name k, started at the call number the first
      k visits left off at. */
  lemma {:induction false} RunOfAt(names: seq<string>, visit: Visitor, k: nat)
    requires k < |names|
    ensures RunOf(names, visit).records[k] == visit(names[k], |RunOf(names[..k], visit).calls|).info
    decreases |names|
  {
    var n := |names| - 1;
    if k < n {
      RunOfAt(names[..n], visit, k);
      assert names[..n][..k] == names[..k];
    } else {
      assert names[..k] == names[..n];
    }
  }

  /** The names of all places of the given days. */
  function PlaceNames(days: seq<Day>): set<string>
  {
    set d, p | d in days && p in d.places :: p.name
  }

  /** The names of one day's places. */
  function DayNames(places: seq<Place>): set<string>
  {
    set p | p in places :: p.name
  }

  lemma PlaceNamesSnoc(days: seq<Day>, i: nat)
    requires i < |days|
    ensures PlaceNames(days[..i + 1]) == PlaceNames(days[..i]) + DayNames(days[i].places)
  {
    forall n | n in PlaceNames(days[..i + 1])
      ensures n in PlaceNames(days[..i]) + DayNames(days[i].places)
    {
      var d, p :| d in days[..i + 1] && p in d.places && p.name == n;
      var m :| 0 <= m < i + 1 && days[..i + 1][m] == d;
      if m < i {
        assert d in days[..i];
      }
    }
    assert days[..i + 1][i] == days[i];
  }

  lemma NamesSet(places: seq<Place>)
    ensures (set n | n in Names(places)) == DayNames(places)
  {
    forall n | n in Names(places)
      ensures n in DayNames(places)
    {
      var k :| 0 <= k < |places| && Names(places)[k] == n;
      assert places[k] in places;
    }
    forall p | p in places
      ensures p.name in Names(places)
    {
      var k :| 0 <= k < |places| && places[k] == p;
      assert Names(places)[k] == p.name;
    }
  }

  /** Every occurrence is a place name of the trip, and every place name
      occurs. */
  lemma {:induction false} OccurrencesNames(days: seq<Day>)
    ensures (set n | n in Occurrences(days)) == PlaceNames(days)
    decreases |days|
  {
    if days != [] {
      var i := |days| - 1;
      OccurrencesNames(days[..i]);
      PlaceNamesSnoc(days, i);
      NamesSet(days[i].places);
      assert days[..i + 1] == days;
    }
  }

  /** The table's keys are exactly the trip's place names. */
  lemma EnrichedTableKeys(days: seq<Day>, wiki: Wiki)
    ensures EnrichedTable(days, wiki).Keys == PlaceNames(days)
  {
    AssocKeys(map[], Occurrences(days), RunOf(Occurrences(days), Visits(wiki)).records);
    OccurrencesNames(days);
  }

  /** A name stores the record of its LAST occurrence, built by its own
      lookups at the call number where the earlier visits left off; records
      of earlier occurrences of the name are overwritten. */
  lemma EnrichedTableLastWins(days: seq<Day>, wiki: Wiki, k: nat)
    requires k < |Occurrences(days)|
    requires Occurrences(days)[k] !in Occurrences(days)[k + 1..]
    ensures var names := Occurrences(days);
      && names[k] in EnrichedTable(days, wiki)
      && EnrichedTable(days, wiki)[names[k]] == PlaceVisit(names[k], wiki, |RunOf(names[..k], Visits(wiki)).calls|).info
  {
    var names := Occurrences(days);
    AssocLastWins(map[], names, RunOf(names, Visits(wiki)).records, k);
    RunOfAt(names, Visits(wiki), k);
  }

  /** A name whose last visit meets a failing client keeps the defaults,
      whatever an earlier visit of the same name found. */
  lemma LaterFailureOverwrites(days: seq<Day>, wiki: Wiki, k: nat)
    requires k < |Occurrences(days)|
    requires Occurrences(days)[k] !in Occurrences(days)[k + 1..]
    requires forall c, i :: |RunOf(Occurrences(days)[..k], Visits(wiki)).calls| <= i ==> wiki(c, i) == Failed
    ensures Occurrences(days)[k] in EnrichedTable(days, wiki)
    ensures EnrichedTable(days, wiki)[Occurrences(days)[k]] == DEFAULT_RECORD
  {
    var names := Occurrences(days);
    EnrichedTableLastWins(days, wiki, k);
    PlaceVisitFailing(names[k], wiki, |RunOf(names[..k], Visits(wiki)).calls|);
  }

  /** `enrich_trip`: visits every place of every day in order, numbering the
      calls as it goes, and stores each record under the place's name. */
  method EnrichTrip(days: seq<Day>, wiki: Wiki) returns (placesData: map<string, PlaceInfo>)
    ensures placesData == EnrichedTable(days, wiki)
  {
    placesData := map[];
    var made: nat := 0;
    for i := 0 to |days|
      invariant placesData == Assoc(map[], Occurrences(days[..i]), RunOf(Occurrences(days[..i]), Visits(wiki)).records)
      invariant made == |RunOf(Occurrences(days[..i]), Visits(wiki)).calls|
    {
      assert Occurrences(days[..i + 1]) == Occurrences(days[..i]) + Names(days[i].places) by {
        assert days[..i + 1][..i] == days[..i];
      }
      placesData, made := EnrichDay(placesData, made, days[i].places, wiki, Occurrences(days[..i]));
    }
    assert days[..|days|] == days;
  }

  /** One more visit extends the run and the table by its record. */
  lemma RunSnoc(names: seq<string>, name: string, visit: Visitor)
    ensures var prev := RunOf(names, visit);
      var v := visit(name, |prev.calls|);
      && RunOf(names + [name], visit) == EnrichRun(prev.records + [v.info], prev.calls + v.calls)
      && Assoc(map[], names + [name], prev.records + [v.info]) == Assoc(map[], names, prev.records)[name := v.info]
  {
    assert (names + [name])[..|names|] == names;
    var prev := RunOf(names, visit);
    var v := visit(name, |prev.calls|);
    assert (prev.records + [v.info])[..|names|] == prev.records;
  }

  /** Visiting place j of a day extends the table and the call count. */
  lemma VisitStep(before: seq<string>, places: seq<Place>, j: nat, visit: Visitor, info: PlaceInfo, made: nat, after: nat)
    requires j < |places|
    requires made == |RunOf(before + Names(places)[..j], visit).calls|
    requires info == visit(places[j].name, made).info && after == made + |visit(places[j].name, made).calls|
    ensures var now := before + Names(places)[..j + 1];
      && Assoc(map[], now, RunOf(now, visit).records)
         == Assoc(map[], before + Names(places)[..j], RunOf(before + Names(places)[..j], visit).records)[places[j].name := info]
      && after == |RunOf(now, visit).calls|
  {
    var visited := before + Names(places)[..j];
    assert before + Names(places)[..j + 1] == visited + [places[j].name];
    RunSnoc(visited, places[j].name, visit);
  }

  /** The place loop of `enrich_trip` over one day, continuing a run that
      has visited `before` and made `made` calls. */
  method EnrichDay(data: map<string, PlaceInfo>, made: nat, places: seq<Place>, wiki: Wiki, ghost before: seq<string>)
    returns (placesData: map<string, PlaceInfo>, next: nat)
    requires data == Assoc(map[], before, RunOf(before, Visits(wiki)).records)
    requires made == |RunOf(before, Visits(wiki)).calls|
    ensures var after := before + Names(places);
      && placesData == Assoc(map[], after, RunOf(after, Visits(wiki)).records)
      && next == |RunOf(after, Visits(wiki)).calls|
  {
    placesData, next := data, made;
    assert before + Names(places)[..0] == before;
    for j := 0 to |places|
      invariant placesData == Assoc(map[], before + Names(places)[..j], RunOf(before + Names(places)[..j], Visits(wiki)).records)
      invariant next == |RunOf(before + Names(places)[..j], Visits(wiki)).calls|
    {
      var info, after := EnrichPlace(places[j].name, wiki, next);
      VisitStep(before, places, j, Visits(wiki), info, next, after);
      placesData, next := placesData[places[j].name := info], after;
    }
    assert Names(places)[..|places|] == Names(places);
  }

  /** The body of the place loop of `enrich_trip`: the defaults, then the
      summary's fields, then the image's; `next` numbers the call after the
      last one made. */
  method EnrichPlace(name: string, wiki: Wiki, at: nat) returns (info: PlaceInfo, next: nat)
    ensures info == PlaceVisit(name, wiki, at).info
    ensures next == at + |PlaceVisit(name, wiki, at).calls|
  {
    info := DEFAULT_RECORD;
    var summary := WikipediaSummary(name, wiki, at);
    if summary.value.Some? {
      info := info.(description := summary.value.value.description, wikipediaUrl := Some(summary.value.value.wikipediaUrl));
    }
    var image := WikimediaImage(name, wiki, at + |summary.calls|);
    if image.value.Some? {
      info := info.(imageUrl := Some(image.value.value.imageUrl), imageAttribution := Some(image.value.value.imageAttribution));
    }
    next := at + |summary.calls| + |image.calls|;
  }
}
