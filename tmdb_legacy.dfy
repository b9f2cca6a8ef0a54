/** The legacy TMDB adapter of libs/tmdb.py (`TMDBClient`): the poster base taken from
    the configuration call, the records picked out of an answer and turned into result
    records, and the request each worker sends.

    The HTTP GETs are parameters. A key the source reads without checking, when
    missing, raises: that is the error `Crash`. */
module TmdbLegacy {
  import opened Wrappers
  import opened Text
  import opened PyDict
  import opened LegacyModels

  const ApiUrl := "https://api.themoviedb.org/3"

  /** An exception that escapes the handler; FastAPI answers it with a 500. */
  const Crash := HttpError(500, None)

  /** The `images` part of the configuration answer. */
  datatype Configuration = Configuration(status: int, secureBaseUrl: string, posterSizes: seq<string>)

  /** `__get_api_conf_params`: None on a non-200 answer, else the secure base URL
      followed by the last (largest) poster size; an empty size list raises. */
  function PosterBase(conf: Configuration): (r: Result<Option<string>>)
    ensures conf.status != 200 ==> r == Ok(None)
    ensures conf.status == 200 ==> (r.Err? <==> conf.posterSizes == [])
    ensures r.Ok? && r.value.Some? ==>
      r.value.value == conf.secureBaseUrl + conf.posterSizes[|conf.posterSizes| - 1]
  {
    if conf.status != 200 then Ok(None)
    else if conf.posterSizes == [] then Err(Crash)
    else Ok(Some(conf.secureBaseUrl + conf.posterSizes[|conf.posterSizes| - 1]))
  }

  /** A TMDB record: a movie (with `title`), a show (with `name`), or the answer
      object itself; its id is an integer. */
  datatype Record = Record(
    id: int,
    title: Field,
    originalTitle: Field,
    name: Field,
    originalName: Field,
    releaseDate: Field,
    firstAirDate: Field,
    posterPath: Field)

  /** An answer: the lists of a `/find` or `/search` answer, each possibly absent, and
      the object read as a record of its own (the answer of `/movie/<id>` or `/tv/<id>`). */
  datatype Answer = Answer(
    movieResults: Option<seq<Record>>,
    tvResults: Option<seq<Record>>,
    results: Option<seq<Record>>,
    self: Record)

  datatype HttpResponse = HttpResponse(status: int, body: Answer)

  predicate NonEmpty(o: Option<seq<Record>>) {
    o.Some? && o.value != []
  }

  /** The records of an answer: the first non-empty list of movie results, TV results
      and results, else the answer itself as the only record. */
  function RecordsOf(a: Answer): (r: seq<Record>)
    ensures NonEmpty(a.movieResults) ==> r == a.movieResults.value
    ensures !NonEmpty(a.movieResults) && NonEmpty(a.tvResults) ==> r == a.tvResults.value
    ensures !NonEmpty(a.movieResults) && !NonEmpty(a.tvResults) && NonEmpty(a.results) ==> r == a.results.value
    ensures !NonEmpty(a.movieResults) && !NonEmpty(a.tvResults) && !NonEmpty(a.results) ==> r == [a.self]
    ensures r != []
  {
    if NonEmpty(a.movieResults) then a.movieResults.value
    else if NonEmpty(a.tvResults) then a.tvResults.value
    else if NonEmpty(a.results) then a.results.value
    else [a.self]
  }

  /** The title: a movie's `title`, else its `original_title`; a show's `name`, else its
      `original_name`. The fallback key is read unchecked. */
  function TitleOf(e: Record): (r: Result<Option<string>>)
    ensures e.title.Present() ==> (r.Err? <==> !e.title.Truthy() && !e.originalTitle.Present())
    ensures !e.title.Present() ==> (r.Err? <==> !e.name.Present() || (!e.name.Truthy() && !e.originalName.Present()))
    ensures e.title.Truthy() ==> r == Ok(Some(e.title.s))
    ensures e.title.Present() && !e.title.Truthy() && e.originalTitle.Present() ==> r == Ok(e.originalTitle.Value())
    ensures !e.title.Present() && e.name.Truthy() ==> r == Ok(Some(e.name.s))
    ensures !e.title.Present() && e.name.Present() && !e.name.Truthy() && e.originalName.Present() ==> r == Ok(e.originalName.Value())
  {
    if e.title.Present() then
      if e.title.Truthy() then Ok(e.title.Value())
      else if e.originalTitle.Present() then Ok(e.originalTitle.Value())
      else Err(Crash)
    else if !e.name.Present() then Err(Crash)
    else if e.name.Truthy() then Ok(e.name.Value())
    else if e.originalName.Present() then Ok(e.originalName.Value())
    else Err(Crash)
  }

  /** The year: the text before the first `-` of a truthy release date, else of a
      truthy first-air date. */
  function YearOf(e: Record): (r: Option<string>)
    ensures r.Some? <==> e.releaseDate.Truthy() || e.firstAirDate.Truthy()
    ensures r.Some? ==> !Contains(r.value, "-")
    ensures e.releaseDate.Truthy() ==> StartsWith(e.releaseDate.s, r.value)
    ensures !e.releaseDate.Truthy() && e.firstAirDate.Truthy() ==> StartsWith(e.firstAirDate.s, r.value)
    ensures r.Some? ==> HeadBefore(if e.releaseDate.Truthy() then e.releaseDate.s else e.firstAirDate.s, '-', r.value)
  {
    if e.releaseDate.Truthy() then SplitFirstHead(e.releaseDate.s, '-'); Some(SplitFirst(e.releaseDate.s, "-"))
    else if e.firstAirDate.Truthy() then SplitFirstHead(e.firstAirDate.s, '-'); Some(SplitFirst(e.firstAirDate.s, "-"))
    else None
  }

  /** The poster: the base followed by the poster path when both are truthy; the path
      is read unchecked once the base is truthy. */
  function PosterOf(e: Record, base: Option<string>): (r: Result<Option<string>>)
    ensures r.Err? <==> (base.Some? && base.value != "" && !e.posterPath.Present())
    ensures r.Ok? ==> (r.value.Some? <==> base.Some? && base.value != "" && e.posterPath.Truthy())
    ensures r.Ok? && r.value.Some? ==> r.value.value == base.value + e.posterPath.s
  {
    if !(base.Some? && base.value != "") then Ok(None)
    else if !e.posterPath.Present() then Err(Crash)
    else if e.posterPath.Truthy() then Ok(Some(base.value + e.posterPath.s))
    else Ok(None)
  }

  const GuidPrefix := "tmdb://"

  function ResultOf(e: Record, base: Option<string>): (r: Result<MediaResult>)
    ensures r.Ok? <==> TitleOf(e).Ok? && PosterOf(e, base).Ok?
    ensures r.Ok? ==> r.value.guid == GuidPrefix + IntToString(e.id)
    ensures r.Ok? ==> (r.value.kind == "movie" <==> e.title.Present())
    ensures r.Ok? ==> (r.value.kind == "show" <==> !e.title.Present())
    ensures r.Ok? ==> r.value.title == TitleOf(e).value && r.value.year == YearOf(e) && r.value.poster == PosterOf(e, base).value
  {
    match TitleOf(e)
    case Err(err) => Err(err)
    case Ok(title) =>
      match PosterOf(e, base)
      case Err(err) => Err(err)
      case Ok(poster) =>
        Ok(MediaResult(GuidPrefix + IntToString(e.id), title, if e.title.Present() then "movie" else "show", YearOf(e), poster))
  }

  /** The id of a record reads back from its GUID. */
  lemma GuidRoundTrip(e: Record, base: Option<string>)
    requires e.id >= 0
    requires ResultOf(e, base).Ok?
    ensures var g := ResultOf(e, base).value.guid;
      StartsWith(g, GuidPrefix)
      && (forall k :: |GuidPrefix| <= k < |g| ==> '0' <= g[k] <= '9')
      && DigitsValue(g[|GuidPrefix|..]) == e.id
  {
    var g := ResultOf(e, base).value.guid;
    assert g[..|GuidPrefix|] == GuidPrefix;
    assert g[|GuidPrefix|..] == NatToString(e.id);
    NatToStringRoundTrip(e.id);
  }

  /** `__get_show_details_from_json`: None on a non-200 answer; otherwise the query and
      one result per record. */
  function Details(query: string, resp: HttpResponse, base: Option<string>): (r: Result<Option<QueryResults>>)
    ensures resp.status != 200 ==> r == Ok(None)
    ensures r.Ok? && r.value.Some? ==> r.value.value.query == query && |r.value.value.results| == |RecordsOf(resp.body)|
    ensures r.Ok? && r.value.Some? ==>
      forall i :: 0 <= i < |RecordsOf(resp.body)| ==> ResultOf(RecordsOf(resp.body)[i], base) == Ok(r.value.value.results[i])
    ensures resp.status == 200 ==> (r.Err? <==> exists i :: 0 <= i < |RecordsOf(resp.body)| && ResultOf(RecordsOf(resp.body)[i], base).Err?)
  {
    if resp.status != 200 then Ok(None)
    else
      var records := RecordsOf(resp.body);
      match Gather(records, (e: Record) => ResultOf(e, base))
      case Err(e) => Err(e)
      case Ok(results) => Ok(Some(QueryResults(query, results)))
  }

  /** A request to the API: the endpoint (after the API URL) and the query parameters. */
  datatype Request = Request(endpoint: string, params: Dict<string, string>)

  /** The id to look up, its kind, and the source it is an id of (absent for TMDB ids). */
  datatype MediaId = MediaId(id: string, kind: string, source: Option<string>)

  /** The path segment of a kind: `tv` for shows, the kind itself otherwise. */
  function KindPath(kind: string): string {
    if kind == "show" then "tv" else kind
  }

  /** The request of a `get_media_by_id` worker: with a source, `/find/<id>` with the
      external source named; without, `/<tv|kind>/<id>`; the language always. */
  function LookupRequest(m: MediaId, lang: string): (r: Request)
    ensures Get(r.params, "language") == Some(lang)
    ensures m.source.Some? && m.source.value != "" ==>
      r.endpoint == "/find/" + m.id && Get(r.params, "external_source") == Some(m.source.value + "_id")
    ensures !(m.source.Some? && m.source.value != "") ==>
      r.endpoint == "/" + KindPath(m.kind) + "/" + m.id && Get(r.params, "external_source").None?
  {
    if m.source.Some? && m.source.value != "" then
      var params := [("language", lang), ("external_source", m.source.value + "_id")];
      assert IndexOf(params, "external_source") == Some(1);
      Request("/find/" + m.id, params)
    else
      var params := [("language", lang)];
      assert IndexOf(params, "external_source").None?;
      Request("/" + KindPath(m.kind) + "/" + m.id, params)
  }

  /** The request of a `search_media_by_name` worker: `/search/<tv|kind>` with the
      language and the title as query. */
  function SearchRequest(title: string, kind: string, lang: string): (r: Request)
    ensures r.endpoint == "/search/" + KindPath(kind)
    ensures Get(r.params, "language") == Some(lang) && Get(r.params, "query") == Some(title)
  {
    var params := [("language", lang), ("query", title)];
    assert IndexOf(params, "query") == Some(1);
    Request("/search/" + KindPath(kind), params)
  }

  /** A show is looked up under `tv`, never under its own kind name. */
  lemma ShowsUseTv(m: MediaId, lang: string)
    requires m.kind == "show" && !(m.source.Some? && m.source.value != "")
    ensures StartsWith(LookupRequest(m, lang).endpoint, "/tv/")
  {
    var e := LookupRequest(m, lang).endpoint;
    assert e[..4] == "/tv/";
  }

  /** `get_media_by_id`: one answer per id, in order, each queried with its id. */
  function MediaById(ids: seq<MediaId>, lang: string, fetch: Request -> HttpResponse, base: Option<string>)
    : (r: Result<seq<Option<QueryResults>>>)
    ensures r.Ok? <==> forall i :: 0 <= i < |ids| ==> Details(ids[i].id, fetch(LookupRequest(ids[i], lang)), base).Ok?
    ensures r.Ok? ==> |r.value| == |ids|
    ensures r.Ok? ==> forall i :: 0 <= i < |ids| ==> Details(ids[i].id, fetch(LookupRequest(ids[i], lang)), base) == Ok(r.value[i])
  {
    Gather(ids, (m: MediaId) => Details(m.id, fetch(LookupRequest(m, lang)), base))
  }

  /** A title to search and its kind. */
  datatype MediaTitle = MediaTitle(title: string, kind: string)

  /** `search_media_by_name`: one answer per title, in order, each queried with its title. */
  function MediaByName(titles: seq<MediaTitle>, lang: string, fetch: Request -> HttpResponse, base: Option<string>)
    : (r: Result<seq<Option<QueryResults>>>)
    ensures r.Ok? <==> forall i :: 0 <= i < |titles| ==>
      Details(titles[i].title, fetch(SearchRequest(titles[i].title, titles[i].kind, lang)), base).Ok?
    ensures r.Ok? ==> |r.value| == |titles|
    ensures r.Ok? ==> forall i :: 0 <= i < |titles| ==>
      Details(titles[i].title, fetch(SearchRequest(titles[i].title, titles[i].kind, lang)), base) == Ok(r.value[i])
  {
    Gather(titles, (t: MediaTitle) => Details(t.title, fetch(SearchRequest(t.title, t.kind, lang)), base))
  }
}
