/** The legacy TheTVDB adapter of libs/tvdb.py (`TVDBClient`, API v3): the login token
    and the headers built from it, the records of an answer turned into result
    records, and the request each worker sends.

    The HTTP calls are parameters. A key the source reads without checking, when
    missing, raises: that is the error `Crash`. */
module TvdbLegacy {
  import opened Wrappers
  import opened Text
  import opened PyDict
  import opened LegacyModels

  const ApiUrl := "https://api.thetvdb.com"
  const SiteUrl := "https://thetvdb.com"
  const GuidPrefix := "tvdb:"

  /** An exception that escapes the handler; FastAPI answers it with a 500. */
  const Crash := HttpError(500, None)

  /** The answer of `/login`: its status and its `token` entry. */
  datatype LoginAnswer = LoginAnswer(status: int, token: Field)

  /** `__get_jwt_token`: None on a non-200 answer, else the token (None when it is
      null); a missing token raises. */
  function JwtToken(login: LoginAnswer): (r: Result<Option<string>>)
    ensures login.status != 200 ==> r == Ok(None)
    ensures login.status == 200 ==> (r.Err? <==> !login.token.Present())
    ensures login.status == 200 && login.token.Text? ==> r == Ok(Some(login.token.s))
  {
    if login.status != 200 then Ok(None)
    else if !login.token.Present() then Err(Crash)
    else Ok(login.token.Value())
  }

  /** The headers of every API call. */
  function Headers(token: Option<string>, lang: string): (r: Dict<string, string>)
    ensures Keys(r) == ["Accept", "Content-Type", "Authorization", "Accept-Language"]
    ensures Get(r, "Authorization") == Some(Authorization(token))
    ensures Get(r, "Accept-Language") == Some(lang)
  {
    var h := [("Accept", "application/vnd.thetvdb.v3.0.0"), ("Content-Type", "application/json"),
              ("Authorization", Authorization(token)), ("Accept-Language", lang)];
    assert h[1..][1..] == h[2..] && h[2..][1..] == h[3..];
    assert IndexOf(h[2..], "Authorization") == Some(0);
    assert IndexOf(h[1..], "Authorization") == Some(1);
    assert IndexOf(h[3..], "Accept-Language") == Some(0);
    assert IndexOf(h[2..], "Accept-Language") == Some(1);
    assert IndexOf(h[1..], "Accept-Language") == Some(2);
    h
  }

  /** A failed login leaves the calls without credentials. */
  lemma FailedLoginSendsNoCredentials(login: LoginAnswer, lang: string)
    requires login.status != 200
    ensures JwtToken(login).Ok?
    ensures Get(Headers(JwtToken(login).value, lang), "Authorization") == Some("")
  {
  }

  /** A TheTVDB series record; its id is an integer. */
  datatype Record = Record(id: int, seriesName: Field, firstAired: Field, poster: Field)

  /** The `data` entry of an answer: missing, a list of records, or a single record. */
  datatype Data = NoData | DataList(records: seq<Record>) | DataObject(record: Record)

  datatype HttpResponse = HttpResponse(status: int, data: Data)

  /** The records of an answer: the list as it is, or the single record wrapped;
      a missing `data` raises. */
  function RecordsOf(d: Data): (r: Result<seq<Record>>)
    ensures d.NoData? <==> r.Err?
    ensures d.DataList? ==> r == Ok(d.records)
    ensures d.DataObject? ==> r == Ok([d.record])
  {
    match d
    case NoData => Err(Crash)
    case DataList(rs) => Ok(rs)
    case DataObject(x) => Ok([x])
  }

  /** One result: GUID `tvdb:<id>` (a single colon), the series name as title, always
      a show, the year before the first `-` of a truthy first-air date, and the site
      URL followed by a truthy poster. The three entries are read unchecked. */
  function ResultOf(e: Record): (r: Result<MediaResult>)
    ensures r.Err? <==> !e.seriesName.Present() || !e.firstAired.Present() || !e.poster.Present()
    ensures r.Ok? ==> r.value.guid == GuidPrefix + IntToString(e.id) && r.value.kind == "show"
    ensures r.Ok? ==> r.value.title == e.seriesName.Value()
    ensures r.Ok? ==> (r.value.year.Some? <==> e.firstAired.Truthy())
    ensures r.Ok? && r.value.year.Some? ==>
      StartsWith(e.firstAired.s, r.value.year.value) && !Contains(r.value.year.value, "-")
    ensures r.Ok? && r.value.year.Some? ==> HeadBefore(e.firstAired.s, '-', r.value.year.value)
    ensures r.Ok? ==> (r.value.poster.Some? <==> e.poster.Truthy())
    ensures r.Ok? && r.value.poster.Some? ==> r.value.poster.value == SiteUrl + e.poster.s
  {
    if !e.seriesName.Present() || !e.firstAired.Present() || !e.poster.Present() then Err(Crash)
    else
      Ok(MediaResult(
        GuidPrefix + IntToString(e.id),
        e.seriesName.Value(),
        "show",
        if e.firstAired.Truthy() then SplitFirstHead(e.firstAired.s, '-'); Some(SplitFirst(e.firstAired.s, "-")) else None,
        if e.poster.Truthy() then Some(SiteUrl + e.poster.s) else None))
  }

  /** The id of a record reads back from its GUID, after the single-colon prefix. */
  lemma GuidRoundTrip(e: Record)
    requires e.id >= 0
    requires ResultOf(e).Ok?
    ensures var g := ResultOf(e).value.guid;
      StartsWith(g, GuidPrefix) && !StartsWith(g, "tvdb://")
      && (forall k :: |GuidPrefix| <= k < |g| ==> '0' <= g[k] <= '9')
      && DigitsValue(g[|GuidPrefix|..]) == e.id
  {
    var g := ResultOf(e).value.guid;
    assert g[..|GuidPrefix|] == GuidPrefix;
    assert g[|GuidPrefix|..] == NatToString(e.id);
    assert '0' <= g[5] <= '9';
    NatToStringRoundTrip(e.id);
  }

  /** `__get_show_details_from_json`: None on a non-200 answer; otherwise the query and
      one result per record. */
  function Details(query: string, resp: HttpResponse): (r: Result<Option<QueryResults>>)
    ensures resp.status != 200 ==> r == Ok(None)
    ensures resp.status == 200 ==> (r.Err? <==>
      RecordsOf(resp.data).Err? || exists i :: 0 <= i < |RecordsOf(resp.data).value| && ResultOf(RecordsOf(resp.data).value[i]).Err?)
    ensures r.Ok? && r.value.Some? ==> r.value.value.query == query && |r.value.value.results| == |RecordsOf(resp.data).value|
    ensures r.Ok? && r.value.Some? ==>
      forall i :: 0 <= i < |r.value.value.results| ==> ResultOf(RecordsOf(resp.data).value[i]) == Ok(r.value.value.results[i])
  {
    if resp.status != 200 then Ok(None)
    else
      match RecordsOf(resp.data)
      case Err(e) => Err(e)
      case Ok(records) =>
        match Gather(records, ResultOf)
        case Err(e) => Err(e)
        case Ok(results) => Ok(Some(QueryResults(query, results)))
  }

  /** A request to the API: the endpoint (after the API URL) and the query parameters. */
  datatype Request = Request(endpoint: string, params: Dict<string, string>)

  function LookupRequest(id: string): (r: Request)
    ensures r.endpoint == "/series/" + Strip(id) && r.params == []
  {
    Request("/series/" + Strip(id), [])
  }

  function SearchRequest(title: string): (r: Request)
    ensures r.endpoint == "/search/series" && Get(r.params, "name") == Some(Strip(title))
  {
    var params := [("name", Strip(title))];
    assert IndexOf(params, "name") == Some(0);
    Request("/search/series", params)
  }

  /** `get_show_by_id`: one answer per stripped id, in order. */
  function ShowById(ids: seq<string>, fetch: Request -> HttpResponse): (r: Result<seq<Option<QueryResults>>>)
    ensures r.Ok? <==> forall i :: 0 <= i < |ids| ==> Details(Strip(ids[i]), fetch(LookupRequest(ids[i]))).Ok?
    ensures r.Ok? ==> |r.value| == |ids|
    ensures r.Ok? ==> forall i :: 0 <= i < |ids| ==> Details(Strip(ids[i]), fetch(LookupRequest(ids[i]))) == Ok(r.value[i])
  {
    Gather(ids, (id: string) => Details(Strip(id), fetch(LookupRequest(id))))
  }

  /** `search_show_by_name`: one answer per stripped title, in order. */
  function ShowByName(titles: seq<string>, fetch: Request -> HttpResponse): (r: Result<seq<Option<QueryResults>>>)
    ensures r.Ok? <==> forall i :: 0 <= i < |titles| ==> Details(Strip(titles[i]), fetch(SearchRequest(titles[i]))).Ok?
    ensures r.Ok? ==> |r.value| == |titles|
    ensures r.Ok? ==> forall i :: 0 <= i < |titles| ==> Details(Strip(titles[i]), fetch(SearchRequest(titles[i]))) == Ok(r.value[i])
  {
    Gather(titles, (t: string) => Details(Strip(t), fetch(SearchRequest(t))))
  }

  /** An answered query carries the stripped input. */
  lemma AnswersCarryStrippedQuery(titles: seq<string>, fetch: Request -> HttpResponse, i: nat)
    requires ShowByName(titles, fetch).Ok? && i < |titles|
    requires ShowByName(titles, fetch).value[i].Some?
    ensures ShowByName(titles, fetch).value[i].value.query == Strip(titles[i])
  {
  }
}
