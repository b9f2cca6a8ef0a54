/** libs/models.py: the environment check every legacy router runs first, and the
    result models (with their defaults) the legacy adapters fill. Also the shape of a
    JSON string field the legacy adapters read: absent, null, or a text. */
module LegacyModels {
  import opened Wrappers

  const NetworkAuthenticationRequired := HttpError(511, Some(JStr("Network Authentication Required")))

  /** Every variable of the list is set. */
  predicate AllSet(vars: seq<string>, env: set<string>)
    ensures AllSet(vars, env) <==> forall i :: 0 <= i < |vars| ==> vars[i] in env
  {
    if vars == [] then true else vars[0] in env && AllSet(vars[1..], env)
  }

  /** `env_vars_check`: 511 when the required list is empty or a required variable is
      not set; otherwise it passes, with a warning (true) when a suggested one is not set. */
  function EnvVarsCheck(required: seq<string>, suggested: seq<string>, env: set<string>): (r: Result<bool>)
    ensures r.Err? <==> required == [] || exists i :: 0 <= i < |required| && required[i] !in env
    ensures r.Err? ==> r.error == NetworkAuthenticationRequired
    ensures r.Ok? ==> (r.value <==> exists i :: 0 <= i < |suggested| && suggested[i] !in env)
  {
    if !AllSet(required, env) || required == [] then Err(NetworkAuthenticationRequired)
    else Ok(!AllSet(suggested, env))
  }

  /** Suggested variables never decide whether the check passes. */
  lemma SuggestedOnlyWarn(required: seq<string>, s1: seq<string>, s2: seq<string>, env: set<string>)
    ensures EnvVarsCheck(required, s1, env).Ok? <==> EnvVarsCheck(required, s2, env).Ok?
  {
  }

  /** Setting more variables never makes a passing check fail. */
  lemma MoreVariablesStillPass(required: seq<string>, suggested: seq<string>, env: set<string>, env': set<string>)
    requires env <= env'
    requires EnvVarsCheck(required, suggested, env).Ok?
    ensures EnvVarsCheck(required, suggested, env').Ok?
    ensures !EnvVarsCheck(required, suggested, env).value ==> !EnvVarsCheck(required, suggested, env').value
  {
  }

  /** A JSON string field of an upstream record: missing, null, or a text. */
  datatype Field = Absent | Null | Text(s: string) {
    predicate Present() { !Absent? }
    /** Python truthiness of the value (a missing field is never read as truthy). */
    predicate Truthy() { Text? && s != "" }
    /** The value read: the text, or None for null. */
    function Value(): Option<string>
      requires Present()
    {
      if Text? then Some(s) else None
    }
  }

  /** `'Bearer ' + token if token else ''`. */
  function Authorization(token: Option<string>): (r: string)
    ensures token.Some? && token.value != "" ==> r == "Bearer " + token.value
    ensures !(token.Some? && token.value != "") ==> r == ""
  {
    if token.Some? && token.value != "" then "Bearer " + token.value else ""
  }

  /** One result record of a legacy adapter. */
  datatype MediaResult = MediaResult(guid: string, title: Option<string>, kind: string, year: Option<string>, poster: Option<string>)

  /** What a legacy adapter answers for one query. */
  datatype QueryResults = QueryResults(query: string, results: seq<MediaResult>)

  datatype EpisodeObject = EpisodeObject(title: string, lang: string)

  datatype SeasonObject = SeasonObject(episodes: seq<EpisodeObject>)

  /** `ResultObject`: year, poster and seasons are optional. */
  datatype ResultObject = ResultObject(
    guid: string,
    title: string,
    kind: string,
    year: Option<int>,
    poster: Option<string>,
    seasons: Option<seq<SeasonObject>>)

  /** A `ResultObject` built from its required fields only. */
  function NewResultObject(guid: string, title: string, kind: string): (r: ResultObject)
    ensures r.guid == guid && r.title == title && r.kind == kind
    ensures r.year.None? && r.poster.None? && r.seasons.None?
  {
    ResultObject(guid, title, kind, None, None, None)
  }

  datatype MatchResults = MatchResults(query: string, results: seq<ResultObject>)

  /** A `MatchResults` built from its query only. */
  function NewMatchResults(query: string): (r: MatchResults)
    ensures r.query == query && r.results == []
  {
    MatchResults(query, [])
  }
}
