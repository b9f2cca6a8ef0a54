/** The request tracker of libs/requests.py (`RequestsClient`): which rows the list
    shows, the guards of the single-request lookup, the parameters and the field/value
    lists of an insert, and the validation and update clause of a patch.

    BigQuery is not part of this model: a query run is a parameter that yields the
    result rows, or None when the job fails (which the source turns into a 500). The
    SQL text itself is not built; the model stops at the clause lists the source
    formats into it. */
module Requests {
  import opened Wrappers
  import opened Text
  import opened PyDict

  /** A field of the `Request` payload: a Python None, bool, int or str. */
  datatype Param = PNone | PBool(b: bool) | PInt(i: int) | PStr(s: string)

  /** Python truthiness of a payload field. */
  predicate Truthy(p: Param) {
    match p
    case PNone => false
    case PBool(b) => b
    case PInt(i) => i != 0
    case PStr(s) => s != ""
  }

  const Wait := "WAIT"
  const NotFound := HttpError(404, None)
  const QueryFailed := HttpError(500, None)
  const BadRequest := HttpError(400, Some(JStr("Bad Request")))

  // ---------------------------------------------------------------------------
  // get_requests_list

  /** A row of the request list; the columns the two list queries share. */
  datatype ListRow = ListRow(
    date: string,
    id: string,
    season: int,
    status: string,
    notes: Option<string>,
    plexNotes: Option<string>,
    count: Option<int>)

  /** The two list queries: all requests (when `user_id` is falsy) or one user's. */
  datatype ListQuery = AllRequests | UserRequests(userId: int)

  function ListQueryFor(userId: Option<int>): (q: ListQuery)
    ensures q.AllRequests? <==> userId.None? || userId.value == 0
    ensures q.UserRequests? ==> q.userId == userId.value
  {
    if userId.None? || userId.value == 0 then AllRequests else UserRequests(userId.value)
  }

  /** The shape of each listed row: the all-requests list carries the request count,
      a user's list carries the user's notes. */
  function Shape(q: ListQuery, row: ListRow): (r: ListRow)
    ensures r.status == row.status && r.id == row.id && r.season == row.season
    ensures q.AllRequests? ==> r.notes.None? && r.count == row.count
    ensures q.UserRequests? ==> r.count.None? && r.notes == row.notes
  {
    if q.AllRequests? then row.(notes := None) else row.(count := None)
  }

  /** The rows of a query, each in the shape of that query. */
  function Shaped(q: ListQuery, rows: seq<ListRow>): (r: seq<ListRow>)
    ensures |r| == |rows|
    ensures forall i :: 0 <= i < |rows| ==> r[i] == Shape(q, rows[i])
  {
    seq(|rows|, i requires 0 <= i < |rows| => Shape(q, rows[i]))
  }

  /** The rows whose status is `WAIT`, in their original order. */
  function Pending(rows: seq<ListRow>): (r: seq<ListRow>)
    ensures forall x :: x in r ==> x in rows && x.status == Wait
    ensures forall x :: x in rows && x.status == Wait ==> x in r
    ensures |r| <= |rows|
  {
    if rows == [] then []
    else
      var rest := Pending(rows[..|rows| - 1]);
      var last := rows[|rows| - 1];
      assert rows == rows[..|rows| - 1] + [last];
      if last.status == Wait then rest + [last] else rest
  }

  /** `get_requests_list`: the rows of the chosen query, shaped, and with `pendent_only`
      only the waiting ones; a failing query is a 500. */
  function RequestsList(run: ListQuery -> Option<seq<ListRow>>, pendentOnly: bool, userId: Option<int>)
    : (r: Result<seq<ListRow>>)
    ensures run(ListQueryFor(userId)).None? <==> r.Err?
    ensures r.Err? ==> r.error == QueryFailed
    ensures r.Ok? && !pendentOnly ==> |r.value| == |run(ListQueryFor(userId)).value|
    ensures r.Ok? && pendentOnly ==> forall x :: x in r.value ==> x.status == Wait
    ensures r.Ok? ==>
      var shaped := Shaped(ListQueryFor(userId), run(ListQueryFor(userId)).value);
      r.value == if pendentOnly then Pending(shaped) else shaped
  {
    var q := ListQueryFor(userId);
    match run(q)
    case None => Err(QueryFailed)
    case Some(rows) =>
      var shaped := Shaped(q, rows);
      if pendentOnly then Ok(Pending(shaped)) else Ok(shaped)
  }

  /** With `pendent_only` a listed row is shown exactly when it is waiting, and in the
      order of the query; without it every row is shown, in that order. */
  lemma ListedRows(run: ListQuery -> Option<seq<ListRow>>, pendentOnly: bool, userId: Option<int>)
    requires RequestsList(run, pendentOnly, userId).Ok?
    ensures var q := ListQueryFor(userId);
      var rows := run(q).value;
      var r := RequestsList(run, pendentOnly, userId).value;
      && (pendentOnly ==> forall i :: 0 <= i < |rows| ==>
            (Shape(q, rows[i]) in r <==> rows[i].status == Wait))
      && (!pendentOnly ==> forall i :: 0 <= i < |rows| ==> r[i] == Shape(q, rows[i]))
  {
    var q := ListQueryFor(userId);
    var shaped := Shaped(q, run(q).value);
    forall i | 0 <= i < |run(q).value|
      ensures shaped[i] in shaped
    {
    }
  }

  /** Filtering keeps the order: a further row is kept at the end iff it is waiting. */
  lemma PendingAppend(rows: seq<ListRow>, x: ListRow)
    ensures Pending(rows + [x]) == if x.status == Wait then Pending(rows) + [x] else Pending(rows)
  {
    assert (rows + [x])[..|rows + [x]| - 1] == rows;
  }

  /** Filtering is a no-op on a list of waiting rows, and removes everything from a
      list without any. */
  lemma {:induction false} PendingExtremes(rows: seq<ListRow>)
    ensures (forall i :: 0 <= i < |rows| ==> rows[i].status == Wait) ==> Pending(rows) == rows
    ensures (forall i :: 0 <= i < |rows| ==> rows[i].status != Wait) ==> Pending(rows) == []
  {
    if rows != [] {
      var init := rows[..|rows| - 1];
      PendingExtremes(init);
      assert forall i :: 0 <= i < |init| ==> init[i] == rows[i];
      assert rows == init + [rows[|rows| - 1]];
    }
  }

  // ---------------------------------------------------------------------------
  // get_request

  /** A row of the single-request queries (all the columns either query selects). */
  datatype RequestRow = RequestRow(
    date: string,
    userId: int,
    userName: Option<string>,
    userFirstName: Option<string>,
    userLastName: Option<string>,
    id: string,
    season: int,
    notes: Option<string>,
    status: string,
    plexNotes: Option<string>,
    count: int,
    requestList: seq<string>)

  /** The lookup by request code (one user's request) or by request id (its aggregate). */
  datatype LookupQuery = ByCode(code: string) | ById(id: Option<string>)

  /** The record `get_request` answers with: the user's request when looked up by code,
      the aggregate when looked up by id. */
  datatype RequestInfo =
    | UserRequest(date: string, userId: int, userName: Option<string>, userFirstName: Option<string>,
                  userLastName: Option<string>, id: string, season: int, notes: Option<string>,
                  status: string, plexNotes: Option<string>)
    | AggregateRequest(id: string, season: int, status: string, plexNotes: Option<string>,
                       count: int, requestList: seq<string>)

  function InfoOf(q: LookupQuery, row: RequestRow): (r: RequestInfo)
    ensures r.id == row.id && r.season == row.season && r.status == row.status && r.plexNotes == row.plexNotes
    ensures r.UserRequest? <==> q.ByCode?
  {
    match q
    case ByCode(_) =>
      UserRequest(row.date, row.userId, row.userName, row.userFirstName, row.userLastName,
                  row.id, row.season, row.notes, row.status, row.plexNotes)
    case ById(_) =>
      AggregateRequest(row.id, row.season, row.status, row.plexNotes, row.count, row.requestList)
  }

  /** `get_request`: 404 without any filter or without rows, 500 when the query fails,
      else the first row in the shape of the chosen lookup. */
  function GetRequest(run: LookupQuery -> Option<seq<RequestRow>>, requestId: Option<string>, requestCode: Option<string>)
    : (r: Result<RequestInfo>)
    ensures !Text.Truthy(requestId) && !Text.Truthy(requestCode) ==> r == Err(NotFound)
    ensures Text.Truthy(requestCode) ==>
      r == match run(ByCode(requestCode.value))
           case None => Err(QueryFailed)
           case Some(rows) => if rows == [] then Err(NotFound) else Ok(InfoOf(ByCode(requestCode.value), rows[0]))
    ensures Text.Truthy(requestId) && !Text.Truthy(requestCode) ==>
      r == match run(ById(requestId))
           case None => Err(QueryFailed)
           case Some(rows) => if rows == [] then Err(NotFound) else Ok(InfoOf(ById(requestId), rows[0]))
  {
    if !Text.Truthy(requestId) && !Text.Truthy(requestCode) then Err(NotFound)
    else
      var q := if Text.Truthy(requestCode) then ByCode(requestCode.value) else ById(requestId);
      match run(q)
      case None => Err(QueryFailed)
      case Some(rows) => if rows == [] then Err(NotFound) else Ok(InfoOf(q, rows[0]))
  }

  /** A lookup that succeeds answers with a record of the request it was given: the
      code lookup's user record, or the id lookup's aggregate. */
  lemma GetRequestAnswers(run: LookupQuery -> Option<seq<RequestRow>>, requestId: Option<string>, requestCode: Option<string>)
    requires GetRequest(run, requestId, requestCode).Ok?
    ensures Text.Truthy(requestId) || Text.Truthy(requestCode)
    ensures GetRequest(run, requestId, requestCode).value.UserRequest? <==> Text.Truthy(requestCode)
  {
  }

  // ---------------------------------------------------------------------------
  // insert_request

  function Pow10(n: nat): (r: nat)
    ensures r >= 1
  {
    if n == 0 then 1 else 10 * Pow10(n - 1)
  }

  /** The last `width` decimal digits of `n`, zero-padded (strftime's `%Y`, `%m`, `%d`). */
  function Digits(n: nat, width: nat): (r: string)
    ensures |r| == width
    ensures forall i :: 0 <= i < |r| ==> '0' <= r[i] <= '9'
  {
    if width == 0 then "" else Digits(n / 10, width - 1) + [DigitChar(n % 10)]
  }

  /** A number of at most `width` digits reads back from its padded form. */
  lemma {:induction false} DigitsValueOf(n: nat, width: nat)
    requires n < Pow10(width)
    ensures DigitsValue(Digits(n, width)) == n
  {
    if width > 0 {
      assert n == 10 * (n / 10) + n % 10;
      assert n / 10 < Pow10(width - 1);
      DigitsValueOf(n / 10, width - 1);
      var s := Digits(n, width);
      assert s[..|s| - 1] == Digits(n / 10, width - 1);
    }
  }

  /** `datetime.today().strftime('%Y-%m-%d')` for the date the clock gives. */
  function DateText(year: nat, month: nat, day: nat): (r: string)
    requires 1000 <= year <= 9999 && 1 <= month <= 12 && 1 <= day <= 31
    ensures |r| == 10 && r[4] == '-' && r[7] == '-'
  {
    Digits(year, 4) + "-" + Digits(month, 2) + "-" + Digits(day, 2)
  }

  /** The date text reads back as the date it was made from. */
  lemma DateTextRoundTrip(year: nat, month: nat, day: nat)
    requires 1000 <= year <= 9999 && 1 <= month <= 12 && 1 <= day <= 31
    ensures var r := DateText(year, month, day);
      DigitsValue(r[..4]) == year && DigitsValue(r[5..7]) == month && DigitsValue(r[8..]) == day
  {
    var r := DateText(year, month, day);
    assert r[..4] == Digits(year, 4);
    assert r[5..7] == Digits(month, 2);
    assert r[8..] == Digits(day, 2);
    DigitsValueOf(year, 4);
    DigitsValueOf(month, 2);
    DigitsValueOf(day, 2);
    assert Pow10(2) == 100;
    assert Pow10(4) == 10000;
  }

  /** The payload's fields, in the order `Request.dict()` lists them. */
  type Payload = Dict<string, Param>

  /** The parameters `insert_request` formats: the payload with today's date, status
      `WAIT`, and a season of -1 when the payload's is falsy. */
  method InsertParams(payload: Payload, today: string) returns (params: Payload)
    requires DistinctKeys(payload)
    requires IndexOf(payload, "request_season").Some?
    ensures DistinctKeys(params)
    ensures Get(params, "request_date") == Some(PStr(today))
    ensures Get(params, "request_status") == Some(PStr(Wait))
    ensures Get(params, "request_season") ==
      if Truthy(Get(payload, "request_season").value) then Get(payload, "request_season") else Some(PInt(-1))
    ensures forall k :: k != "request_date" && k != "request_status" && k != "request_season" ==>
      Get(params, k) == Get(payload, k)
    ensures forall k :: k in Keys(payload) ==> k in Keys(params)
  {
    params := payload;
    SetDistinct(params, "request_date", PStr(today));
    SetGetSame(params, "request_date", PStr(today));
    SetKeys(params, "request_date", PStr(today));
    forall k | k != "request_date" { SetGetOther(params, "request_date", PStr(today), k); }
    params := Set(params, "request_date", PStr(today));

    SetDistinct(params, "request_status", PStr(Wait));
    SetGetSame(params, "request_status", PStr(Wait));
    SetKeys(params, "request_status", PStr(Wait));
    forall k | k != "request_status" { SetGetOther(params, "request_status", PStr(Wait), k); }
    params := Set(params, "request_status", PStr(Wait));

    var season := Get(params, "request_season").value;
    if !Truthy(season) {
      SetDistinct(params, "request_season", PInt(-1));
      SetGetSame(params, "request_season", PInt(-1));
      SetKeys(params, "request_season", PInt(-1));
      forall k | k != "request_season" { SetGetOther(params, "request_season", PInt(-1), k); }
      params := Set(params, "request_season", PInt(-1));
    }
  }

  /** How a value is written into the insert: ints (and bools, which Python counts as
      ints) as `str()`, everything else double-quoted. */
  function Rendered(p: Param): (r: string)
    ensures p.PInt? ==> r == IntToString(p.i)
    ensures p.PStr? ==> r == "\"" + p.s + "\""
    ensures p.PBool? ==> r == if p.b then "True" else "False"
    ensures p.PNone? ==> r == "\"None\""
  {
    match p
    case PInt(i) => IntToString(i)
    case PBool(b) => if b then "True" else "False"
    case PStr(s) => "\"" + s + "\""
    case PNone => "\"None\""
  }

  /** The truthy entries of the parameters, in their order. */
  function Kept(params: Payload): (r: Payload)
    ensures forall e :: e in r ==> e in params && Truthy(e.1)
    ensures forall e :: e in params && Truthy(e.1) ==> e in r
    ensures |r| <= |params|
  {
    if params == [] then []
    else
      var rest := Kept(params[..|params| - 1]);
      var last := params[|params| - 1];
      assert params == params[..|params| - 1] + [last];
      if Truthy(last.1) then rest + [last] else rest
  }

  /** The `fields` and `values` lists the insert is formatted with, before `', '.join`. */
  datatype InsertLists = InsertLists(fields: seq<string>, values: seq<string>)

  function InsertListsOf(params: Payload): (r: InsertLists)
    ensures |r.fields| == |r.values| == |Kept(params)|
    ensures forall i :: 0 <= i < |r.fields| ==>
      (r.fields[i], r.values[i]) == (Kept(params)[i].0, Rendered(Kept(params)[i].1))
  {
    var kept := Kept(params);
    InsertLists(Keys(kept), seq(|kept|, i requires 0 <= i < |kept| => Rendered(kept[i].1)))
  }

  /** `insert_request` up to the query: the stamped parameters and their insert lists. */
  method InsertRequest(payload: Payload, year: nat, month: nat, day: nat) returns (params: Payload, lists: InsertLists)
    requires DistinctKeys(payload)
    requires IndexOf(payload, "request_season").Some?
    requires 1000 <= year <= 9999 && 1 <= month <= 12 && 1 <= day <= 31
    ensures Get(params, "request_date") == Some(PStr(DateText(year, month, day)))
    ensures Get(params, "request_status") == Some(PStr(Wait))
    ensures Get(params, "request_season") ==
      if Truthy(Get(payload, "request_season").value) then Get(payload, "request_season") else Some(PInt(-1))
    ensures forall k :: k != "request_date" && k != "request_status" && k != "request_season" ==>
      Get(params, k) == Get(payload, k)
    ensures lists == InsertListsOf(params)
    ensures "request_date" in lists.fields && "request_status" in lists.fields && "request_season" in lists.fields
  {
    params := InsertParams(payload, DateText(year, month, day));
    lists := InsertListsOf(params);
    KeptHas(params, "request_date");
    KeptHas(params, "request_status");
    KeptHas(params, "request_season");
  }

  /** A key whose value is truthy is among the insert's fields. */
  lemma KeptHas(params: Payload, k: string)
    requires Get(params, k).Some? && Truthy(Get(params, k).value)
    ensures k in InsertListsOf(params).fields
  {
    var i :| 0 <= i < |params| && params[i].0 == k;
    var j := IndexOf(params, k).value;
    assert Get(params, k) == Some(params[j].1);
    assert params[j] in Kept(params);
    var kept := Kept(params);
    var n :| 0 <= n < |kept| && kept[n] == params[j];
    assert InsertListsOf(params).fields[n] == k;
  }

  /** The insert lists keep the order: a further entry is listed last iff it is truthy. */
  lemma KeptAppend(params: Payload, e: (string, Param))
    ensures Kept(params + [e]) == if Truthy(e.1) then Kept(params) + [e] else Kept(params)
  {
    assert (params + [e])[..|params + [e]| - 1] == params;
  }

  // ---------------------------------------------------------------------------
  // patch_request

  /** The updatable fields of a patch payload. */
  datatype Patch = Patch(
    requestId: Option<string>,
    season: Option<int>,
    notes: Option<string>,
    status: Option<string>,
    plexNotes: Option<string>)

  predicate SeasonSet(p: Patch) {
    p.season.Some? && p.season.value != 0
  }

  /** A global field (season, notes) is set. */
  predicate GlobalSet(p: Patch) {
    SeasonSet(p) || Text.Truthy(p.notes)
  }

  /** A specific field (status, plex notes) is set. */
  predicate SpecificSet(p: Patch) {
    Text.Truthy(p.status) || Text.Truthy(p.plexNotes)
  }

  /** The three guards of `patch_request`: nothing to update; global and specific
      fields together; a season (even 0) or plex notes without a request code. */
  predicate Refused(p: Patch, code: Option<string>) {
    (!GlobalSet(p) && !SpecificSet(p))
    || (GlobalSet(p) && SpecificSet(p))
    || ((p.season.Some? || Text.Truthy(p.plexNotes)) && !Text.Truthy(code))
  }

  function SeasonClause(n: int): string { "request_season = " + IntToString(n) }
  function NotesClause(s: string): string { "request_notes  = \"" + s + "\"" }
  function StatusClause(s: string): string { "request_status = \"" + s + "\"" }
  function PlexNotesClause(s: string): string { "plex_notes     = \"" + s + "\"" }

  /** 1 for a set field, 0 for an unset one. */
  function Flag(b: bool): nat { if b then 1 else 0 }

  /** The update clauses of a patch: one per set field and no more, in the fixed order
      season, notes, status, plex notes, each after the clauses of the set fields
      before it. */
  function UpdatesOf(p: Patch): (r: seq<string>)
    ensures |r| == Flag(SeasonSet(p)) + Flag(Text.Truthy(p.notes)) + Flag(Text.Truthy(p.status)) + Flag(Text.Truthy(p.plexNotes))
    ensures SeasonSet(p) ==> r[0] == SeasonClause(p.season.value)
    ensures Text.Truthy(p.notes) ==> r[Flag(SeasonSet(p))] == NotesClause(p.notes.value)
    ensures Text.Truthy(p.status) ==>
      r[Flag(SeasonSet(p)) + Flag(Text.Truthy(p.notes))] == StatusClause(p.status.value)
    ensures Text.Truthy(p.plexNotes) ==> r[|r| - 1] == PlexNotesClause(p.plexNotes.value)
  {
    var a := if SeasonSet(p) then [SeasonClause(p.season.value)] else [];
    var b := if Text.Truthy(p.notes) then [NotesClause(p.notes.value)] else [];
    var c := if Text.Truthy(p.status) then [StatusClause(p.status.value)] else [];
    var d := if Text.Truthy(p.plexNotes) then [PlexNotesClause(p.plexNotes.value)] else [];
    Ranks(a, b, c, d);
    a + b + c + d
  }

  /** Where each of four at-most-singleton lists lands in their concatenation. */
  lemma Ranks<T>(a: seq<T>, b: seq<T>, c: seq<T>, d: seq<T>)
    requires |a| <= 1 && |b| <= 1 && |c| <= 1 && |d| <= 1
    ensures var u := a + b + c + d;
      && (|a| == 1 ==> u[0] == a[0])
      && (|b| == 1 ==> u[|a|] == b[0])
      && (|c| == 1 ==> u[|a| + |b|] == c[0])
      && (|d| == 1 ==> u[|a| + |b| + |c|] == d[0])
  {
  }

  /** Python's `str()` of an optional text: `None` for a missing one. */
  function PyStr(o: Option<string>): string {
    if o.Some? then o.value else "None"
  }

  /** The left side of the condition with a request code: the hash of the request's
      id, user and season. */
  const HashedRequest := "SHA256(CONCAT(request_id, '/', user_id, '/', request_season)) = "

  /** The condition of the update: the request id without a code, the hashed code with one. */
  function ConditionOf(p: Patch, code: Option<string>): (r: string)
    ensures !Text.Truthy(code) ==> r == "request_id = '" + PyStr(p.requestId) + "'"
    ensures Text.Truthy(code) ==> EndsWith(r, "FROM_BASE64('" + code.value + "')")
    ensures Text.Truthy(code) ==>
      r == "SHA256(CONCAT(request_id, '/', user_id, '/', request_season)) = FROM_BASE64('" + code.value + "')"
  {
    if Text.Truthy(code) then
      var tail := "FROM_BASE64('" + code.value + "')";
      EndsWithAppend(HashedRequest, tail);
      HashedRequest + tail
    else "request_id = '" + PyStr(p.requestId) + "'"
  }

  /** What `patch_request` formats into the update statement. */
  datatype UpdateQuery = UpdateQuery(updates: seq<string>, condition: string)

  /** `patch_request` up to the query: 400 `Bad Request` when a guard refuses the
      patch, otherwise the clauses appended one set field at a time and the condition. */
  method PatchRequest(p: Patch, code: Option<string>) returns (r: Result<UpdateQuery>)
    ensures r.Err? <==> Refused(p, code)
    ensures r.Err? ==> r.error == BadRequest
    ensures r.Ok? ==> r.value == UpdateQuery(UpdatesOf(p), ConditionOf(p, code))
  {
    if !GlobalSet(p) && !SpecificSet(p) {
      return Err(BadRequest);
    }
    if GlobalSet(p) && SpecificSet(p) {
      return Err(BadRequest);
    }
    if (p.season.Some? || Text.Truthy(p.plexNotes)) && !Text.Truthy(code) {
      return Err(BadRequest);
    }
    var update: seq<string> := [];
    if SeasonSet(p) {
      update := update + [SeasonClause(p.season.value)];
    }
    assert update == (if SeasonSet(p) then [SeasonClause(p.season.value)] else []);
    if Text.Truthy(p.notes) {
      update := update + [NotesClause(p.notes.value)];
    }
    ghost var two := update;
    if Text.Truthy(p.status) {
      update := update + [StatusClause(p.status.value)];
    }
    ghost var three := update;
    if Text.Truthy(p.plexNotes) {
      update := update + [PlexNotesClause(p.plexNotes.value)];
    }
    assert update == three + (if Text.Truthy(p.plexNotes) then [PlexNotesClause(p.plexNotes.value)] else []);
    assert three == two + (if Text.Truthy(p.status) then [StatusClause(p.status.value)] else []);
    return Ok(UpdateQuery(update, ConditionOf(p, code)));
  }

  /** An accepted patch updates either only global fields or only specific ones, and
      updates at least one. */
  lemma {:induction false} AcceptedPatchUpdates(p: Patch, code: Option<string>)
    requires !Refused(p, code)
    ensures 1 <= |UpdatesOf(p)| <= 2
    ensures GlobalSet(p) ==> UpdatesOf(p) == (if SeasonSet(p) then [SeasonClause(p.season.value)] else []) + (if Text.Truthy(p.notes) then [NotesClause(p.notes.value)] else [])
    ensures SpecificSet(p) ==> UpdatesOf(p) == (if Text.Truthy(p.status) then [StatusClause(p.status.value)] else []) + (if Text.Truthy(p.plexNotes) then [PlexNotesClause(p.plexNotes.value)] else [])
  {
    if GlobalSet(p) {
      assert !SpecificSet(p);
      assert UpdatesOf(p) == (if SeasonSet(p) then [SeasonClause(p.season.value)] else [])
        + (if Text.Truthy(p.notes) then [NotesClause(p.notes.value)] else []);
    } else {
      assert SpecificSet(p);
      assert UpdatesOf(p) == (if Text.Truthy(p.status) then [StatusClause(p.status.value)] else [])
        + (if Text.Truthy(p.plexNotes) then [PlexNotesClause(p.plexNotes.value)] else []);
    }
  }

  /** Season 0 is never written, yet it demands a request code like any season does. */
  lemma SeasonZeroNeedsCodeButIsNotWritten(p: Patch, code: Option<string>)
    requires p.season == Some(0)
    ensures forall u :: u in UpdatesOf(p) ==> u != SeasonClause(0)
    ensures !Text.Truthy(code) ==> Refused(p, code)
  {
    forall u | u in UpdatesOf(p)
      ensures u != SeasonClause(0)
    {
      assert SeasonClause(0)[..9] == "request_s";
      if Text.Truthy(p.notes) && u == NotesClause(p.notes.value) {
        assert u[..9] == "request_n";
      }
      if Text.Truthy(p.status) && u == StatusClause(p.status.value) {
        assert u[8] == 's' && u[9] == 't';
        assert SeasonClause(0)[9] == 'e';
      }
      if Text.Truthy(p.plexNotes) && u == PlexNotesClause(p.plexNotes.value) {
        assert u[0] == 'p';
      }
    }
  }

  /** Plex notes are only ever written with a request code. */
  lemma PlexNotesNeedCode(p: Patch, code: Option<string>)
    requires !Refused(p, code)
    requires Text.Truthy(p.plexNotes)
    ensures Text.Truthy(code)
    ensures PlexNotesClause(p.plexNotes.value) in UpdatesOf(p)
    ensures !(SeasonSet(p) || Text.Truthy(p.notes))
  {
  }
}
