/** The legacy IMDb adapter of libs/imdb.py (`IMDBClient`): the JSONP answer of the
    suggest endpoint turned into result records, the suggest path with its
    percent-encoded query, the choice and parameters of the media query, and the
    in-place title override of `search_media_by_name`.

    The HTTP GET, the JSON decoder and the BigQuery run are parameters. An exception
    the source does not catch (an IndexError, a TypeError) is the error `Crash`. */
module Imdb {
  import opened Wrappers
  import opened Text

  const ApiUrl := "https://sg.media-imdb.com"

  /** An exception that escapes the handler; FastAPI answers it with a 500. */
  const Crash := HttpError(500, None)

  // ---------------------------------------------------------------------------
  // The JSONP wrapper: `^imdb\$.+?\((.+)\)$`, case-insensitive, multi-line.

  /** The group the pattern captures on one line (no newline inside): the line starts
      with `imdb$` in any case, ends with `)`, and the group runs from just after the
      first `(` at position 6 or later to just before the final `)`, with at least
      one character in it. */
  function LineGroup(line: string): (r: Option<string>)
    ensures r.Some? ==> |line| >= 9 && Lower(line[..5]) == "imdb$" && line[|line| - 1] == ')'
    ensures r.Some? ==> exists p :: 6 <= p < |line| - 2 && line[p] == '(' && r.value == line[p + 1..|line| - 1]
  {
    if |line| >= 9 && Lower(line[..5]) == "imdb$" && line[|line| - 1] == ')' then
      var head := line[..|line| - 2];
      match Find(head, "(", 6)
      case None => None
      case Some(p) =>
        assert OccursAt(head, "(", p);
        assert head[p..p + 1][0] == head[p] == line[p];
        Some(line[p + 1..|line| - 1])
    else None
  }

  /** `re.search` of the pattern over the text: the first line that matches. */
  function Unwrap(text: string): (r: Option<string>)
    decreases |text|
  {
    match Find(text, "\n")
    case None => LineGroup(text)
    case Some(i) =>
      if LineGroup(text[..i]).Some? then LineGroup(text[..i]) else Unwrap(text[i + 1..])
  }

  /** Wrapping a one-line payload in a callback and unwrapping it gives the payload
      back, whatever parentheses the payload holds. */
  lemma JsonpRoundTrip(callback: string, payload: string)
    requires callback != [] && '(' !in callback && '\n' !in callback
    requires payload != [] && '\n' !in payload
    ensures Unwrap("imdb$" + callback + "(" + payload + ")") == Some(payload)
  {
    WrappedGroup(callback, payload);
    WrappedOneLine(callback, payload);
    NoNewline("imdb$" + callback + "(" + payload + ")");
  }

  /** The line's own match is the payload. */
  lemma WrappedGroup(callback: string, payload: string)
    requires callback != [] && '(' !in callback
    requires payload != []
    ensures LineGroup("imdb$" + callback + "(" + payload + ")") == Some(payload)
  {
    var line := "imdb$" + callback + "(" + payload + ")";
    var p := 5 + |callback|;
    assert line[..5] == "imdb$";
    assert Lower(line[..5]) == "imdb$";
    assert line[p] == '(';
    var s := line[..|line| - 2];
    assert OccursAt(s, "(", p) by {
      assert s[p..p + 1] == [line[p]];
    }
    forall j | 6 <= j < p
      ensures !OccursAt(s, "(", j)
    {
      assert s[j] == callback[j - 5];
    }
    NotFoundBefore(s, p);
    assert line[p + 1..|line| - 1] == payload;
  }

  /** The wrapped payload holds no newline. */
  lemma WrappedOneLine(callback: string, payload: string)
    requires '\n' !in callback && '\n' !in payload
    ensures forall k :: 0 <= k < |"imdb$" + callback + "(" + payload + ")"| ==> ("imdb$" + callback + "(" + payload + ")")[k] != '\n'
  {
    var line := "imdb$" + callback + "(" + payload + ")";
    var p := 5 + |callback|;
    forall k | 0 <= k < |line|
      ensures line[k] != '\n'
    {
      if k < 5 {
      } else if k < p {
        assert line[k] == callback[k - 5];
      } else if k == p {
      } else if k < |line| - 1 {
        assert line[k] == payload[k - p - 1];
      }
    }
  }

  lemma NotFoundBefore(s: string, p: nat)
    requires 6 <= p && OccursAt(s, "(", p)
    requires forall j :: 6 <= j < p ==> !OccursAt(s, "(", j)
    ensures Find(s, "(", 6) == Some(p)
  {
  }

  /** On a single line, the search is the line's own match. */
  lemma NoNewline(text: string)
    requires forall k :: 0 <= k < |text| ==> text[k] != '\n'
    ensures Unwrap(text) == LineGroup(text)
  {
    forall j | 0 <= j <= |text|
      ensures !OccursAt(text, "\n", j)
    {
      if j < |text| {
        assert text[j..j + 1][0] == text[j];
      }
    }
    assert Find(text, "\n").None?;
  }

  // ---------------------------------------------------------------------------
  // __get_details_from_json

  /** An element of the decoded `d` list: its `id`, `l` (title), `q` (kind), `y`
      (year) and `i` (image: url first) entries, each possibly absent. */
  datatype SuggestEntry = SuggestEntry(
    id: Option<string>,
    name: Option<string>,
    kind: Option<string>,
    year: Option<int>,
    image: Option<seq<string>>)

  /** The decoded payload, with or without its `d` list. */
  datatype SuggestPayload = SuggestPayload(d: Option<seq<SuggestEntry>>)

  datatype MediaRecord = MediaRecord(guid: string, title: string, kind: string, year: Option<int>, poster: Option<string>)

  datatype SuggestResponse = SuggestResponse(query: string, results: seq<MediaRecord>)

  datatype HttpResponse = HttpResponse(status: int, text: string)

  /** The record of an entry that has a `q`; a missing `id` or `l`, or an empty `i`, raises. */
  function RecordOf(e: SuggestEntry): (r: Result<MediaRecord>)
    requires e.kind.Some?
    ensures r.Err? <==> e.id.None? || e.name.None? || e.image == Some([])
    ensures r.Ok? ==> r.value.guid == "imdb://" + e.id.value && r.value.title == e.name.value
    ensures r.Ok? ==> (r.value.kind == "show" <==> e.kind.value == "TV series")
    ensures r.Ok? ==> (r.value.kind == "movie" <==> e.kind.value != "TV series")
    ensures r.Ok? ==> r.value.year == e.year
    ensures r.Ok? ==> (r.value.poster.Some? <==> e.image.Some?)
    ensures r.Ok? && e.image.Some? ==> r.value.poster.value == e.image.value[0]
  {
    if e.id.None? || e.name.None? || e.image == Some([]) then Err(Crash)
    else
      Ok(MediaRecord(
        "imdb://" + e.id.value,
        e.name.value,
        if e.kind.value == "TV series" then "show" else "movie",
        e.year,
        if e.image.Some? then Some(e.image.value[0]) else None))
  }

  /** The records of the entries that have a `q`, in order; the first bad one raises. */
  function Records(entries: seq<SuggestEntry>): (r: Result<seq<MediaRecord>>)
    ensures r.Err? <==> exists i :: 0 <= i < |entries| && entries[i].kind.Some? && RecordOf(entries[i]).Err?
    ensures r.Ok? ==> |r.value| <= |entries|
    ensures r.Err? ==> r.error == Crash
  {
    if entries == [] then Ok([])
    else
      var rest := Records(entries[..|entries| - 1]);
      var last := entries[|entries| - 1];
      assert forall i :: 0 <= i < |entries| - 1 ==> entries[..|entries| - 1][i] == entries[i];
      if rest.Err? then rest
      else if last.kind.None? then rest
      else
        match RecordOf(last)
        case Err(e) => Err(e)
        case Ok(x) => Ok(rest.value + [x])
  }

  /** An entry without `q` adds nothing; one with `q` adds its record last. */
  lemma RecordsAppend(entries: seq<SuggestEntry>, e: SuggestEntry)
    requires Records(entries).Ok?
    ensures e.kind.None? ==> Records(entries + [e]) == Records(entries)
    ensures e.kind.Some? && RecordOf(e).Ok? ==> Records(entries + [e]) == Ok(Records(entries).value + [RecordOf(e).value])
  {
    assert (entries + [e])[..|entries + [e]| - 1] == entries;
  }

  /** Every record is an IMDb GUID of kind `show` or `movie`. */
  lemma {:induction false} RecordsShape(entries: seq<SuggestEntry>)
    requires Records(entries).Ok?
    ensures forall x :: x in Records(entries).value ==>
      StartsWith(x.guid, "imdb://") && (x.kind == "show" || x.kind == "movie")
  {
    if entries != [] {
      var init := entries[..|entries| - 1];
      var last := entries[|entries| - 1];
      assert entries == init + [last];
      assert forall i :: 0 <= i < |init| ==> init[i] == entries[i];
      RecordsShape(init);
      if last.kind.Some? {
        var x := RecordOf(last).value;
        assert x.guid[..7] == "imdb://";
      }
    }
  }

  /** The records of the requested kind, or all of them without one. */
  function OfKind(records: seq<MediaRecord>, queryType: Option<string>): (r: seq<MediaRecord>)
    ensures !(queryType.Some? && queryType.value != "") ==> r == records
    ensures queryType.Some? && queryType.value != "" ==>
      forall x :: x in r <==> x in records && x.kind == queryType.value
  {
    if !(queryType.Some? && queryType.value != "") then records
    else if records == [] then []
    else
      var rest := OfKind(records[..|records| - 1], queryType);
      var last := records[|records| - 1];
      assert records == records[..|records| - 1] + [last];
      if last.kind == queryType.value then rest + [last] else rest
  }

  /** `__get_details_from_json`: None for a non-200 answer, a text without the JSONP
      wrapper or an undecodable payload; otherwise the query and its records, of the
      requested kind when one is given. */
  function Details(query: string, queryType: Option<string>, resp: HttpResponse, decode: string -> Option<SuggestPayload>)
    : (r: Result<Option<SuggestResponse>>)
    ensures resp.status != 200 || Unwrap(resp.text).None? || decode(Unwrap(resp.text).value).None? ==> r == Ok(None)
    ensures r.Ok? && r.value.Some? ==> r.value.value.query == query
    ensures r.Ok? && r.value.Some? && queryType.Some? && queryType.value != "" ==>
      forall x :: x in r.value.value.results ==> x.kind == queryType.value
    ensures r.Err? ==> r.error == Crash
    ensures resp.status == 200 && Unwrap(resp.text).Some? && decode(Unwrap(resp.text).value).Some? ==>
      var payload := decode(Unwrap(resp.text).value).value;
      && (payload.d.None? ==> r == Ok(Some(SuggestResponse(query, []))))
      && (payload.d.Some? ==> (r.Err? <==> Records(payload.d.value).Err?))
      && (payload.d.Some? && r.Ok? ==> r.value == Some(SuggestResponse(query, OfKind(Records(payload.d.value).value, queryType))))
  {
    if resp.status != 200 then Ok(None)
    else
      match Unwrap(resp.text)
      case None => Ok(None)
      case Some(body) =>
        match decode(body)
        case None => Ok(None)
        case Some(payload) =>
          if payload.d.None? then Ok(Some(SuggestResponse(query, [])))
          else
            match Records(payload.d.value)
            case Err(e) => Err(e)
            case Ok(records) => Ok(Some(SuggestResponse(query, OfKind(records, queryType))))
  }

  // ---------------------------------------------------------------------------
  // The suggest path: `urllib.parse.quote(query, safe='')`

  /** The unreserved characters of section 2.3 of RFC 3986, never encoded. */
  predicate Unreserved(c: char) {
    'A' <= c <= 'Z' || 'a' <= c <= 'z' || '0' <= c <= '9' || c == '_' || c == '.' || c == '-' || c == '~'
  }

  /** The UTF-8 bytes of a character. */
  function Utf8(c: char): (r: seq<nat>)
    ensures 1 <= |r| <= 4
    ensures forall i :: 0 <= i < |r| ==> r[i] < 256
    ensures (c as int) < 0x80 ==> r == [c as int]
  {
    var n := c as int;
    if n < 0x80 then [n]
    else if n < 0x800 then [0xC0 + n / 64, 0x80 + n % 64]
    else if n < 0x10000 then [0xE0 + n / 4096, 0x80 + n / 64 % 64, 0x80 + n % 64]
    else [0xF0 + n / 262144, 0x80 + n / 4096 % 64, 0x80 + n / 64 % 64, 0x80 + n % 64]
  }

  function HexDigit(d: nat): (c: char)
    requires d < 16
    ensures '0' <= c <= '9' || 'A' <= c <= 'F'
  {
    if d < 10 then ('0' as int + d) as char else ('A' as int + d - 10) as char
  }

  predicate IsHexDigit(c: char) {
    '0' <= c <= '9' || 'A' <= c <= 'F'
  }

  /** Section 2.1 of RFC 3986: `%` and two upper-case hex digits per byte. */
  function PercentBytes(bytes: seq<nat>): (r: string)
    requires forall i :: 0 <= i < |bytes| ==> bytes[i] < 256
    ensures |r| == 3 * |bytes|
    ensures forall i :: 0 <= i < |bytes| ==> r[3 * i] == '%' && IsHexDigit(r[3 * i + 1]) && IsHexDigit(r[3 * i + 2])
  {
    if bytes == [] then ""
    else
      var tail := PercentBytes(bytes[1..]);
      var r := ['%', HexDigit(bytes[0] / 16), HexDigit(bytes[0] % 16)] + tail;
      forall i | 1 <= i < |bytes|
        ensures r[3 * i] == '%' && IsHexDigit(r[3 * i + 1]) && IsHexDigit(r[3 * i + 2])
      {
        var j := 3 * (i - 1);
        assert 3 * i == j + 3;
        assert r[j + 3] == tail[j] && r[j + 4] == tail[j + 1] && r[j + 5] == tail[j + 2];
      }
      r
  }

  function QuoteChar(c: char): (r: string)
    ensures Unreserved(c) ==> r == [c]
    ensures !Unreserved(c) ==> r != [] && r[0] == '%'
  {
    if Unreserved(c) then [c] else PercentBytes(Utf8(c))
  }

  /** `urllib.parse.quote(s, safe='')`. */
  function Quote(s: string): (r: string)
    ensures |r| >= |s|
    ensures forall k :: 0 <= k < |r| ==> Unreserved(r[k]) || r[k] == '%' || IsHexDigit(r[k])
  {
    if s == [] then ""
    else
      var head := QuoteChar(s[0]);
      assert forall k :: 0 <= k < |head| ==> Unreserved(head[k]) || head[k] == '%' || IsHexDigit(head[k]) by {
        if !Unreserved(s[0]) {
          var b := Utf8(s[0]);
          forall k | 0 <= k < |head|
            ensures Unreserved(head[k]) || head[k] == '%' || IsHexDigit(head[k])
          {
            var i := k / 3;
            assert k == 3 * i || k == 3 * i + 1 || k == 3 * i + 2;
          }
        }
      }
      head + Quote(s[1..])
  }

  function HexValue(c: char): nat {
    if '0' <= c <= '9' then c as int - '0' as int
    else if 'A' <= c <= 'F' then c as int - 'A' as int + 10
    else 0
  }

  /** `urllib.parse.unquote` for text whose escapes are single bytes below 0x80. */
  function Unquote(s: string): string
    decreases |s|
  {
    if s == [] then ""
    else if s[0] == '%' && |s| >= 3 then [(HexValue(s[1]) * 16 + HexValue(s[2])) as char] + Unquote(s[3..])
    else [s[0]] + Unquote(s[1..])
  }

  /** On ASCII text, unquoting the quoted text gives the text back. */
  lemma {:induction false} QuoteRoundTrip(s: string)
    requires forall k :: 0 <= k < |s| ==> (s[k] as int) < 0x80
    ensures Unquote(Quote(s)) == s
  {
    if s != [] {
      var c := s[0];
      var rest := Quote(s[1..]);
      QuoteRoundTrip(s[1..]);
      assert Quote(s) == QuoteChar(c) + rest;
      if !Unreserved(c) {
        var n := c as int;
        var q := QuoteChar(c);
        assert q == ['%', HexDigit(n / 16), HexDigit(n % 16)];
        assert HexValue(HexDigit(n / 16)) == n / 16;
        assert HexValue(HexDigit(n % 16)) == n % 16;
        assert (q + rest)[3..] == rest;
      } else {
        assert (QuoteChar(c) + rest)[1..] == rest;
      }
    }
  }

  /** The suggest path of a query: `/suggests/`, its first character lower-cased,
      `/`, the quoted query and `.json`; an empty query raises. */
  function SuggestPath(query: string): (r: Result<string>)
    ensures r.Err? <==> query == []
    ensures r.Ok? ==> StartsWith(r.value, "/suggests/") && EndsWith(r.value, ".json")
    ensures r.Ok? ==> |r.value| > 11 && r.value[10] == LowerChar(query[0]) && r.value[11] == '/'
  {
    if query == [] then Err(Crash)
    else
      var r := "/suggests/" + [LowerChar(query[0])] + "/" + Quote(query) + ".json";
      assert r[..10] == "/suggests/";
      assert r[|r| - 5..] == ".json";
      Ok(r)
  }

  // ---------------------------------------------------------------------------
  // get_media_by_id

  datatype QueryKind = TranslationQuery | MovieFullQuery | ShowQuery

  /** The translation query when only translations are wanted, else the full query
      of a movie, else the show query. */
  function QueryKindFor(transOnly: bool, mediaType: string): (k: QueryKind)
    ensures k == TranslationQuery <==> transOnly
    ensures k == MovieFullQuery <==> !transOnly && mediaType == "movie"
  {
    if transOnly then TranslationQuery else if mediaType == "movie" then MovieFullQuery else ShowQuery
  }

  /** The ids as a comma-separated list of single-quoted literals. */
  function IdList(ids: seq<string>): (r: string)
    ensures ids == [] ==> r == ""
    ensures |ids| == 1 ==> r == "'" + ids[0] + "'"
  {
    Join(",", seq(|ids|, i requires 0 <= i < |ids| => "'" + ids[i] + "'"))
  }

  /** `get_media_by_id`: the `mediaInfo` of each row of the chosen query run with the
      id list and the upper-cased language, decoded; a failed run or any row that
      does not decode gives no result at all. */
  function MediaById<T>(ids: seq<string>, mediaType: string, transOnly: bool, lang: string,
                        run: (QueryKind, string, string) -> Option<seq<string>>, parse: string -> Option<T>)
    : (r: seq<T>)
    ensures var rows := run(QueryKindFor(transOnly, mediaType), IdList(ids), Upper(lang));
      && (rows.None? ==> r == [])
      && (rows.Some? && (exists i :: 0 <= i < |rows.value| && parse(rows.value[i]).None?) ==> r == [])
      && (rows.Some? && (forall i :: 0 <= i < |rows.value| ==> parse(rows.value[i]).Some?) ==>
            |r| == |rows.value| && forall i :: 0 <= i < |r| ==> Some(r[i]) == parse(rows.value[i]))
  {
    var rows := run(QueryKindFor(transOnly, mediaType), IdList(ids), Upper(lang));
    if rows.None? then []
    else if exists i :: 0 <= i < |rows.value| && parse(rows.value[i]).None? then []
    else seq(|rows.value|, i requires 0 <= i < |rows.value| => parse(rows.value[i]).value)
  }

  // ---------------------------------------------------------------------------
  // search_media_by_name

  /** A translation row: the title id and the first title of its `titleData`, None
      when that list is empty. */
  datatype Translation = Translation(titleId: string, title: Option<string>)

  /** `guid.split('://')[1]`; every GUID built here contains `://`. */
  function IdOf(guid: string): string {
    SplitSecond(guid, "://").GetOr("")
  }

  lemma IdOfImdbGuid(id: string)
    requires !Contains(id, "://")
    ensures IdOf("imdb://" + id) == id
  {
    var g := "imdb://" + id;
    assert OccursAt(g, "://", 4);
    forall j | 0 <= j < 4
      ensures !OccursAt(g, "://", j)
    {
      assert g[..7] == "imdb://";
      assert g[j..j + 3][0] == g[j];
    }
    var f := Find(g, "://");
    assert f == Some(4);
    assert g[7..] == id;
  }

  /** The ids of one answered query's records, in order. */
  function ResponseIds(resp: SuggestResponse): (r: seq<string>)
    ensures |r| == |resp.results|
    ensures forall j :: 0 <= j < |r| ==> r[j] == IdOf(resp.results[j].guid)
  {
    seq(|resp.results|, j requires 0 <= j < |resp.results| => IdOf(resp.results[j].guid))
  }

  /** The ids of all records of all answered queries, in order. */
  function IdsOf(responses: seq<Option<SuggestResponse>>): (r: seq<string>)
  {
    if responses == [] then []
    else
      var last := responses[|responses| - 1];
      IdsOf(responses[..|responses| - 1])
      + (if last.None? then [] else ResponseIds(last.value))
  }

  /** The ids are those of the answered queries' records, query by query in order: a
      further answered query adds its records' ids last, an unanswered one adds none. */
  lemma IdsOfAppend(responses: seq<Option<SuggestResponse>>, last: Option<SuggestResponse>)
    ensures IdsOf(responses + [last]) == IdsOf(responses) + if last.Some? then ResponseIds(last.value) else []
  {
    assert (responses + [last])[..|responses|] == responses;
  }

  /** Every id read is the id of a record of an answered query, and every record of an
      answered query gives its id. */
  lemma {:induction false} IdsOfMembers(responses: seq<Option<SuggestResponse>>)
    ensures forall id :: id in IdsOf(responses) ==>
      exists i :: 0 <= i < |responses| && responses[i].Some? && id in ResponseIds(responses[i].value)
    ensures forall i, j :: 0 <= i < |responses| && responses[i].Some? && 0 <= j < |responses[i].value.results| ==>
      IdOf(responses[i].value.results[j].guid) in IdsOf(responses)
  {
    if responses != [] {
      var init, last := responses[..|responses| - 1], responses[|responses| - 1];
      IdsOfMembers(init);
      assert responses == init + [last];
      IdsOfAppend(init, last);
      var extra := if last.Some? then ResponseIds(last.value) else [];
      forall id | id in IdsOf(responses)
        ensures exists i :: 0 <= i < |responses| && responses[i].Some? && id in ResponseIds(responses[i].value)
      {
        if id in IdsOf(init) {
          var i :| 0 <= i < |init| && init[i].Some? && id in ResponseIds(init[i].value);
          assert responses[i] == init[i];
        } else {
          assert id in extra;
        }
      }
      forall i, j | 0 <= i < |responses| && responses[i].Some? && 0 <= j < |responses[i].value.results|
        ensures IdOf(responses[i].value.results[j].guid) in IdsOf(responses)
      {
        if i < |init| {
          assert responses[i] == init[i];
        } else {
          assert ResponseIds(last.value)[j] == IdOf(responses[i].value.results[j].guid);
        }
      }
    }
  }

  /** As written, the ids are read from every response, and a query whose suggest call
      failed (None) makes `response['results']` raise. */
  function IdsAsWritten(responses: seq<Option<SuggestResponse>>): (r: Result<seq<string>>)
    ensures r.Ok? <==> forall i :: 0 <= i < |responses| ==> responses[i].Some?
  {
    if responses == [] then Ok([])
    else
      var last := responses[|responses| - 1];
      var rest := IdsAsWritten(responses[..|responses| - 1]);
      assert forall i :: 0 <= i < |responses| - 1 ==> responses[..|responses| - 1][i] == responses[i];
      if last.None? then Err(Crash)
      else if rest.Err? then rest
      else Ok(rest.value + ResponseIds(last.value))
  }

  /** Where every query was answered the two agree; where one was not, the source
      raises although the other answers are there. */
  lemma {:induction false} IdsAsWrittenAgrees(responses: seq<Option<SuggestResponse>>)
    ensures IdsAsWritten(responses).Ok? ==> IdsAsWritten(responses).value == IdsOf(responses)
  {
    if responses != [] {
      IdsAsWrittenAgrees(responses[..|responses| - 1]);
    }
  }

  /** A single title whose suggest call answers 404 makes the whole search raise. */
  lemma FailedSuggestCrashes(fetch: string -> HttpResponse, decode: string -> Option<SuggestPayload>, title: string)
    requires Strip(title) != []
    requires fetch(SuggestPath(Strip(title)).value).status == 404
    ensures var d := Details(Strip(title), None, fetch(SuggestPath(Strip(title)).value), decode);
      d == Ok(None) && IdsAsWritten([d.value]).Err?
  {
  }

  /** The index of the first translation whose title id ends the GUID. */
  function FirstTranslation(guid: string, infos: seq<Translation>): (r: Option<nat>)
    ensures r.Some? ==> r.value < |infos| && EndsWith(guid, infos[r.value].titleId)
    ensures r.Some? ==> forall k :: 0 <= k < r.value ==> !EndsWith(guid, infos[k].titleId)
    ensures r.None? ==> forall k :: 0 <= k < |infos| ==> !EndsWith(guid, infos[k].titleId)
  {
    if infos == [] then None
    else if EndsWith(guid, infos[0].titleId) then Some(0)
    else
      var r := FirstTranslation(guid, infos[1..]);
      if r.Some? then Some(r.value + 1) else None
  }

  /** Overriding the title raises when the first matching translation has no title. */
  predicate Breaks(x: MediaRecord, infos: seq<Translation>) {
    var f := FirstTranslation(x.guid, infos);
    f.Some? && infos[f.value].title.None?
  }

  /** The record with the title of the first matching translation, if any. */
  function Translated(x: MediaRecord, infos: seq<Translation>): (r: MediaRecord)
    requires !Breaks(x, infos)
    ensures r.guid == x.guid && r.kind == x.kind && r.year == x.year && r.poster == x.poster
    ensures (forall k :: 0 <= k < |infos| ==> !EndsWith(x.guid, infos[k].titleId)) ==> r == x
    ensures forall k :: (0 <= k < |infos| && EndsWith(x.guid, infos[k].titleId)
      && forall k' :: 0 <= k' < k ==> !EndsWith(x.guid, infos[k'].titleId)) ==> Some(r.title) == infos[k].title
  {
    var f := FirstTranslation(x.guid, infos);
    if f.None? then x else x.(title := infos[f.value].title.value)
  }

  /** Translating twice changes nothing more: the GUID decides the title. */
  lemma TranslatedIdempotent(x: MediaRecord, infos: seq<Translation>)
    requires !Breaks(x, infos)
    ensures !Breaks(Translated(x, infos), infos)
    ensures Translated(Translated(x, infos), infos) == Translated(x, infos)
  {
  }

  predicate ResponseBreaks(resp: Option<SuggestResponse>, infos: seq<Translation>) {
    resp.Some? && exists j :: 0 <= j < |resp.value.results| && Breaks(resp.value.results[j], infos)
  }

  function TranslatedResponse(resp: Option<SuggestResponse>, infos: seq<Translation>): Option<SuggestResponse>
    requires !ResponseBreaks(resp, infos)
  {
    if resp.None? then None
    else
      var rs := resp.value.results;
      Some(resp.value.(results := seq(|rs|, j requires 0 <= j < |rs| => Translated(rs[j], infos))))
  }

  /** The title override over every answered query: each record titled by its
      translation, or a 500 when a matching translation has no title. */
  function Overridden(responses: seq<Option<SuggestResponse>>, infos: seq<Translation>)
    : (r: Result<seq<Option<SuggestResponse>>>)
    ensures r.Err? ==> r.error == Crash
  {
    if exists i :: 0 <= i < |responses| && ResponseBreaks(responses[i], infos) then Err(Crash)
    else Ok(seq(|responses|, i requires 0 <= i < |responses| => TranslatedResponse(responses[i], infos)))
  }

  /** An override that succeeds keeps one response per query, unanswered where the
      query was, with the same query and, in the same order, every record titled by
      its translation. */
  lemma OverriddenRecords(responses: seq<Option<SuggestResponse>>, infos: seq<Translation>)
    requires Overridden(responses, infos).Ok?
    ensures |Overridden(responses, infos).value| == |responses|
    ensures forall i :: 0 <= i < |responses| ==>
      var o := Overridden(responses, infos).value[i];
      && (o.None? <==> responses[i].None?)
      && (responses[i].Some? ==>
            && o.value.query == responses[i].value.query
            && |o.value.results| == |responses[i].value.results|
            && forall j :: 0 <= j < |o.value.results| ==>
                 !Breaks(responses[i].value.results[j], infos) && o.value.results[j] == Translated(responses[i].value.results[j], infos))
  {
    forall i | 0 <= i < |responses|
      ensures !ResponseBreaks(responses[i], infos)
    {
    }
  }

  /** A query left unanswered neither fails the override nor changes the other responses. */
  lemma OverriddenSkipsNone(responses: seq<Option<SuggestResponse>>, infos: seq<Translation>)
    ensures Overridden(responses + [None], infos).Ok? <==> Overridden(responses, infos).Ok?
    ensures Overridden(responses + [None], infos).Ok? ==>
      Overridden(responses + [None], infos).value == Overridden(responses, infos).value + [None]
  {
    var ext := responses + [None];
    assert forall i :: 0 <= i < |ext| ==>
      (ResponseBreaks(ext[i], infos) <==> i < |responses| && ResponseBreaks(responses[i], infos));
  }

  /** The translated records of one response, overwritten one by one. */
  method TranslateResults(rs: seq<MediaRecord>, infos: seq<Translation>) returns (r: Result<seq<MediaRecord>>)
    ensures r.Err? <==> exists j :: 0 <= j < |rs| && Breaks(rs[j], infos)
    ensures r.Ok? ==> |r.value| == |rs| && forall j :: 0 <= j < |rs| ==> !Breaks(rs[j], infos) && r.value[j] == Translated(rs[j], infos)
  {
    var out := rs;
    var j := 0;
    while j < |rs|
      invariant 0 <= j <= |rs| && |out| == |rs|
      invariant forall k :: 0 <= k < j ==> !Breaks(rs[k], infos) && out[k] == Translated(rs[k], infos)
      invariant forall k :: j <= k < |rs| ==> out[k] == rs[k]
    {
      var f := FirstTranslation(out[j].guid, infos);
      if f.Some? {
        if infos[f.value].title.None? {
          return Err(Crash);
        }
        out := out[j := out[j].(title := infos[f.value].title.value)];
      }
      j := j + 1;
    }
    return Ok(out);
  }

  /** The title override of `search_media_by_name`, in place over every record of every
      answered query. */
  method TranslateAll(responses: seq<Option<SuggestResponse>>, infos: seq<Translation>)
    returns (r: Result<seq<Option<SuggestResponse>>>)
    ensures r.Err? <==> exists i :: 0 <= i < |responses| && ResponseBreaks(responses[i], infos)
    ensures r.Ok? ==> |r.value| == |responses|
    ensures r.Ok? ==> forall i :: 0 <= i < |responses| ==>
      !ResponseBreaks(responses[i], infos) && r.value[i] == TranslatedResponse(responses[i], infos)
    ensures r == Overridden(responses, infos)
  {
    var out := responses;
    var i := 0;
    while i < |responses|
      invariant 0 <= i <= |responses| && |out| == |responses|
      invariant forall k :: 0 <= k < i ==> !ResponseBreaks(responses[k], infos) && out[k] == TranslatedResponse(responses[k], infos)
      invariant forall k :: i <= k < |responses| ==> out[k] == responses[k]
    {
      if responses[i].Some? {
        var rs := TranslateResults(responses[i].value.results, infos);
        if rs.Err? {
          return Err(Crash);
        }
        assert TranslatedResponse(responses[i], infos).value.results == rs.value;
        out := out[i := Some(responses[i].value.(results := rs.value))];
      }
      i := i + 1;
    }
    assert out == Overridden(responses, infos).value;
    return Ok(out);
  }

  /** The suggest answer of one title: the stripped title is the query, an empty one raises. */
  function Answer(title: string, mediaType: Option<string>, fetch: string -> HttpResponse,
                  decode: string -> Option<SuggestPayload>): (r: Result<Option<SuggestResponse>>)
    ensures Strip(title) == [] ==> r.Err?
    ensures r.Err? ==> r.error == Crash
    ensures r.Ok? && r.value.Some? ==> r.value.value.query == Strip(title)
  {
    var query := Strip(title);
    match SuggestPath(query)
    case Err(e) => Err(e)
    case Ok(path) => Details(query, mediaType, fetch(path), decode)
  }

  /** The suggest answers of every title, in order; the first that raises ends the search. */
  method Gather(titles: seq<string>, mediaType: Option<string>, fetch: string -> HttpResponse,
                decode: string -> Option<SuggestPayload>)
    returns (r: Result<seq<Option<SuggestResponse>>>)
    ensures r.Ok? <==> forall i :: 0 <= i < |titles| ==> Answer(titles[i], mediaType, fetch, decode).Ok?
    ensures r.Ok? ==> |r.value| == |titles|
    ensures r.Ok? ==> forall i :: 0 <= i < |titles| ==> Answer(titles[i], mediaType, fetch, decode) == Ok(r.value[i])
    ensures r.Err? ==> r.error == Crash
  {
    r := GatherAll(titles, t => Answer(t, mediaType, fetch, decode));
  }

  /** `asyncio.gather` of one task per element: the results in order, or the first
      exception raised. */
  method GatherAll<T, U>(xs: seq<T>, task: T -> Result<U>) returns (r: Result<seq<U>>)
    ensures r.Ok? <==> forall i :: 0 <= i < |xs| ==> task(xs[i]).Ok?
    ensures r.Ok? ==> |r.value| == |xs|
    ensures r.Ok? ==> forall i :: 0 <= i < |xs| ==> task(xs[i]) == Ok(r.value[i])
    ensures r.Err? ==> exists i :: 0 <= i < |xs| && task(xs[i]) == Err(r.error)
  {
    var out: seq<U> := [];
    var i := 0;
    while i < |xs|
      invariant 0 <= i <= |xs| && |out| == i
      invariant forall k :: 0 <= k < i ==> task(xs[k]) == Ok(out[k])
    {
      var d := task(xs[i]);
      if d.Err? {
        return Err(d.error);
      }
      out := out + [d.value];
      i := i + 1;
    }
    return Ok(out);
  }

  /** The suggest answers of every title, in order, or the first raise. */
  function Answers(titles: seq<string>, mediaType: Option<string>, fetch: string -> HttpResponse,
                   decode: string -> Option<SuggestPayload>): (r: Result<seq<Option<SuggestResponse>>>)
    ensures r.Err? <==> exists i :: 0 <= i < |titles| && Answer(titles[i], mediaType, fetch, decode).Err?
    ensures r.Ok? ==> |r.value| == |titles|
    ensures r.Ok? ==> forall i :: 0 <= i < |titles| ==> Answer(titles[i], mediaType, fetch, decode) == Ok(r.value[i])
  {
    Wrappers.Gather(titles, Asker(mediaType, fetch, decode))
  }

  /** The suggest call of one title, as the worker handed to the gathering. */
  function Asker(mediaType: Option<string>, fetch: string -> HttpResponse, decode: string -> Option<SuggestPayload>)
    : (w: string -> Result<Option<SuggestResponse>>)
    ensures forall t :: w(t) == Answer(t, mediaType, fetch, decode)
  {
    t => Answer(t, mediaType, fetch, decode)
  }

  /** The translations looked up, in Italian, for the ids of the answered queries. */
  function TitleInfos(answers: seq<Option<SuggestResponse>>, mediaType: Option<string>,
                      run: (QueryKind, string, string) -> Option<seq<string>>, parse: string -> Option<Translation>)
    : seq<Translation>
  {
    MediaById(IdsOf(answers), mediaType.GetOr(""), true, "IT", run, parse)
  }

  /** `search_media_by_name` with the ids read only from the answered queries: the
      answers of every title, each answered query's records titled by their
      translations; a raising suggest call, or a matching translation without a
      title, fails the search with a 500. */
  function SearchByName(titles: seq<string>, mediaType: Option<string>, fetch: string -> HttpResponse,
                        decode: string -> Option<SuggestPayload>,
                        run: (QueryKind, string, string) -> Option<seq<string>>, parse: string -> Option<Translation>)
    : (r: Result<seq<Option<SuggestResponse>>>)
    ensures r.Err? ==> r.error == Crash
    ensures (exists i :: 0 <= i < |titles| && Strip(titles[i]) == []) ==> r.Err?
  {
    var answers := Answers(titles, mediaType, fetch, decode);
    if answers.Err? then Err(Crash)
    else Overridden(answers.value, TitleInfos(answers.value, mediaType, run, parse))
  }

  /** The search fails exactly when a suggest call raises, or every call is answered
      and a matching translation of some record has no title; otherwise each response
      is its title's suggest answer, with the same query and, in the same order,
      every record titled by its translation. */
  lemma SearchByNameRecords(titles: seq<string>, mediaType: Option<string>, fetch: string -> HttpResponse,
                            decode: string -> Option<SuggestPayload>,
                            run: (QueryKind, string, string) -> Option<seq<string>>, parse: string -> Option<Translation>)
    ensures var r := SearchByName(titles, mediaType, fetch, decode, run, parse);
      var a := Answers(titles, mediaType, fetch, decode);
      r.Err? <==> ((exists i :: 0 <= i < |titles| && Answer(titles[i], mediaType, fetch, decode).Err?)
                   || (a.Ok? && exists i :: 0 <= i < |titles| && ResponseBreaks(a.value[i], TitleInfos(a.value, mediaType, run, parse))))
    ensures var r := SearchByName(titles, mediaType, fetch, decode, run, parse);
      r.Ok? ==> |r.value| == |titles|
    ensures var r := SearchByName(titles, mediaType, fetch, decode, run, parse);
      var answers := Answers(titles, mediaType, fetch, decode);
      r.Ok? ==> answers.Ok? && var infos := TitleInfos(answers.value, mediaType, run, parse);
      forall i :: 0 <= i < |titles| ==>
        var a := Answer(titles[i], mediaType, fetch, decode);
        && a.Ok? && (r.value[i].None? <==> a.value.None?)
        && (a.value.Some? ==>
              && r.value[i].value.query == a.value.value.query == Strip(titles[i])
              && |r.value[i].value.results| == |a.value.value.results|
              && forall j :: 0 <= j < |r.value[i].value.results| ==>
                   !Breaks(a.value.value.results[j], infos) && r.value[i].value.results[j] == Translated(a.value.value.results[j], infos))
  {
    var r := SearchByName(titles, mediaType, fetch, decode, run, parse);
    var a := Answers(titles, mediaType, fetch, decode);
    if a.Ok? {
      var infos := TitleInfos(a.value, mediaType, run, parse);
      assert r == Overridden(a.value, infos);
      if r.Ok? {
        OverriddenRecords(a.value, infos);
        forall i | 0 <= i < |titles|
          ensures var x := Answer(titles[i], mediaType, fetch, decode);
            && x.Ok? && (r.value[i].None? <==> x.value.None?)
            && (x.value.Some? ==>
                  && r.value[i].value.query == x.value.value.query == Strip(titles[i])
                  && |r.value[i].value.results| == |x.value.value.results|
                  && forall j :: 0 <= j < |r.value[i].value.results| ==>
                       !Breaks(x.value.value.results[j], infos) && r.value[i].value.results[j] == Translated(x.value.value.results[j], infos))
        {
          var x := Answer(titles[i], mediaType, fetch, decode);
          assert x == Ok(a.value[i]);
        }
      }
    }
  }

  /** A title whose suggest call gets no answer (refused, or not decodable) adds a
      None to the responses and changes nothing else: it neither fails the search nor
      adds an id to look up. */
  lemma RefusedTitleIsSkipped(titles: seq<string>, t: string, mediaType: Option<string>, fetch: string -> HttpResponse,
                              decode: string -> Option<SuggestPayload>,
                              run: (QueryKind, string, string) -> Option<seq<string>>, parse: string -> Option<Translation>)
    requires Answer(t, mediaType, fetch, decode) == Ok(None)
    ensures SearchByName(titles + [t], mediaType, fetch, decode, run, parse).Ok?
      <==> SearchByName(titles, mediaType, fetch, decode, run, parse).Ok?
    ensures SearchByName(titles + [t], mediaType, fetch, decode, run, parse).Ok? ==>
      SearchByName(titles + [t], mediaType, fetch, decode, run, parse).value
        == SearchByName(titles, mediaType, fetch, decode, run, parse).value + [None]
  {
    var a := Answers(titles, mediaType, fetch, decode);
    var b := Answers(titles + [t], mediaType, fetch, decode);
    Wrappers.GatherAppend(titles, t, Asker(mediaType, fetch, decode));
    if a.Ok? {
      assert b.Ok? && b.value == a.value + [None];
      IdsOfAppend(a.value, None);
      assert IdsOf(b.value) == IdsOf(a.value) + [] == IdsOf(a.value);
      assert TitleInfos(b.value, mediaType, run, parse) == TitleInfos(a.value, mediaType, run, parse);
      OverriddenSkipsNone(a.value, TitleInfos(a.value, mediaType, run, parse));
    }
  }

  /** `search_media_by_name`, with the ids read only from the answered queries: the
      gathered answers, then the title override in place. */
  method SearchMediaByName(titles: seq<string>, mediaType: Option<string>, fetch: string -> HttpResponse,
                           decode: string -> Option<SuggestPayload>,
                           run: (QueryKind, string, string) -> Option<seq<string>>, parse: string -> Option<Translation>)
    returns (r: Result<seq<Option<SuggestResponse>>>)
    ensures r == SearchByName(titles, mediaType, fetch, decode, run, parse)
  {
    var responses := Gather(titles, mediaType, fetch, decode);
    ghost var answers := Answers(titles, mediaType, fetch, decode);
    if responses.Err? {
      return responses;
    }
    assert responses.value == answers.value;
    var infos := MediaById(IdsOf(responses.value), mediaType.GetOr(""), true, "IT", run, parse);
    r := TranslateAll(responses.value, infos);
  }
}
