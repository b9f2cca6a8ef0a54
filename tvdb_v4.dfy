/** The TheTVDB v4 adapter (`TVDBClient` in app/libs/tvdb.py): search, movie
    details and show details, from decoded API payloads to the normalised records.
    The HTTP calls are left out; each operation takes the decoded response. */
module TvdbV4 {
  import opened Wrappers
  import opened Text
  import opened MediaModel
  import opened Sorting

  const SeriesUrlPrefix := "https://thetvdb.com/series/"
  const MoviesUrlPrefix := "https://thetvdb.com/movies/"

  /** The canonical labels of the status enums (`MovieStatus.X.value`), which the
      lenient search match compares against. */
  datatype StatusLabels = StatusLabels(movie: MovieStatus -> string, show: ShowStatus -> string)

  // ---------------------------------------------------------------- search

  /** One element of the `/search` response's `data` list. `name` and `image_url`
      are read without a presence test; the other keys may be missing. */
  datatype SearchItem = SearchItem(
    kind: string,
    tvdbId: nat,
    name: Option<string>,
    translations: Option<map<string, string>>,
    overviews: Option<map<string, string>>,
    overview: Option<string>,
    thumbnail: Option<string>,
    imageUrl: string,
    firstAirTime: Option<string>,
    year: Option<string>,
    slug: Option<string>,
    status: Option<string>)

  /** The query parameters of the search call: the query, and the type when one is given. */
  function SearchParams(query: string, kind: Option<MediaType>): (r: seq<(string, string)>)
    ensures |r| >= 1 && r[0] == ("query", query)
    ensures |r| == 2 <==> kind.Some?
    ensures kind == Some(MovieType) ==> r[1] == ("type", "movie")
    ensures kind == Some(SeriesType) ==> r[1] == ("type", "series")
  {
    match kind
    case None => [("query", query)]
    case Some(t) => [("query", query), ("type", t.Value())]
  }

  /** The Italian entry of a translation map, else the English one, else `fallback`. */
  function ItalianThenEnglish(m: Option<map<string, string>>, fallback: Option<string>): (r: Option<string>)
    ensures m.Some? && "ita" in m.value ==> r == Some(m.value["ita"])
    ensures m.Some? && "ita" !in m.value && "eng" in m.value ==> r == Some(m.value["eng"])
    ensures (m.None? || ("ita" !in m.value && "eng" !in m.value)) ==> r == fallback
  {
    if m.Some? && "ita" in m.value then Some(m.value["ita"])
    else if m.Some? && "eng" in m.value then Some(m.value["eng"])
    else fallback
  }

  /** The upstream `status` names a canonical label `canon` when the lower-cased
      label contains the lower-cased status. */
  predicate Names(canon: string, status: string) {
    Contains(Lower(canon), Lower(status))
  }

  /** The first entry of `table` whose label `hit` accepts. */
  function FirstHit<T>(table: seq<(string, T)>, hit: string -> bool): (r: Option<T>)
    ensures r.None? <==> forall i :: 0 <= i < |table| ==> !hit(table[i].0)
    ensures r.Some? ==> exists i :: (0 <= i < |table| && table[i].1 == r.value && hit(table[i].0)
                                     && forall j :: 0 <= j < i ==> !hit(table[j].0))
  {
    if table == [] then None
    else if hit(table[0].0) then Some(table[0].1)
    else
      var r := FirstHit(table[1..], hit);
      assert r.Some? ==> exists i :: (1 <= i < |table| && table[i].1 == r.value && hit(table[i].0)
                                      && forall j :: 0 <= j < i ==> !hit(table[j].0)) by {
        if r.Some? {
          var i :| 0 <= i < |table[1..]| && table[1..][i].1 == r.value && hit(table[1..][i].0)
            && forall j :: 0 <= j < i ==> !hit(table[1..][j].0);
          assert forall j :: 1 <= j < i + 1 ==> table[j] == table[1..][j - 1];
        }
      }
      r
  }

  /** The first entry of `table` whose lower-cased label contains the lower-cased
      `status`: the upstream label must be a piece of the canonical one. */
  function FirstContaining<T>(status: string, table: seq<(string, T)>): (r: Option<T>)
    ensures r.None? <==> forall i :: 0 <= i < |table| ==> !Names(table[i].0, status)
    ensures r.Some? ==> exists i :: (0 <= i < |table| && table[i].1 == r.value
                                     && Names(table[i].0, status)
                                     && forall j :: 0 <= j < i ==> !Names(table[j].0, status))
  {
    FirstHit(table, (c: string) => Names(c, status))
  }

  /** The entry found is the first one whose label names the status. */
  lemma FirstContainingAt<T>(status: string, table: seq<(string, T)>, k: nat)
    requires k < |table| && Names(table[k].0, status)
    requires forall j :: 0 <= j < k ==> !Names(table[j].0, status)
    ensures FirstContaining(status, table) == Some(table[k].1)
  {
    var r := FirstContaining(status, table);
    var i :| 0 <= i < |table| && table[i].1 == r.value && Names(table[i].0, status)
      && forall j :: 0 <= j < i ==> !Names(table[j].0, status);
    assert i == k;
  }

  function MovieTable(labels: StatusLabels): seq<(string, MovieStatus)> {
    [ (labels.movie(Announced), Announced), (labels.movie(PreProduction), PreProduction),
      (labels.movie(PostProduction), PostProduction), (labels.movie(Completed), Completed),
      (labels.movie(Released), Released) ]
  }

  function ShowTable(labels: StatusLabels): seq<(string, ShowStatus)> {
    [ (labels.show(Upcoming), Upcoming), (labels.show(Ongoing), Ongoing),
      ("Continuing", Ongoing), (labels.show(Ended), Ended) ]
  }

  /** The status of a movie search hit; a missing or empty status gives None. */
  function MovieSearchStatus(labels: StatusLabels, status: Option<string>): (r: Option<MovieStatus>)
    ensures !Truthy(status) ==> r.None?
    ensures r.Some? ==> r.value != Rumored && r.value != Canceled
    ensures Truthy(status) ==>
      (r.None? <==> forall i :: 0 <= i < |MovieTable(labels)| ==> !Names(MovieTable(labels)[i].0, status.value))
  {
    if Truthy(status) then
      var t := MovieTable(labels);
      assert forall i :: 0 <= i < |t| ==> t[i].1 != Rumored && t[i].1 != Canceled;
      FirstContaining(status.value, t)
    else None
  }

  /** The status of a series search hit; a missing or empty status gives None. */
  function ShowSearchStatus(labels: StatusLabels, status: Option<string>): (r: Option<ShowStatus>)
    ensures !Truthy(status) ==> r.None?
    ensures Truthy(status) ==>
      (r.None? <==> forall i :: 0 <= i < |ShowTable(labels)| ==> !Names(ShowTable(labels)[i].0, status.value))
  {
    if Truthy(status) then FirstContaining(status.value, ShowTable(labels)) else None
  }

  /** "Continuing" is taken as ONGOING, unless the UPCOMING label already contains it
      (ignoring case). */
  lemma ContinuingIsOngoing(labels: StatusLabels, status: string)
    requires status == "Continuing"
    requires !Names(labels.show(Upcoming), status)
    ensures ShowSearchStatus(labels, Some(status)) == Some(Ongoing)
  {
    var t := ShowTable(labels);
    NamesItself(status);
    assert t[2].0 == status;
    assert FirstContaining(status, t) == FirstContaining(status, t[1..]);
    if !Names(t[1].0, status) {
      assert FirstContaining(status, t[1..]) == FirstContaining(status, t[2..]);
    }
  }

  lemma NamesItself(status: string)
    ensures Names(status, status)
  {
    ContainsAt(Lower(status), Lower(status), 0);
  }

  /** An upstream label the canonical label of its own status contains, and no earlier
      canonical label contains, is mapped to that status. */
  lemma MovieStatusFromLabel(labels: StatusLabels, status: string, k: nat)
    requires status != [] && k < 5
    requires Names(MovieTable(labels)[k].0, status)
    requires forall j :: 0 <= j < k ==> !Names(MovieTable(labels)[j].0, status)
    ensures MovieSearchStatus(labels, Some(status)) == Some(MovieTable(labels)[k].1)
  {
    FirstContainingAt(status, MovieTable(labels), k);
  }

  /** An upstream label contained in the canonical label of the k-th check (UPCOMING,
      ONGOING, "Continuing", ENDED), and in no earlier one, is mapped to that check's
      status. */
  lemma ShowStatusFromLabel(labels: StatusLabels, status: string, k: nat)
    requires status != [] && k < 4
    requires Names(ShowTable(labels)[k].0, status)
    requires forall j :: 0 <= j < k ==> !Names(ShowTable(labels)[j].0, status)
    ensures ShowSearchStatus(labels, Some(status)) == Some(ShowTable(labels)[k].1)
  {
    FirstContainingAt(status, ShowTable(labels), k);
  }

  function SearchImage(item: SearchItem): (r: Option<string>)
    ensures Truthy(item.thumbnail) ==> r == item.thumbnail
    ensures !Truthy(item.thumbnail) ==> r == Some(item.imageUrl)
  {
    if Truthy(item.thumbnail) then item.thumbnail else Some(item.imageUrl)
  }

  /** The text handed to the date parser: the first air time, else 01/01 of the year. */
  function SearchAirdate(item: SearchItem): (r: Option<string>)
    ensures Truthy(item.firstAirTime) ==> r == item.firstAirTime
    ensures !Truthy(item.firstAirTime) && Truthy(item.year) ==> r == Some("01/01/" + item.year.value)
    ensures !Truthy(item.firstAirTime) && !Truthy(item.year) ==> r.None?
  {
    if Truthy(item.firstAirTime) then item.firstAirTime
    else if Truthy(item.year) then Some("01/01/" + item.year.value)
    else None
  }

  function SearchUrl(prefix: string, slug: Option<string>): Option<string> {
    if Truthy(slug) then Some(prefix + slug.value) else None
  }

  function MovieOfItem(labels: StatusLabels, item: SearchItem): Movie {
    Movie(
      "tvdb://" + item.kind + "/" + NatToString(item.tvdbId), item.tvdbId,
      SearchUrl(MoviesUrlPrefix, item.slug),
      ItalianThenEnglish(item.translations, item.name),
      ItalianThenEnglish(item.overviews, item.overview),
      SearchImage(item), SearchAirdate(item), None,
      MovieSearchStatus(labels, item.status))
  }

  function ShowOfItem(labels: StatusLabels, item: SearchItem): Show {
    Show(
      "tvdb://" + item.kind + "/" + NatToString(item.tvdbId), item.tvdbId,
      SearchUrl(SeriesUrlPrefix, item.slug),
      ItalianThenEnglish(item.translations, item.name),
      ItalianThenEnglish(item.overviews, item.overview),
      SearchImage(item), SearchAirdate(item),
      ShowSearchStatus(labels, item.status), [])
  }

  /** The search result of a list of hits, built from the last hit backwards. */
  function SearchOf(labels: StatusLabels, items: seq<SearchItem>): SearchResult
    decreases |items|
  {
    if items == [] then SearchResult([], [])
    else
      var r := SearchOf(labels, items[..|items| - 1]);
      var item := items[|items| - 1];
      if item.kind == "movie" then r.(movies := r.movies + [MovieOfItem(labels, item)])
      else if item.kind == "series" then r.(series := r.series + [ShowOfItem(labels, item)])
      else r
  }

  /** `do_search` on the decoded response: hits that are neither movies nor series are
      skipped; the rest go to `movies` or `series`, in the order of the response. */
  method DoSearch(labels: StatusLabels, items: seq<SearchItem>) returns (result: SearchResult)
    ensures result == SearchOf(labels, items)
  {
    result := SearchResult([], []);
    for i := 0 to |items|
      invariant result == SearchOf(labels, items[..i])
    {
      assert items[..i + 1][..i] == items[..i];
      var item := items[i];
      if !(item.kind in ["movie", "series"]) {
        continue;
      }
      if item.kind == "movie" {
        result := result.(movies := result.movies + [MovieOfItem(labels, item)]);
      } else {
        result := result.(series := result.series + [ShowOfItem(labels, item)]);
      }
    }
    assert items[..|items|] == items;
  }

  function CountKind(items: seq<SearchItem>, kind: string): (n: nat)
    ensures n <= |items|
  {
    if items == [] then 0
    else CountKind(items[..|items| - 1], kind) + (if items[|items| - 1].kind == kind then 1 else 0)
  }

  /** Every movie and every series hit is kept once, and nothing else is. */
  lemma {:induction false} SearchCounts(labels: StatusLabels, items: seq<SearchItem>)
    ensures |SearchOf(labels, items).movies| == CountKind(items, "movie")
    ensures |SearchOf(labels, items).series| == CountKind(items, "series")
    decreases |items|
  {
    if items != [] {
      SearchCounts(labels, items[..|items| - 1]);
    }
  }

  /** The result of a concatenation of hit lists is the concatenation of the results:
      the hits keep their relative order. */
  lemma {:induction false} SearchOfAppend(labels: StatusLabels, a: seq<SearchItem>, b: seq<SearchItem>)
    ensures SearchOf(labels, a + b).movies == SearchOf(labels, a).movies + SearchOf(labels, b).movies
    ensures SearchOf(labels, a + b).series == SearchOf(labels, a).series + SearchOf(labels, b).series
    decreases |b|
  {
    if b == [] {
      assert a + b == a;
    } else {
      var b' := b[..|b| - 1];
      assert (a + b)[..|a + b| - 1] == a + b';
      assert (a + b)[|a + b| - 1] == b[|b| - 1];
      SearchOfAppend(labels, a, b');
    }
  }

  /** Every movie carries the GUID `tvdb://movie/<id>` of its own source id, and every
      series `tvdb://series/<id>`. */
  lemma SearchGuids(labels: StatusLabels, items: seq<SearchItem>)
    ensures forall m :: m in SearchOf(labels, items).movies ==>
      m.sourceId >= 0 && m.guid == "tvdb://movie/" + NatToString(m.sourceId)
    ensures forall s :: s in SearchOf(labels, items).series ==>
      s.sourceId >= 0 && s.guid == "tvdb://series/" + NatToString(s.sourceId)
  {
    MovieGuids(labels, items);
    SeriesGuids(labels, items);
  }

  lemma {:induction false} MovieGuids(labels: StatusLabels, items: seq<SearchItem>)
    ensures forall m :: m in SearchOf(labels, items).movies ==>
      m.sourceId >= 0 && m.guid == "tvdb://movie/" + NatToString(m.sourceId)
    decreases |items|
  {
    if items != [] {
      MovieGuids(labels, items[..|items| - 1]);
    }
  }

  lemma {:induction false} SeriesGuids(labels: StatusLabels, items: seq<SearchItem>)
    ensures forall s :: s in SearchOf(labels, items).series ==>
      s.sourceId >= 0 && s.guid == "tvdb://series/" + NatToString(s.sourceId)
    decreases |items|
  {
    if items != [] {
      SeriesGuids(labels, items[..|items| - 1]);
    }
  }

  // ---------------------------------------------------------------- details

  /** One entry of `nameTranslations` / `overviewTranslations`. */
  datatype Translation = Translation(language: string, text: Option<string>)

  /** The first translation in the given language. */
  function FirstInLanguage(ts: seq<Translation>, lang: string): (r: Option<nat>)
    ensures r.Some? ==> r.value < |ts| && ts[r.value].language == lang
    ensures r.Some? ==> forall j :: 0 <= j < r.value ==> ts[j].language != lang
    ensures r.None? ==> forall j :: 0 <= j < |ts| ==> ts[j].language != lang
  {
    if ts == [] then None
    else if ts[0].language == lang then Some(0)
    else match FirstInLanguage(ts[1..], lang)
      case None => None
      case Some(i) => Some(i + 1)
  }

  /** The text of the first Italian translation, else of the first English one,
      else `fallback`. */
  function PreferredText(ts: seq<Translation>, fallback: Option<string>): (r: Option<string>)
    ensures forall i :: (0 <= i < |ts| && ts[i].language == "ita"
                         && (forall j :: 0 <= j < i ==> ts[j].language != "ita")) ==> r == ts[i].text
    ensures (forall i :: 0 <= i < |ts| ==> ts[i].language != "ita") ==>
      forall i :: (0 <= i < |ts| && ts[i].language == "eng"
                   && (forall j :: 0 <= j < i ==> ts[j].language != "eng")) ==> r == ts[i].text
    ensures (forall i :: 0 <= i < |ts| ==> ts[i].language != "ita" && ts[i].language != "eng") ==>
      r == fallback
  {
    match FirstInLanguage(ts, "ita")
    case Some(i) => ts[i].text
    case None =>
      match FirstInLanguage(ts, "eng")
      case Some(i) => ts[i].text
      case None => fallback
  }

  /** The movie status by TheTVDB status id; any other id gives None. */
  function MovieStatusById(id: int): (r: Option<MovieStatus>)
    ensures r == Some(Announced) <==> id == 1
    ensures r == Some(PreProduction) <==> id == 2
    ensures r == Some(PostProduction) <==> id == 3
    ensures r == Some(Completed) <==> id == 4
    ensures r == Some(Released) <==> id == 5
    ensures r.None? <==> !(1 <= id <= 5)
  {
    if id == 1 then Some(Announced)
    else if id == 2 then Some(PreProduction)
    else if id == 3 then Some(PostProduction)
    else if id == 4 then Some(Completed)
    else if id == 5 then Some(Released)
    else None
  }

  /** The show status by TheTVDB status id; any other id gives None. */
  function ShowStatusById(id: int): (r: Option<ShowStatus>)
    ensures r == Some(Upcoming) <==> id == 3
    ensures r == Some(Ongoing) <==> id == 1
    ensures r == Some(Ended) <==> id == 2
    ensures r.None? <==> !(1 <= id <= 3)
  {
    if id == 3 then Some(Upcoming)
    else if id == 1 then Some(Ongoing)
    else if id == 2 then Some(Ended)
    else None
  }

  /** The `data` object of `/movies/{id}/extended`. Keys tested with `in` are optional. */
  datatype MovieDetail = MovieDetail(
    id: nat,
    slug: Option<string>,
    name: Option<string>,
    nameTranslations: seq<Translation>,
    overviewTranslations: seq<Translation>,
    image: Option<string>,
    firstReleaseDate: Option<string>,
    runtime: Option<int>,
    statusId: int)

  /** `get_movie` on the decoded response. */
  function GetMovie(d: MovieDetail): (m: Movie)
    ensures m.sourceId == d.id && m.guid == "tvdb://movie/" + NatToString(m.sourceId)
    ensures m.sourceUrl.Some? <==> d.slug.Some?
    ensures m.title == PreferredText(d.nameTranslations, d.name)
    ensures m.overview == PreferredText(d.overviewTranslations, None)
    ensures m.runtime.Some? <==> d.runtime.Some? && d.runtime.value != 0
    ensures m.runtime.Some? ==> m.runtime == d.runtime
    ensures m.status == MovieStatusById(d.statusId)
  {
    Movie(
      "tvdb://movie/" + NatToString(d.id), d.id,
      if d.slug.Some? then Some(MoviesUrlPrefix + d.slug.value) else None,
      PreferredText(d.nameTranslations, d.name),
      PreferredText(d.overviewTranslations, None),
      d.image, d.firstReleaseDate,
      if d.runtime.Some? && d.runtime.value != 0 then d.runtime else None,
      MovieStatusById(d.statusId))
  }

  // ---------------------------------------------------------------- show details

  /** An exception the handler does not catch (a missing key, a division by zero, an
      unknown attribute): the framework answers 500 without detail. */
  const Crash := HttpError(500, None)

  /** One element of the show's `seasons` list. */
  datatype SeasonEntry = SeasonEntry(id: nat, typeName: string, number: int, image: Option<string>)

  /** The `data` object of `/series/{id}/extended`. `slug` is tested for the show's own
      URL but read unconditionally for each kept season. */
  datatype ShowDetail = ShowDetail(
    id: nat,
    slug: Option<string>,
    name: Option<string>,
    nameTranslations: seq<Translation>,
    overviewTranslations: seq<Translation>,
    image: Option<string>,
    firstAired: Option<string>,
    statusId: int,
    seasons: seq<SeasonEntry>)

  /** The season page URL both the show and its episode groups carry. */
  function SeasonUrl(slug: string, seasonType: string, number: int): string {
    SeriesUrlPrefix + slug + "/seasons/" + Lower(seasonType) + "/" + IntToString(number)
  }

  /** A season entry is kept when its type equals the requested one, ignoring case. */
  predicate OfType(e: SeasonEntry, seasonType: string) {
    Lower(e.typeName) == Lower(seasonType)
  }

  function SeasonOfEntry(showId: nat, slug: string, seasonType: string, e: SeasonEntry): Season {
    Season(
      "tvdb://series/" + NatToString(showId) + "/seasons/" + NatToString(e.id), Some(e.id),
      Some(SeasonUrl(slug, seasonType, e.number)), None, None,
      if Truthy(e.image) then e.image else None, None, e.number, [])
  }

  /** The entries of the requested type, in listed order. */
  function EntriesOfType(entries: seq<SeasonEntry>, seasonType: string): (r: seq<SeasonEntry>)
    ensures |r| <= |entries|
  {
    if entries == [] then []
    else EntriesOfType(entries[..|entries| - 1], seasonType)
         + if OfType(entries[|entries| - 1], seasonType) then [entries[|entries| - 1]] else []
  }

  /** An entry is kept exactly when it is listed and has the requested type. */
  lemma {:induction false} EntriesOfTypeMembers(entries: seq<SeasonEntry>, seasonType: string)
    ensures forall e :: e in EntriesOfType(entries, seasonType) <==> e in entries && OfType(e, seasonType)
  {
    if entries != [] {
      var init, last := entries[..|entries| - 1], entries[|entries| - 1];
      EntriesOfTypeMembers(init, seasonType);
      assert entries == init + [last];
    }
  }

  /** The seasons of the requested type in listed order, each without episodes. */
  function ListedSeasons(showId: nat, slug: Option<string>, seasonType: string, entries: seq<SeasonEntry>): (r: Result<seq<Season>>)
    ensures r.Err? ==> r.error == Crash
    decreases |entries|
  {
    if entries == [] then Ok([])
    else match ListedSeasons(showId, slug, seasonType, entries[..|entries| - 1])
      case Err(e) => Err(e)
      case Ok(r) =>
        var e := entries[|entries| - 1];
        if !OfType(e, seasonType) then Ok(r)
        else if slug.None? then Err(Crash)
        else Ok(r + [SeasonOfEntry(showId, slug.value, seasonType, e)])
  }

  /** Exactly the seasons of the requested type are kept, each pointing at its season
      page and still without episodes; without a slug, keeping one fails. */
  lemma {:induction false} ListedSeasonsFacts(showId: nat, slug: Option<string>, seasonType: string, entries: seq<SeasonEntry>)
    ensures ListedSeasons(showId, slug, seasonType, entries).Ok? <==> slug.Some? || EntriesOfType(entries, seasonType) == []
    ensures ListedSeasons(showId, slug, seasonType, entries).Ok? ==>
      var r := ListedSeasons(showId, slug, seasonType, entries).value;
      var kept := EntriesOfType(entries, seasonType);
      |r| == |kept| &&
      forall i :: 0 <= i < |r| ==> r[i] == SeasonOfEntry(showId, slug.value, seasonType, kept[i])
    ensures ListedSeasons(showId, slug, seasonType, entries).Ok? ==>
      var r := ListedSeasons(showId, slug, seasonType, entries).value;
      forall i :: 0 <= i < |r| ==> r[i].episodes == [] && r[i].sourceUrl == Some(SeasonUrl(slug.value, seasonType, r[i].number))
    decreases |entries|
  {
    if entries != [] {
      var init := entries[..|entries| - 1];
      ListedSeasonsFacts(showId, slug, seasonType, init);
      var prev := ListedSeasons(showId, slug, seasonType, init);
      if prev.Ok? && slug.Some? {
        var r := ListedSeasons(showId, slug, seasonType, entries).value;
        var kept := EntriesOfType(entries, seasonType);
        forall i | 0 <= i < |r|
          ensures r[i] == SeasonOfEntry(showId, slug.value, seasonType, kept[i])
        {
          if i < |prev.value| {
            assert r[i] == prev.value[i];
            assert kept[i] == EntriesOfType(init, seasonType)[i];
          }
        }
      }
    }
  }

  /** The first episode group with the given season URL. */
  function FirstWithUrl(groups: seq<Season>, url: Option<string>): (r: Option<nat>)
    ensures r.Some? ==> r.value < |groups| && groups[r.value].sourceUrl == url
    ensures r.Some? ==> forall j :: 0 <= j < r.value ==> groups[j].sourceUrl != url
    ensures r.None? ==> forall j :: 0 <= j < |groups| ==> groups[j].sourceUrl != url
  {
    if groups == [] then None
    else if groups[0].sourceUrl == url then Some(0)
    else match FirstWithUrl(groups[1..], url)
      case None => None
      case Some(i) => Some(i + 1)
  }

  predicate NonEmptyGroups(groups: seq<Season>) {
    forall k :: 0 <= k < |groups| ==> groups[k].episodes != []
  }

  /** A season takes the episodes of the first group with its URL, and that group's
      first airdate when it has none of its own; without a group it is unchanged. */
  function Attach(season: Season, groups: seq<Season>): (r: Season)
    requires NonEmptyGroups(groups)
    ensures r.guid == season.guid && r.number == season.number && r.sourceUrl == season.sourceUrl
    ensures FirstWithUrl(groups, season.sourceUrl).None? ==> r == season
    ensures FirstWithUrl(groups, season.sourceUrl).Some? ==>
      r.episodes == groups[FirstWithUrl(groups, season.sourceUrl).value].episodes
    ensures season.airdate.Some? ==> r.airdate == season.airdate
    ensures FirstWithUrl(groups, season.sourceUrl).Some? && season.airdate.None? && r.episodes[0].airdate.Some? ==>
      r.airdate == r.episodes[0].airdate
  {
    match FirstWithUrl(groups, season.sourceUrl)
    case None => season
    case Some(j) =>
      var eps := groups[j].episodes;
      season.(episodes := eps,
              airdate := if season.airdate.None? && eps[0].airdate.Some? then eps[0].airdate else season.airdate)
  }

  function ShowRecord(d: ShowDetail, seasons: seq<Season>): Show {
    Show(
      "tvdb://series/" + NatToString(d.id), d.id,
      if d.slug.Some? then Some(SeriesUrlPrefix + d.slug.value) else None,
      PreferredText(d.nameTranslations, d.name),
      PreferredText(d.overviewTranslations, None),
      d.image,
      if Truthy(d.firstAired) then d.firstAired else None,
      ShowStatusById(d.statusId),
      seasons)
  }

  /** `get_show` on the decoded response. `groups` is what the nested episode fetch
      returns; it is consulted only with `withEpisodes`. */
  function ShowOf(requestId: nat, d: ShowDetail, seasonType: string, withEpisodes: bool,
                  groups: Result<seq<Season>>): Result<Show>
    requires withEpisodes && groups.Ok? ==> NonEmptyGroups(groups.value)
  {
    match ListedSeasons(requestId, d.slug, seasonType, d.seasons)
    case Err(e) => Err(e)
    case Ok(listed) =>
      var sorted := SortBy(listed, SeasonNumber);
      if !withEpisodes then Ok(ShowRecord(d, sorted))
      else if groups.Err? then Err(groups.error)
      else Ok(ShowRecord(d, AttachAll(sorted, groups.value)))
  }

  function AttachAll(seasons: seq<Season>, groups: seq<Season>): (r: seq<Season>)
    requires NonEmptyGroups(groups)
    ensures |r| == |seasons|
    ensures forall i :: 0 <= i < |seasons| ==> r[i] == Attach(seasons[i], groups)
  {
    if seasons == [] then [] else [Attach(seasons[0], groups)] + AttachAll(seasons[1..], groups)
  }

  method GetShow(requestId: nat, d: ShowDetail, seasonType: string, withEpisodes: bool,
                 groups: Result<seq<Season>>) returns (r: Result<Show>)
    requires withEpisodes && groups.Ok? ==> NonEmptyGroups(groups.value)
    ensures r == ShowOf(requestId, d, seasonType, withEpisodes, groups)
  {
    var listed := BuildSeasons(requestId, d.slug, seasonType, d.seasons);
    if listed.Err? {
      return Err(listed.error);
    }
    var seasons := SortBy(listed.value, SeasonNumber);
    if withEpisodes {
      if groups.Err? {
        return Err(groups.error);
      }
      seasons := AttachEpisodes(seasons, groups.value);
    }
    r := Ok(ShowRecord(d, seasons));
  }

  /** The loop over the show's `seasons` list keeping those of the requested type. */
  method BuildSeasons(showId: nat, slug: Option<string>, seasonType: string, entries: seq<SeasonEntry>)
    returns (r: Result<seq<Season>>)
    ensures r == ListedSeasons(showId, slug, seasonType, entries)
  {
    var seasons: seq<Season> := [];
    for i := 0 to |entries|
      invariant ListedSeasons(showId, slug, seasonType, entries[..i]) == Ok(seasons)
    {
      assert entries[..i + 1][..i] == entries[..i];
      var entry := entries[i];
      if !(Lower(entry.typeName) == Lower(seasonType)) {
        continue;
      }
      if slug.None? {
        ListedSeasonsErr(showId, slug, seasonType, entries, i + 1);
        return Err(Crash);
      }
      seasons := seasons + [SeasonOfEntry(showId, slug.value, seasonType, entry)];
    }
    assert entries[..|entries|] == entries;
    r := Ok(seasons);
  }

  /** The `with_episodes` loop: each season takes the first matching group's episodes. */
  method AttachEpisodes(seasons: seq<Season>, groups: seq<Season>) returns (attached: seq<Season>)
    requires NonEmptyGroups(groups)
    ensures attached == AttachAll(seasons, groups)
  {
    attached := seasons;
    for i := 0 to |attached|
      invariant |attached| == |seasons|
      invariant forall k :: 0 <= k < i ==> attached[k] == Attach(seasons[k], groups)
      invariant forall k :: i <= k < |attached| ==> attached[k] == seasons[k]
    {
      var j := 0;
      while j < |groups|
        invariant 0 <= j <= |groups|
        invariant forall m :: 0 <= m < j ==> groups[m].sourceUrl != seasons[i].sourceUrl
        invariant forall k :: 0 <= k < i ==> attached[k] == Attach(seasons[k], groups)
        invariant forall k :: i < k < |attached| ==> attached[k] == seasons[k]
        invariant |attached| == |seasons|
        invariant attached[i] == seasons[i] || attached[i] == Attach(seasons[i], groups)
        invariant attached[i] != seasons[i] ==> j == |groups|
      {
        if groups[j].sourceUrl == attached[i].sourceUrl {
          var season := attached[i].(episodes := groups[j].episodes);
          if season.airdate.None? && groups[j].episodes[0].airdate.Some? {
            season := season.(airdate := groups[j].episodes[0].airdate);
          }
          FirstWithUrlAt(groups, seasons[i].sourceUrl, j);
          attached := attached[i := season];
          break;
        }
        j := j + 1;
      }
      if j == |groups| && attached[i] == seasons[i] {
        assert FirstWithUrl(groups, seasons[i].sourceUrl).None?;
      }
    }
    assert attached == AttachAll(seasons, groups);
  }

  lemma {:induction false} ListedSeasonsErr(showId: nat, slug: Option<string>, seasonType: string, entries: seq<SeasonEntry>, n: nat)
    requires 0 < n <= |entries| && slug.None? && OfType(entries[n - 1], seasonType)
    ensures ListedSeasons(showId, slug, seasonType, entries).Err?
    decreases |entries|
  {
    if n < |entries| {
      assert entries[..|entries| - 1][n - 1] == entries[n - 1];
      ListedSeasonsErr(showId, slug, seasonType, entries[..|entries| - 1], n);
    }
  }

  lemma FirstWithUrlAt(groups: seq<Season>, url: Option<string>, j: nat)
    requires j < |groups| && groups[j].sourceUrl == url
    requires forall m :: 0 <= m < j ==> groups[m].sourceUrl != url
    ensures FirstWithUrl(groups, url) == Some(j)
  {
  }

  /** The show's seasons are ordered by number; with episodes, a season has episodes
      exactly when some group carries its URL. */
  lemma ShowSeasons(requestId: nat, d: ShowDetail, seasonType: string, withEpisodes: bool, groups: Result<seq<Season>>)
    requires withEpisodes && groups.Ok? ==> NonEmptyGroups(groups.value)
    ensures ShowOf(requestId, d, seasonType, withEpisodes, groups).Ok? ==>
      SortedBy(ShowOf(requestId, d, seasonType, withEpisodes, groups).value.seasons, SeasonNumber)
    ensures ShowOf(requestId, d, seasonType, withEpisodes, groups).Ok? && withEpisodes ==>
      var ss := ShowOf(requestId, d, seasonType, withEpisodes, groups).value.seasons;
      forall i :: 0 <= i < |ss| ==> (ss[i].episodes == [] <==> FirstWithUrl(groups.value, ss[i].sourceUrl).None?)
  {
    var listed := ListedSeasons(requestId, d.slug, seasonType, d.seasons);
    if listed.Ok? {
      var sorted := SortBy(listed.value, SeasonNumber);
      SortByFacts(listed.value, SeasonNumber);
      SortedEmpty(requestId, d.slug, seasonType, d.seasons);
      if withEpisodes && groups.Ok? {
        var ss := AttachAll(sorted, groups.value);
        assert forall i :: 0 <= i < |ss| ==> ss[i].number == sorted[i].number;
        assert SortedBy(ss, SeasonNumber);
      }
    }
  }

  /** The listed seasons, once sorted, still have no episodes. */
  lemma SortedEmpty(showId: nat, slug: Option<string>, seasonType: string, entries: seq<SeasonEntry>)
    requires ListedSeasons(showId, slug, seasonType, entries).Ok?
    ensures forall s :: s in SortBy(ListedSeasons(showId, slug, seasonType, entries).value, SeasonNumber) ==> s.episodes == []
  {
    var l := ListedSeasons(showId, slug, seasonType, entries).value;
    ListedSeasonsFacts(showId, slug, seasonType, entries);
    SortByPermutes(l, SeasonNumber);
    forall s | s in SortBy(l, SeasonNumber) ensures s.episodes == [] {
      assert s in multiset(l);
    }
  }

  // ---------------------------------------------------------------- episode pages

  /** One element of the episode page's `episodes` list. */
  datatype EpisodeRecord = EpisodeRecord(
    seriesId: nat,
    id: nat,
    seasonNumber: int,
    name: Option<string>,
    overview: Option<string>,
    image: Option<string>,
    aired: Option<string>,
    number: int,
    runtime: Option<int>)

  /** A decoded `/series/{id}/episodes/{type}` page: the series slug, the `links`
      counters and the episodes. */
  datatype EpisodePage = EpisodePage(seriesSlug: string, totalItems: nat, pageSize: nat, episodes: seq<EpisodeRecord>)

  function RecordSeason(e: EpisodeRecord): int { e.seasonNumber }

  function EpisodeOf(slug: string, e: EpisodeRecord): Episode {
    Episode(
      "tvdb://series/" + NatToString(e.seriesId) + "/episodes/" + NatToString(e.id), e.id,
      Some(SeriesUrlPrefix + slug + "/episodes/" + NatToString(e.id)),
      Some(if Truthy(e.name) then e.name.value else ""),
      if Truthy(e.overview) then e.overview else None,
      if Truthy(e.image) then e.image else None,
      if Truthy(e.aired) then e.aired else None,
      e.number, e.runtime)
  }

  function EpisodeMaker(slug: string): EpisodeRecord -> Episode {
    e => EpisodeOf(slug, e)
  }

  function SeasonOfGroup(slug: string, seasonType: string, g: seq<EpisodeRecord>): Season
    requires g != []
  {
    Season(
      "tvdb://series/" + NatToString(g[0].seriesId) + "/seasons/" + IntToString(g[0].seasonNumber), None,
      Some(SeasonUrl(slug, seasonType, g[0].seasonNumber)), None, None, None, None,
      g[0].seasonNumber, Map(g, EpisodeMaker(slug)))
  }

  function SeasonsOfGroups(slug: string, seasonType: string, gs: seq<seq<EpisodeRecord>>): (r: seq<Season>)
    requires forall i :: 0 <= i < |gs| ==> gs[i] != []
    ensures |r| == |gs|
    ensures forall i :: 0 <= i < |gs| ==> r[i] == SeasonOfGroup(slug, seasonType, gs[i])
  {
    if gs == [] then [] else [SeasonOfGroup(slug, seasonType, gs[0])] + SeasonsOfGroups(slug, seasonType, gs[1..])
  }

  /** One page's episodes grouped into seasons by season number, as the jq program does. */
  function ParsePage(p: EpisodePage, seasonType: string): seq<Season> {
    SeasonsOfGroups(p.seriesSlug, seasonType, GroupBy(p.episodes, RecordSeason))
  }

  function AllEpisodes(seasons: seq<Season>): seq<Episode> {
    FlatMap(seasons, EpisodesOf)
  }

  lemma {:induction false} SeasonsOfGroupsEpisodes(slug: string, seasonType: string, gs: seq<seq<EpisodeRecord>>)
    requires forall i :: 0 <= i < |gs| ==> gs[i] != []
    ensures AllEpisodes(SeasonsOfGroups(slug, seasonType, gs)) == Map(Concat(gs), EpisodeMaker(slug))
  {
    if gs != [] {
      SeasonsOfGroupsEpisodes(slug, seasonType, gs[1..]);
      MapAppend(gs[0], Concat(gs[1..]), EpisodeMaker(slug));
    }
  }

  /** A page's seasons hold each of its episodes once: grouping loses and adds none. */
  lemma ParsePageEpisodes(p: EpisodePage, seasonType: string)
    ensures multiset(AllEpisodes(ParsePage(p, seasonType))) == multiset(Map(p.episodes, EpisodeMaker(p.seriesSlug)))
  {
    var gs := GroupBy(p.episodes, RecordSeason);
    SeasonsOfGroupsEpisodes(p.seriesSlug, seasonType, gs);
    MapMultiset(Concat(gs), p.episodes, EpisodeMaker(p.seriesSlug));
  }

  /** A page's seasons are in strictly increasing number order, and none is empty. */
  lemma ParsePageOrdered(p: EpisodePage, seasonType: string)
    ensures forall i, j :: 0 <= i < j < |ParsePage(p, seasonType)| ==>
      ParsePage(p, seasonType)[i].number < ParsePage(p, seasonType)[j].number
    ensures NonEmptyGroups(ParsePage(p, seasonType))
  {
  }

  // ---------------------------------------------------------------- page merge

  function Guids(seasons: seq<Season>): (r: seq<string>)
    ensures |r| == |seasons|
    ensures forall i :: 0 <= i < |seasons| ==> r[i] == seasons[i].guid
  {
    if seasons == [] then [] else [seasons[0].guid] + Guids(seasons[1..])
  }

  /** The first season with the given GUID. */
  function FirstWithGuid(seasons: seq<Season>, guid: string): (r: Option<nat>)
    ensures r.Some? ==> r.value < |seasons| && seasons[r.value].guid == guid
    ensures r.None? <==> guid !in Guids(seasons)
  {
    if seasons == [] then None
    else if seasons[0].guid == guid then Some(0)
    else match FirstWithGuid(seasons[1..], guid)
      case None => None
      case Some(i) => Some(i + 1)
  }

  /** One pass of the merge loop: a fragment whose GUID is already present at a position
      other than 0 extends that season's episodes; otherwise it is appended (a match at
      position 0 counts as no match). */
  function MergeStep(acc: seq<Season>, fragment: Season): (r: seq<Season>)
    ensures |r| == |acc| || |r| == |acc| + 1
  {
    match FirstWithGuid(acc, fragment.guid)
    case None => acc + [fragment]
    case Some(i) =>
      if i == 0 then acc + [fragment]
      else acc[i := acc[i].(episodes := acc[i].episodes + fragment.episodes)]
  }

  /** A merge step keeps every season in its place with its GUID and number; the
      fragment is appended last exactly when its GUID is new or is the first season's,
      and is otherwise merged into the season found. */
  lemma MergeStepShape(acc: seq<Season>, fragment: Season)
    ensures var r := MergeStep(acc, fragment);
      var found := FirstWithGuid(acc, fragment.guid);
      && (forall k :: 0 <= k < |acc| ==> r[k].guid == acc[k].guid && r[k].number == acc[k].number)
      && (|r| == |acc| + 1 <==> found.None? || found == Some(0))
      && (|r| == |acc| + 1 ==> r[|acc|] == fragment)
  {
    var r := MergeStep(acc, fragment);
    var found := FirstWithGuid(acc, fragment.guid);
    if found.None? || found == Some(0) {
      assert r == acc + [fragment];
      assert forall k :: 0 <= k < |acc| ==> r[k] == acc[k];
    } else {
      var i := found.value;
      var merged := acc[i].(episodes := acc[i].episodes + fragment.episodes);
      assert r == acc[i := merged];
      assert merged.guid == acc[i].guid && merged.number == acc[i].number;
    }
  }

  function MergeAll(fragments: seq<Season>): seq<Season>
    decreases |fragments|
  {
    if fragments == [] then []
    else MergeStep(MergeAll(fragments[..|fragments| - 1]), fragments[|fragments| - 1])
  }

  function SortEpisodes(s: Season): Season {
    s.(episodes := SortBy(s.episodes, EpisodeNumber))
  }

  function SortEach(seasons: seq<Season>): (r: seq<Season>)
    ensures |r| == |seasons|
    ensures forall i :: 0 <= i < |seasons| ==> r[i] == SortEpisodes(seasons[i])
  {
    if seasons == [] then [] else [SortEpisodes(seasons[0])] + SortEach(seasons[1..])
  }

  /** The merged seasons of all pages: merged, episodes sorted, seasons sorted. */
  function MergedSeasons(fragments: seq<Season>): seq<Season> {
    SortBy(SortEach(MergeAll(fragments)), SeasonNumber)
  }

  /** Lines 213-224: the merge loop, then the two sorts. */
  method MergePages(fragments: seq<Season>) returns (seasons: seq<Season>)
    ensures seasons == MergedSeasons(fragments)
  {
    seasons := [];
    for i := 0 to |fragments|
      invariant seasons == MergeAll(fragments[..i])
    {
      assert fragments[..i + 1][..i] == fragments[..i];
      var fragment := fragments[i];
      var index := FirstWithGuid(seasons, fragment.guid);
      if index.None? || index.value == 0 {
        seasons := seasons + [fragment];
      } else {
        var k := index.value;
        seasons := seasons[k := seasons[k].(episodes := seasons[k].episodes + fragment.episodes)];
      }
    }
    assert fragments[..|fragments|] == fragments;
    ghost var merged := seasons;
    for i := 0 to |seasons|
      invariant |seasons| == |merged|
      invariant forall k :: 0 <= k < i ==> seasons[k] == SortEpisodes(merged[k])
      invariant forall k :: i <= k < |seasons| ==> seasons[k] == merged[k]
    {
      seasons := seasons[i := seasons[i].(episodes := SortBy(seasons[i].episodes, EpisodeNumber))];
    }
    assert seasons == SortEach(merged);
    seasons := SortBy(seasons, SeasonNumber);
  }

  /** No two merged seasons share a GUID, unless it is the first fragment's. */
  predicate UniqueExcept(seasons: seq<Season>, guid: string) {
    forall i, j :: 0 <= i < j < |seasons| && seasons[i].guid == seasons[j].guid ==> seasons[i].guid == guid
  }

  lemma AppendFacts(acc: seq<Season>, f: Season)
    ensures AllEpisodes(acc + [f]) == AllEpisodes(acc) + f.episodes
    ensures Guids(acc + [f]) == Guids(acc) + [f.guid]
  {
    FlatMapAppend(acc, [f], EpisodesOf);
    assert FlatMap([f], EpisodesOf) == f.episodes by { assert [f][1..] == []; }
  }

  lemma StepFirst(acc: seq<Season>, f: Season)
    requires acc != []
    ensures MergeStep(acc, f) != [] && MergeStep(acc, f)[0] == acc[0]
  {
  }

  lemma StepEpisodes(acc: seq<Season>, f: Season)
    ensures multiset(AllEpisodes(MergeStep(acc, f))) == multiset(AllEpisodes(acc)) + multiset(f.episodes)
  {
    var i := FirstWithGuid(acc, f.guid);
    if i.None? || i.value == 0 {
      AppendFacts(acc, f);
    } else {
      var k := i.value;
      var x := acc[k].(episodes := acc[k].episodes + f.episodes);
      assert MergeStep(acc, f) == acc[k := x];
      FlatMapUpdate(acc, k, x, EpisodesOf);
      var L := multiset(FlatMap(acc[k := x], EpisodesOf));
      var A := multiset(FlatMap(acc, EpisodesOf));
      var B := multiset(acc[k].episodes);
      var F := multiset(f.episodes);
      assert multiset(EpisodesOf(x)) == B + F;
      assert L + B == A + (B + F);
      assert forall e :: L[e] == (A + F)[e] by {
        forall e ensures L[e] == (A + F)[e] {
          assert (L + B)[e] == (A + (B + F))[e];
        }
      }
      assert L == A + F;
    }
  }

  lemma StepGuids(acc: seq<Season>, f: Season)
    ensures FirstWithGuid(acc, f.guid).None? || FirstWithGuid(acc, f.guid).value == 0 ==>
      Guids(MergeStep(acc, f)) == Guids(acc) + [f.guid]
    ensures FirstWithGuid(acc, f.guid).Some? && FirstWithGuid(acc, f.guid).value != 0 ==>
      Guids(MergeStep(acc, f)) == Guids(acc)
  {
    var i := FirstWithGuid(acc, f.guid);
    if i.None? || i.value == 0 {
      AppendFacts(acc, f);
    }
  }

  lemma StepUnique(acc: seq<Season>, f: Season, g0: string)
    requires acc != [] && acc[0].guid == g0 && UniqueExcept(acc, g0)
    ensures UniqueExcept(MergeStep(acc, f), g0)
  {
    StepGuids(acc, f);
    var r := MergeStep(acc, f);
    var i := FirstWithGuid(acc, f.guid);
    if i.None? || i.value == 0 {
      forall a, b | 0 <= a < b < |r| && r[a].guid == r[b].guid ensures r[a].guid == g0 {
        if b == |acc| {
          assert Guids(r)[a] == Guids(acc)[a];
        } else {
          assert Guids(r)[a] == acc[a].guid && Guids(r)[b] == acc[b].guid;
        }
      }
    } else {
      assert forall k :: 0 <= k < |r| ==> r[k].guid == Guids(acc)[k];
    }
  }

  lemma {:induction false} MergeAllFirst(fragments: seq<Season>)
    requires fragments != []
    ensures MergeAll(fragments) != [] && MergeAll(fragments)[0] == fragments[0]
    decreases |fragments|
  {
    var init := fragments[..|fragments| - 1];
    if init != [] {
      MergeAllFirst(init);
      StepFirst(MergeAll(init), fragments[|fragments| - 1]);
    }
  }

  lemma {:induction false} MergeAllEpisodes(fragments: seq<Season>)
    ensures multiset(AllEpisodes(MergeAll(fragments))) == multiset(AllEpisodes(fragments))
    decreases |fragments|
  {
    if fragments != [] {
      var init := fragments[..|fragments| - 1];
      var f := fragments[|fragments| - 1];
      assert fragments == init + [f];
      MergeAllEpisodes(init);
      StepEpisodes(MergeAll(init), f);
      AppendFacts(init, f);
    }
  }

  lemma {:induction false} MergeAllGuids(fragments: seq<Season>)
    ensures forall g :: g in Guids(MergeAll(fragments)) <==> g in Guids(fragments)
    decreases |fragments|
  {
    if fragments != [] {
      var init := fragments[..|fragments| - 1];
      var f := fragments[|fragments| - 1];
      assert fragments == init + [f];
      MergeAllGuids(init);
      StepGuids(MergeAll(init), f);
      AppendFacts(init, f);
    }
  }

  lemma {:induction false} MergeAllUnique(fragments: seq<Season>)
    requires fragments != []
    ensures UniqueExcept(MergeAll(fragments), fragments[0].guid)
    decreases |fragments|
  {
    var init := fragments[..|fragments| - 1];
    var f := fragments[|fragments| - 1];
    if init != [] {
      MergeAllUnique(init);
      MergeAllFirst(init);
      StepUnique(MergeAll(init), f, fragments[0].guid);
    }
  }

  lemma {:induction false} MergeAllFirstCount(fragments: seq<Season>)
    requires fragments != []
    ensures multiset(Guids(MergeAll(fragments)))[fragments[0].guid] == multiset(Guids(fragments))[fragments[0].guid]
    decreases |fragments|
  {
    var init := fragments[..|fragments| - 1];
    var f := fragments[|fragments| - 1];
    var g0 := fragments[0].guid;
    assert fragments == init + [f];
    AppendFacts(init, f);
    if init != [] {
      MergeAllFirstCount(init);
      MergeAllFirst(init);
      var acc := MergeAll(init);
      StepGuids(acc, f);
      AppendFacts(acc, f);
      if f.guid == g0 {
        assert FirstWithGuid(acc, f.guid) == Some(0);
      }
    }
  }

  lemma {:induction false} MergeAllNonEmpty(fragments: seq<Season>)
    requires NonEmptyGroups(fragments)
    ensures NonEmptyGroups(MergeAll(fragments))
    decreases |fragments|
  {
    if fragments != [] {
      var init := fragments[..|fragments| - 1];
      assert NonEmptyGroups(init);
      MergeAllNonEmpty(init);
    }
  }

  lemma {:induction false} SortEachEpisodes(seasons: seq<Season>)
    ensures multiset(AllEpisodes(SortEach(seasons))) == multiset(AllEpisodes(seasons))
    ensures Guids(SortEach(seasons)) == Guids(seasons)
  {
    if seasons != [] {
      SortEachEpisodes(seasons[1..]);
      SortByPermutes(seasons[0].episodes, EpisodeNumber);
      assert SortEach(seasons)[1..] == SortEach(seasons[1..]);
    }
  }

  function GuidOf(s: Season): seq<string> { [s.guid] }

  lemma {:induction false} GuidsFlat(seasons: seq<Season>)
    ensures Guids(seasons) == FlatMap(seasons, GuidOf)
  {
    if seasons != [] {
      GuidsFlat(seasons[1..]);
    }
  }

  lemma {:induction false} UniqueCount(seasons: seq<Season>, g0: string, g: string)
    requires UniqueExcept(seasons, g0) && g != g0
    ensures multiset(Guids(seasons))[g] == if g in Guids(seasons) then 1 else 0
  {
    if seasons != [] {
      var t := seasons[1..];
      assert UniqueExcept(t, g0);
      UniqueCount(t, g0, g);
      assert Guids(seasons) == [seasons[0].guid] + Guids(t);
      if seasons[0].guid == g {
        assert g !in Guids(t);
      }
    }
  }

  /** The merge of all pages' seasons loses and duplicates no episode. */
  lemma MergedEpisodes(fragments: seq<Season>)
    ensures multiset(AllEpisodes(MergedSeasons(fragments))) == multiset(AllEpisodes(fragments))
  {
    var m := MergeAll(fragments);
    MergeAllEpisodes(fragments);
    SortEachEpisodes(m);
    FlatMapSortBy(SortEach(m), SeasonNumber, EpisodesOf);
  }

  lemma MergedGuidsPermuted(fragments: seq<Season>)
    ensures multiset(Guids(MergedSeasons(fragments))) == multiset(Guids(MergeAll(fragments)))
  {
    var m := MergeAll(fragments);
    var e := SortEach(m);
    SortEachEpisodes(m);
    FlatMapSortBy(e, SeasonNumber, GuidOf);
    GuidsFlat(e);
    GuidsFlat(MergedSeasons(fragments));
  }

  /** Every GUID other than the first fragment's names exactly one merged season, and
      the fragments carrying the first fragment's GUID all stay separate seasons. */
  lemma MergedGuids(fragments: seq<Season>)
    requires fragments != []
    ensures forall g :: g != fragments[0].guid ==>
      multiset(Guids(MergedSeasons(fragments)))[g] == if g in Guids(fragments) then 1 else 0
    ensures multiset(Guids(MergedSeasons(fragments)))[fragments[0].guid]
         == multiset(Guids(fragments))[fragments[0].guid]
  {
    var m := MergeAll(fragments);
    MergedGuidsPermuted(fragments);
    MergeAllFirstCount(fragments);
    MergeAllGuids(fragments);
    MergeAllUnique(fragments);
    forall g | g != fragments[0].guid
      ensures multiset(Guids(MergedSeasons(fragments)))[g] == if g in Guids(fragments) then 1 else 0
    {
      UniqueCount(m, fragments[0].guid, g);
    }
  }

  /** The merged seasons are in number order, each with its episodes in number order,
      and none is empty when no fragment is. */
  lemma MergedSorted(fragments: seq<Season>)
    ensures SortedBy(MergedSeasons(fragments), SeasonNumber)
    ensures forall s :: s in MergedSeasons(fragments) ==> SortedBy(s.episodes, EpisodeNumber)
    ensures NonEmptyGroups(fragments) ==> NonEmptyGroups(MergedSeasons(fragments))
  {
    var m := MergeAll(fragments);
    var r := MergedSeasons(fragments);
    SortByFacts(SortEach(m), SeasonNumber);
    SortedMembers(m);
    if NonEmptyGroups(fragments) {
      MergeAllNonEmpty(fragments);
    }
    forall s | s in r
      ensures SortedBy(s.episodes, EpisodeNumber) && (NonEmptyGroups(fragments) ==> s.episodes != [])
    {
      var k :| 0 <= k < |m| && s == SortEpisodes(m[k]);
      SortByFacts(m[k].episodes, EpisodeNumber);
    }
    if NonEmptyGroups(fragments) {
      forall k | 0 <= k < |r| ensures r[k].episodes != [] {
        assert r[k] in r;
      }
    }
  }

  /** After both sorts, each season is one of the input seasons with its episodes sorted. */
  lemma SortedMembers(m: seq<Season>)
    ensures forall s :: s in SortBy(SortEach(m), SeasonNumber) ==>
      exists k :: 0 <= k < |m| && s == SortEpisodes(m[k])
  {
    var e := SortEach(m);
    SortByMembers(e, SeasonNumber);
    forall s | s in SortBy(e, SeasonNumber)
      ensures exists k :: 0 <= k < |m| && s == SortEpisodes(m[k])
    {
      var k :| 0 <= k < |e| && e[k] == s;
      assert s == SortEpisodes(m[k]);
    }
  }

  // ---------------------------------------------------------------- page fan-out

  /** `ceil(a / b)` for positive `b`. */
  function CeilDiv(a: nat, b: nat): (r: nat)
    requires b > 0
    ensures r * b >= a
    ensures a > 0 ==> (r - 1) * b < a
  {
    var q := (a + b - 1) / b;
    assert q * b + (a + b - 1) % b == a + b - 1;
    q
  }

  /** The pages requested after page 0: none unless `total / size > 1`, else
      pages 1 .. ceil(total / size) - 1. */
  function ExtraPages(total: nat, pageSize: nat): (r: seq<nat>)
    requires pageSize > 0
    ensures total <= pageSize ==> r == []
    ensures total > pageSize ==> |r| == CeilDiv(total, pageSize) - 1
    ensures forall i :: 0 <= i < |r| ==> r[i] == i + 1
  {
    if total > pageSize then seq(CeilDiv(total, pageSize) - 1, i => i + 1) else []
  }

  /** Pages 0 .. |ExtraPages| are exactly the pages holding items: together they
      cover `total` items, and one page fewer would not. */
  lemma ExtraPagesCover(total: nat, pageSize: nat)
    requires pageSize > 0 && total > pageSize
    ensures (|ExtraPages(total, pageSize)| + 1) * pageSize >= total
    ensures |ExtraPages(total, pageSize)| * pageSize < total
  {
  }

  /** The nested fetches of the extra pages, gathered in page order and flattened. */
  function FanOut(fetch: nat -> EpisodePage, pages: seq<nat>, seasonType: string): seq<Season> {
    if pages == [] then [] else ParsePage(fetch(pages[0]), seasonType) + FanOut(fetch, pages[1..], seasonType)
  }

  /** The nested `get_seasons` for page 0 as evidently intended: the extra pages'
      seasons follow page 0's, then everything is merged and sorted. `fetch(i)` is the
      decoded response for page i. */
  function EpisodeGroups(first: EpisodePage, fetch: nat -> EpisodePage, seasonType: string): Result<seq<Season>> {
    if first.pageSize == 0 then Err(Crash)
    else if first.totalItems > first.pageSize then
      Ok(MergedSeasons(ParsePage(first, seasonType) + FanOut(fetch, ExtraPages(first.totalItems, first.pageSize), seasonType)))
    else Ok(ParsePage(first, seasonType))
  }

  /** The same as written: line 209 looks `get_seasons` up on the client object, which
      has no such attribute, so any show with more than one page fails. */
  function EpisodeGroupsAsWritten(first: EpisodePage, seasonType: string): (r: Result<seq<Season>>)
    ensures r.Err? <==> first.pageSize == 0 || first.totalItems > first.pageSize
    ensures forall fetch: nat -> EpisodePage :: r.Ok? ==> r == EpisodeGroups(first, fetch, seasonType)
  {
    if first.pageSize == 0 then Err(Crash)
    else if first.totalItems > first.pageSize then Err(Crash)
    else Ok(ParsePage(first, seasonType))
  }

  method GetSeasons(first: EpisodePage, fetch: nat -> EpisodePage, seasonType: string) returns (r: Result<seq<Season>>)
    ensures r == EpisodeGroups(first, fetch, seasonType)
  {
    var seasons := ParsePage(first, seasonType);
    if first.pageSize == 0 {
      return Err(Crash);
    }
    if first.totalItems > first.pageSize {
      var pages := ExtraPages(first.totalItems, first.pageSize);
      var allPages := seasons + FanOut(fetch, pages, seasonType);
      seasons := MergePages(allPages);
    }
    r := Ok(seasons);
  }

  lemma {:induction false} FanOutNonEmpty(fetch: nat -> EpisodePage, pages: seq<nat>, seasonType: string)
    ensures NonEmptyGroups(FanOut(fetch, pages, seasonType))
  {
    if pages != [] {
      FanOutNonEmpty(fetch, pages[1..], seasonType);
      ParsePageOrdered(fetch(pages[0]), seasonType);
    }
  }

  /** Every group the episode fetch returns has episodes, so attaching is defined. */
  lemma EpisodeGroupsNonEmpty(first: EpisodePage, fetch: nat -> EpisodePage, seasonType: string)
    ensures EpisodeGroups(first, fetch, seasonType).Ok? ==> NonEmptyGroups(EpisodeGroups(first, fetch, seasonType).value)
  {
    ParsePageOrdered(first, seasonType);
    if first.pageSize > 0 && first.totalItems > first.pageSize {
      var all := ParsePage(first, seasonType) + FanOut(fetch, ExtraPages(first.totalItems, first.pageSize), seasonType);
      FanOutNonEmpty(fetch, ExtraPages(first.totalItems, first.pageSize), seasonType);
      MergedSorted(all);
    }
  }

  /** A first page announcing two items of one per page: as written the request fails,
      as intended both pages' seasons are returned. */
  lemma AsWrittenFailsOnSecondPage(fetch: nat -> EpisodePage, seasonType: string)
    ensures EpisodeGroupsAsWritten(EpisodePage("s", 2, 1, []), seasonType).Err?
    ensures EpisodeGroups(EpisodePage("s", 2, 1, []), fetch, seasonType).Ok?
  {
  }
}
