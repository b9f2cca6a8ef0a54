/** The TMDB v3 adapter (`TMDBClient` in app/libs/tmdb.py): search by type with the
    one-shot en-US fallback and page fan-out, movie details, and show details with
    their seasons. Each operation takes the decoded responses as inputs; a fetch is a
    function from its request parameters to the decoded response. */
module TmdbV3 {
  import opened Wrappers
  import opened Text
  import opened MediaModel
  import opened Sorting

  const SourceBaseUrl := "https://www.themoviedb.org/"

  /** The static configuration's `secure_base_url` and size lists. */
  const SecureBaseUrl := "https://image.tmdb.org/t/p/"
  const PosterSizes := ["w92", "w154", "w185", "w342", "w500", "w780", "original"]
  const StillSizes := ["w92", "w185", "w300", "original"]

  const FallbackLanguage := "en-US"
  const DefaultLanguage := "it-IT"

  const UnsupportedType := HttpError(422, Some(JStr("[TMDB] - Unsupported media type requested.")))

  /** An image URL: the secure base, the last (largest) size of the list, the path. */
  function ImageUrl(sizes: seq<string>, path: Option<string>): (r: Option<string>)
    requires sizes != []
    ensures r.Some? <==> Truthy(path)
    ensures r.Some? ==> r.value == SecureBaseUrl + sizes[|sizes| - 1] + path.value
  {
    if Truthy(path) then Some(SecureBaseUrl + sizes[|sizes| - 1] + path.value) else None
  }

  /** Posters and stills are both requested at the `original` size. */
  lemma ImagesAreOriginal(path: string)
    requires path != ""
    ensures ImageUrl(PosterSizes, Some(path)) == Some("https://image.tmdb.org/t/p/original" + path)
    ensures ImageUrl(StillSizes, Some(path)) == Some("https://image.tmdb.org/t/p/original" + path)
  {
    assert PosterSizes[|PosterSizes| - 1] == StillSizes[|StillSizes| - 1] == "original";
    assert SecureBaseUrl + "original" == "https://image.tmdb.org/t/p/original";
  }

  /** A truthy optional string, else None. */
  function NonEmpty(o: Option<string>): (r: Option<string>)
    ensures r.Some? <==> Truthy(o)
    ensures r.Some? ==> r == o
  {
    if Truthy(o) then o else None
  }

  // ---------------------------------------------------------------- search

  /** One element of a search page's `results`. */
  datatype SearchHit = SearchHit(
    id: nat,
    title: Option<string>,
    originalTitle: Option<string>,
    name: Option<string>,
    originalName: Option<string>,
    overview: Option<string>,
    posterPath: Option<string>,
    releaseDate: Option<string>,
    firstAirDate: Option<string>)

  datatype SearchPage = SearchPage(totalResults: nat, totalPages: nat, results: seq<SearchHit>)

  /** The common part of a search hit, before it becomes a Movie or a Show. */
  datatype Media = Media(
    guid: string,
    sourceId: int,
    sourceUrl: Option<string>,
    title: Option<string>,
    overview: Option<string>,
    image: Option<string>,
    airdate: Option<string>)

  /** The URL path segment of a type: `movie` or `tv`. */
  function PathOf(kind: MediaType): string {
    if kind == MovieType then "movie" else "tv"
  }

  function HitTitle(kind: MediaType, hit: SearchHit): (r: Option<string>)
    ensures kind == MovieType ==> r == if Truthy(hit.title) then hit.title else NonEmpty(hit.originalTitle)
    ensures kind == SeriesType ==> r == if Truthy(hit.name) then hit.name else NonEmpty(hit.originalName)
    ensures kind.OtherType? ==> r.None?
  {
    if kind == MovieType && Truthy(hit.title) then hit.title
    else if kind == MovieType && Truthy(hit.originalTitle) then hit.originalTitle
    else if kind == SeriesType && Truthy(hit.name) then hit.name
    else if kind == SeriesType && Truthy(hit.originalName) then hit.originalName
    else None
  }

  function HitMedia(kind: MediaType, hit: SearchHit): Media {
    Media(
      "tvdb://" + kind.Value() + "/" + NatToString(hit.id), hit.id,
      Some(SourceBaseUrl + PathOf(kind) + NatToString(hit.id)),
      HitTitle(kind, hit),
      NonEmpty(hit.overview),
      ImageUrl(PosterSizes, hit.posterPath),
      if kind == MovieType then NonEmpty(hit.releaseDate)
      else if kind == SeriesType then NonEmpty(hit.firstAirDate)
      else None)
  }

  function PageMedia(kind: MediaType, hits: seq<SearchHit>): (r: seq<Media>)
    ensures |r| == |hits|
    ensures forall i :: 0 <= i < |hits| ==> r[i] == HitMedia(kind, hits[i])
  {
    if hits == [] then [] else [HitMedia(kind, hits[0])] + PageMedia(kind, hits[1..])
  }

  /** The loop over one page's `results`. */
  method MapPage(kind: MediaType, hits: seq<SearchHit>) returns (items: seq<Media>)
    ensures items == PageMedia(kind, hits)
  {
    items := [];
    for i := 0 to |hits|
      invariant |items| == i
      invariant forall k :: 0 <= k < i ==> items[k] == HitMedia(kind, hits[k])
    {
      var m := HitMedia(kind, hits[i]);
      items := items + [m];
    }
    var spec := PageMedia(kind, hits);
    assert |items| == |spec|;
    assert forall k :: 0 <= k < |items| ==> items[k] == spec[k];
  }

  lemma PageMediaAppend(kind: MediaType, hits: seq<SearchHit>, hit: SearchHit)
    ensures PageMedia(kind, hits + [hit]) == PageMedia(kind, hits) + [HitMedia(kind, hit)]
  {
  }

  /** The items of pages `from` .. `to`, in page order. */
  function LaterPages(fetch: (string, nat) -> SearchPage, kind: MediaType, language: string, from: nat, to: nat): seq<Media>
    decreases if from <= to then to - from + 1 else 0
  {
    if from > to then []
    else PageMedia(kind, fetch(language, from).results) + LaterPages(fetch, kind, language, from + 1, to)
  }

  /** `do_search_by_type`. `fetch(language, page)` is the decoded search page. Page 1
      with no result outside en-US is redone once in en-US; page 1 of a multi-page
      answer is followed by pages 2 .. total_pages in order. */
  function SearchByType(fetch: (string, nat) -> SearchPage, kind: MediaType, language: string, page: nat): (r: Result<seq<Media>>)
    ensures r.Err? <==> kind.OtherType?
    decreases if language == FallbackLanguage then 0 else 1
  {
    if kind.OtherType? then Err(UnsupportedType)
    else
      var response := fetch(language, page);
      if page == 1 && response.totalResults == 0 && language != FallbackLanguage then
        SearchByType(fetch, kind, FallbackLanguage, page)
      else
        var items := PageMedia(kind, response.results);
        if page == 1 && response.totalPages > 1 then
          Ok(items + LaterPages(fetch, kind, language, 2, response.totalPages))
        else Ok(items)
  }

  /** An unsupported type is refused before any request. */
  lemma UnsupportedTypeRefused(fetch: (string, nat) -> SearchPage, v: string, language: string, page: nat)
    ensures SearchByType(fetch, OtherType(v), language, page) == Err(UnsupportedType)
  {
  }

  /** The fallback happens at most once: an empty first page outside en-US gives the
      en-US answer, and an empty en-US first page is returned as it is. */
  lemma FallbackOnce(fetch: (string, nat) -> SearchPage, kind: MediaType, language: string)
    requires !kind.OtherType? && fetch(language, 1).totalResults == 0
    ensures language != FallbackLanguage ==>
      SearchByType(fetch, kind, language, 1) == SearchByType(fetch, kind, FallbackLanguage, 1)
    ensures language == FallbackLanguage ==>
      SearchByType(fetch, kind, language, 1).Ok? &&
      SearchByType(fetch, kind, language, 1).value[..|fetch(language, 1).results|]
        == PageMedia(kind, fetch(language, 1).results)
  {
  }

  /** A page other than the first neither falls back nor fans out. */
  lemma LaterPageAlone(fetch: (string, nat) -> SearchPage, kind: MediaType, language: string, page: nat)
    requires !kind.OtherType? && page != 1
    ensures SearchByType(fetch, kind, language, page) == Ok(PageMedia(kind, fetch(language, page).results))
  {
  }

  function PagesSize(fetch: (string, nat) -> SearchPage, language: string, from: nat, to: nat): nat
    decreases if from <= to then to - from + 1 else 0
  {
    if from > to then 0 else |fetch(language, from).results| + PagesSize(fetch, language, from + 1, to)
  }

  /** The fanned-out result holds every hit of every page exactly once, page 1 first. */
  lemma {:induction false} LaterPagesSize(fetch: (string, nat) -> SearchPage, kind: MediaType, language: string, from: nat, to: nat)
    ensures |LaterPages(fetch, kind, language, from, to)| == PagesSize(fetch, language, from, to)
    ensures from <= to ==> LaterPages(fetch, kind, language, from, to)[..|fetch(language, from).results|]
                           == PageMedia(kind, fetch(language, from).results)
    decreases if from <= to then to - from + 1 else 0
  {
    if from <= to {
      LaterPagesSize(fetch, kind, language, from + 1, to);
    }
  }

  /** Every hit carries a `tvdb://` GUID and a source URL with no `/` between the type
      and the id. */
  lemma HitIdentity(kind: MediaType, hit: SearchHit)
    ensures HitMedia(kind, hit).guid == "tvdb://" + kind.Value() + "/" + NatToString(hit.id)
    ensures kind == MovieType ==> HitMedia(kind, hit).sourceUrl == Some("https://www.themoviedb.org/movie" + NatToString(hit.id))
    ensures kind == SeriesType ==> HitMedia(kind, hit).sourceUrl == Some("https://www.themoviedb.org/tv" + NatToString(hit.id))
  {
    assert SourceBaseUrl + "movie" == "https://www.themoviedb.org/movie";
    assert SourceBaseUrl + "tv" == "https://www.themoviedb.org/tv";
  }

  /** A movie carrying exactly a search record's fields, with no runtime and no status. */
  predicate MovieOf(mv: Movie, m: Media) {
    && mv.guid == m.guid && mv.sourceId == m.sourceId && mv.sourceUrl == m.sourceUrl
    && mv.title == m.title && mv.overview == m.overview && mv.image == m.image
    && mv.airdate == m.airdate && mv.runtime.None? && mv.status.None?
  }

  /** A show carrying exactly a search record's fields, with no status and no seasons. */
  predicate ShowOf(sh: Show, m: Media) {
    && sh.guid == m.guid && sh.sourceId == m.sourceId && sh.sourceUrl == m.sourceUrl
    && sh.title == m.title && sh.overview == m.overview && sh.image == m.image
    && sh.airdate == m.airdate && sh.status.None? && sh.seasons == []
  }

  function AsMovie(m: Media): Movie {
    Movie(m.guid, m.sourceId, m.sourceUrl, m.title, m.overview, m.image, m.airdate, None, None)
  }

  function AsShow(m: Media): Show {
    Show(m.guid, m.sourceId, m.sourceUrl, m.title, m.overview, m.image, m.airdate, None, [])
  }

  /** `do_search`: both types without a type, only the requested one with one, and
      nothing at all for an unsupported type. */
  function DoSearch(fetchMovies: (string, nat) -> SearchPage, fetchShows: (string, nat) -> SearchPage,
                    kind: Option<MediaType>): (r: SearchResult)
    ensures kind.None? || kind == Some(MovieType) ==>
      |r.movies| == |SearchByType(fetchMovies, MovieType, DefaultLanguage, 1).value|
    ensures kind.None? || kind == Some(SeriesType) ==>
      |r.series| == |SearchByType(fetchShows, SeriesType, DefaultLanguage, 1).value|
    ensures kind.None? || kind == Some(MovieType) ==>
      forall i :: 0 <= i < |r.movies| ==> MovieOf(r.movies[i], SearchByType(fetchMovies, MovieType, DefaultLanguage, 1).value[i])
    ensures kind.None? || kind == Some(SeriesType) ==>
      forall i :: 0 <= i < |r.series| ==> ShowOf(r.series[i], SearchByType(fetchShows, SeriesType, DefaultLanguage, 1).value[i])
    ensures kind == Some(MovieType) ==> r.series == []
    ensures kind == Some(SeriesType) ==> r.movies == []
    ensures kind.Some? && kind.value.OtherType? ==> r == SearchResult([], [])
  {
    SearchResult(
      if kind.None? || kind == Some(MovieType) then Map(SearchByType(fetchMovies, MovieType, DefaultLanguage, 1).value, AsMovie) else [],
      if kind.None? || kind == Some(SeriesType) then Map(SearchByType(fetchShows, SeriesType, DefaultLanguage, 1).value, AsShow) else [])
  }

  // ---------------------------------------------------------------- movie

  /** The response of `/movie/{id}`. */
  datatype MovieResponse = MovieResponse(
    id: nat,
    title: Option<string>,
    originalTitle: Option<string>,
    overview: Option<string>,
    posterPath: Option<string>,
    releaseDate: Option<string>,
    runtime: Option<int>,
    status: Option<string>)

  /** The movie status by its exact TMDB name; any other name gives None. */
  function MovieStatusByName(s: Option<string>): (r: Option<MovieStatus>)
    ensures r == Some(Rumored) <==> s == Some("Rumored")
    ensures r == Some(Announced) <==> s == Some("Planned")
    ensures r == Some(PreProduction) <==> s == Some("In Production")
    ensures r == Some(PostProduction) <==> s == Some("Post Production")
    ensures r == Some(Released) <==> s == Some("Released")
    ensures r == Some(Canceled) <==> s == Some("Canceled")
    ensures r != Some(Completed)
  {
    if s == Some("Rumored") then Some(Rumored)
    else if s == Some("Planned") then Some(Announced)
    else if s == Some("In Production") then Some(PreProduction)
    else if s == Some("Post Production") then Some(PostProduction)
    else if s == Some("Released") then Some(Released)
    else if s == Some("Canceled") then Some(Canceled)
    else None
  }

  /** `get_movie` on the decoded response. */
  function GetMovie(d: MovieResponse): (m: Movie)
    ensures m.sourceId == d.id && m.guid == "tvdb://movie/" + NatToString(d.id)
    ensures m.sourceUrl == Some(SourceBaseUrl + "movie/" + NatToString(d.id))
    ensures m.title == if Truthy(d.title) then d.title else NonEmpty(d.originalTitle)
    ensures m.runtime.Some? <==> d.runtime.Some? && d.runtime.value != 0
    ensures m.status == MovieStatusByName(d.status)
  {
    Movie(
      "tvdb://movie/" + NatToString(d.id), d.id,
      Some(SourceBaseUrl + "movie/" + NatToString(d.id)),
      if Truthy(d.title) then d.title else NonEmpty(d.originalTitle),
      NonEmpty(d.overview),
      ImageUrl(PosterSizes, d.posterPath),
      NonEmpty(d.releaseDate),
      if d.runtime.Some? && d.runtime.value != 0 then d.runtime else None,
      MovieStatusByName(d.status))
  }

  // ---------------------------------------------------------------- show and seasons

  /** One element of a season response's `episodes`; `episode_number` is read
      unconditionally by the sort. */
  datatype EpisodeEntry = EpisodeEntry(
    id: int,
    episodeNumber: int,
    name: Option<string>,
    overview: Option<string>,
    stillPath: Option<string>,
    runtime: Option<int>)

  /** The response of `/tv/{id}/season/{number}`. */
  datatype SeasonResponse = SeasonResponse(
    id: int,
    name: Option<string>,
    overview: Option<string>,
    posterPath: Option<string>,
    releaseDate: Option<string>,
    airDate: Option<string>,
    episodes: seq<EpisodeEntry>)

  function EntryNumber(e: EpisodeEntry): int { e.episodeNumber }

  function SeasonPath(showId: nat, number: int): string {
    SourceBaseUrl + "tv/" + NatToString(showId) + "/season/" + IntToString(number)
  }

  /** The `position`-th episode after sorting: its number is its position, its airdate
      the season's `air_date`. */
  function EpisodeOfEntry(showId: nat, number: int, resp: SeasonResponse, e: EpisodeEntry, position: int): Episode {
    Episode(
      "tvdb://series/" + NatToString(showId) + "/episodes/" + IntToString(e.id), e.id,
      if e.episodeNumber != 0 then Some(SeasonPath(showId, number) + "/" + IntToString(e.episodeNumber)) else None,
      NonEmpty(e.name), NonEmpty(e.overview),
      ImageUrl(StillSizes, e.stillPath),
      NonEmpty(resp.airDate),
      position,
      if e.runtime.Some? && e.runtime.value != 0 then e.runtime else None)
  }

  function SeasonHead(showId: nat, number: int, resp: SeasonResponse): Season {
    Season(
      "tvdb://series/" + NatToString(showId) + "/seasons/" + IntToString(resp.id),
      if resp.id != 0 then Some(resp.id) else None,
      Some(SeasonPath(showId, number)),
      NonEmpty(resp.name), NonEmpty(resp.overview),
      ImageUrl(PosterSizes, resp.posterPath),
      NonEmpty(resp.releaseDate),
      number, [])
  }

  /** `sorted(response["episodes"], key = episode_number)`: ordered by episode number,
      a permutation of the response's episodes, equal numbers kept in response order. */
  function SortedEntries(resp: SeasonResponse): (r: seq<EpisodeEntry>)
    ensures |r| == |resp.episodes|
  {
    SortByFacts(resp.episodes, EntryNumber);
    SortBy(resp.episodes, EntryNumber)
  }

  lemma SortedEntriesFacts(resp: SeasonResponse)
    ensures SortedBy(SortedEntries(resp), EntryNumber)
    ensures multiset(SortedEntries(resp)) == multiset(resp.episodes)
    ensures forall v :: WithKey(SortedEntries(resp), EntryNumber, v) == WithKey(resp.episodes, EntryNumber, v)
  {
    SortByFacts(resp.episodes, EntryNumber);
    SortByPermutes(resp.episodes, EntryNumber);
  }

  /** The season `get_season` builds: the sorted episodes, numbered 1, 2, ... */
  function SeasonOf(showId: nat, number: int, resp: SeasonResponse): Season {
    SeasonHead(showId, number, resp).(episodes := Numbered(showId, number, resp, SortedEntries(resp)))
  }

  /** The episodes of the entries, in order, numbered from 1. */
  function Numbered(showId: nat, number: int, resp: SeasonResponse, entries: seq<EpisodeEntry>): seq<Episode> {
    seq(|entries|, i requires 0 <= i < |entries| => EpisodeOfEntry(showId, number, resp, entries[i], i + 1))
  }

  /** The nested `get_season`, with its counting loop. */
  method GetSeason(showId: nat, number: int, resp: SeasonResponse) returns (season: Season)
    ensures season == SeasonOf(showId, number, resp)
  {
    var episodes := SortedEntries(resp);
    ghost var want := Numbered(showId, number, resp, episodes);
    var head := SeasonHead(showId, number, resp);
    season := head;
    var episodeCount := 1;
    for i := 0 to |episodes|
      invariant episodeCount == i + 1
      invariant season == head.(episodes := want[..i])
    {
      var e := EpisodeOfEntry(showId, number, resp, episodes[i], episodeCount);
      assert e == want[i];
      PrefixStep(want, i);
      season := season.(episodes := season.episodes + [e]);
      episodeCount := episodeCount + 1;
    }
    assert want[..|episodes|] == want;
  }

  lemma PrefixStep<T>(s: seq<T>, i: nat)
    requires i < |s|
    ensures s[..i + 1] == s[..i] + [s[i]]
  {
  }

  /** The episodes of a season are the response's episodes in the order of their TMDB
      episode numbers, renumbered exactly 1 .. n, and all carry the season's air date. */
  lemma SeasonEpisodes(showId: nat, number: int, resp: SeasonResponse)
    ensures |SeasonOf(showId, number, resp).episodes| == |resp.episodes|
    ensures forall i :: 0 <= i < |resp.episodes| ==> SeasonOf(showId, number, resp).episodes[i].number == i + 1
    ensures forall i :: 0 <= i < |resp.episodes| ==>
      SeasonOf(showId, number, resp).episodes[i].sourceId == SortedEntries(resp)[i].id
    ensures forall i :: 0 <= i < |resp.episodes| ==> SeasonOf(showId, number, resp).episodes[i].airdate == NonEmpty(resp.airDate)
  {
  }

  /** The response of `/tv/{id}`, with the `season_number` of each listed season. */
  datatype ShowResponse = ShowResponse(
    id: nat,
    name: Option<string>,
    originalName: Option<string>,
    overview: Option<string>,
    posterPath: Option<string>,
    firstAirDate: Option<string>,
    status: Option<string>,
    seasonNumbers: seq<int>)

  /** The show status by its exact TMDB name; any other name gives None. */
  function ShowStatusByName(s: Option<string>): (r: Option<ShowStatus>)
    ensures r == Some(Upcoming) <==> s == Some("In Production")
    ensures r == Some(Ongoing) <==> s == Some("Returning Series")
    ensures r == Some(Ended) <==> s == Some("Ended")
  {
    if s == Some("In Production") then Some(Upcoming)
    else if s == Some("Returning Series") then Some(Ongoing)
    else if s == Some("Ended") then Some(Ended)
    else None
  }

  /** The seasons fetched for the listed numbers, in listed order. */
  function ListedSeasons(showId: nat, numbers: seq<int>, fetchSeason: int -> SeasonResponse): (r: seq<Season>)
    ensures |r| == |numbers|
    ensures forall i :: 0 <= i < |numbers| ==> r[i] == SeasonOf(showId, numbers[i], fetchSeason(numbers[i]))
  {
    if numbers == [] then []
    else [SeasonOf(showId, numbers[0], fetchSeason(numbers[0]))] + ListedSeasons(showId, numbers[1..], fetchSeason)
  }

  /** `get_show` for the requested `id`; `d` is the decoded `/tv/{id}` response and
      `fetchSeason(n)` the decoded response for season n of the requested show. */
  function GetShow(id: nat, d: ShowResponse, short: bool, fetchSeason: int -> SeasonResponse): (s: Show)
    ensures s.guid == "tvdb://series/" + NatToString(d.id) && s.sourceId == d.id
    ensures s.sourceUrl == Some(SourceBaseUrl + "tv/" + NatToString(d.id))
    ensures s.status == ShowStatusByName(d.status)
    ensures short ==> s.seasons == []
  {
    Show(
      "tvdb://series/" + NatToString(d.id), d.id,
      Some(SourceBaseUrl + "tv/" + NatToString(d.id)),
      if Truthy(d.name) then d.name else NonEmpty(d.originalName),
      NonEmpty(d.overview),
      ImageUrl(PosterSizes, d.posterPath),
      NonEmpty(d.firstAirDate),
      ShowStatusByName(d.status),
      if short then [] else SortBy(ListedSeasons(id, d.seasonNumbers, fetchSeason), SeasonNumber))
  }

  /** Without `short`, the show has one season per listed number, in ascending order. */
  lemma ShowSeasons(id: nat, d: ShowResponse, fetchSeason: int -> SeasonResponse)
    ensures |GetShow(id, d, false, fetchSeason).seasons| == |d.seasonNumbers|
    ensures SortedBy(GetShow(id, d, false, fetchSeason).seasons, SeasonNumber)
    ensures multiset(Map(GetShow(id, d, false, fetchSeason).seasons, SeasonNumber)) == multiset(d.seasonNumbers)
  {
    var l := ListedSeasons(id, d.seasonNumbers, fetchSeason);
    SortByFacts(l, SeasonNumber);
    SortByPermutes(l, SeasonNumber);
    MapMultiset(SortBy(l, SeasonNumber), l, SeasonNumber);
    assert Map(l, SeasonNumber) == d.seasonNumbers;
  }

  /** Every season of the show is the season of a listed number fetched for the
      requested show id. */
  lemma ShowSeasonsOfRequest(id: nat, d: ShowResponse, fetchSeason: int -> SeasonResponse)
    ensures forall x :: x in GetShow(id, d, false, fetchSeason).seasons ==>
      exists n :: n in d.seasonNumbers && x == SeasonOf(id, n, fetchSeason(n))
  {
    var l := ListedSeasons(id, d.seasonNumbers, fetchSeason);
    SortByMembers(l, SeasonNumber);
    forall x | x in SortBy(l, SeasonNumber)
      ensures exists n :: n in d.seasonNumbers && x == SeasonOf(id, n, fetchSeason(n))
    {
      var i :| 0 <= i < |l| && l[i] == x;
      assert d.seasonNumbers[i] in d.seasonNumbers;
    }
  }
}
