/** The normalised records the current provider adapters produce (the models they
    import from `libs.models`): movies, shows, seasons and episodes with optional
    fields, and the two status enums. Dates are kept as the text handed to the date
    parser; URLs as the text handed to the URL validator. */
module MediaModel {
  import opened Wrappers

  datatype MovieStatus = Rumored | Announced | PreProduction | PostProduction | Completed | Released | Canceled

  datatype ShowStatus = Upcoming | Ongoing | Ended

  /** The `MediaType` of a search: 'movie', 'series', or a value the adapters do not support. */
  datatype MediaType = MovieType | SeriesType | OtherType(value: string) {
    function Value(): string {
      match this
      case MovieType => "movie"
      case SeriesType => "series"
      case OtherType(v) => v
    }
  }

  datatype Episode = Episode(
    guid: string,
    sourceId: int,
    sourceUrl: Option<string>,
    title: Option<string>,
    overview: Option<string>,
    image: Option<string>,
    airdate: Option<string>,
    number: int,
    runtime: Option<int>)

  datatype Season = Season(
    guid: string,
    sourceId: Option<int>,
    sourceUrl: Option<string>,
    title: Option<string>,
    overview: Option<string>,
    image: Option<string>,
    airdate: Option<string>,
    number: int,
    episodes: seq<Episode>)

  datatype Movie = Movie(
    guid: string,
    sourceId: int,
    sourceUrl: Option<string>,
    title: Option<string>,
    overview: Option<string>,
    image: Option<string>,
    airdate: Option<string>,
    runtime: Option<int>,
    status: Option<MovieStatus>)

  datatype Show = Show(
    guid: string,
    sourceId: int,
    sourceUrl: Option<string>,
    title: Option<string>,
    overview: Option<string>,
    image: Option<string>,
    airdate: Option<string>,
    status: Option<ShowStatus>,
    seasons: seq<Season>)

  datatype SearchResult = SearchResult(movies: seq<Movie>, series: seq<Show>)

  function EpisodeNumber(e: Episode): int { e.number }

  function SeasonNumber(s: Season): int { s.number }

  function EpisodesOf(s: Season): seq<Episode> { s.episodes }
}
