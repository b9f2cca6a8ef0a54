# project-atlas-api, modelled in Dafny

This project models the logic at the core of project-atlas-api. That FastAPI backend fetches movie and show metadata from TheTVDB, TMDB and IMDb's suggest endpoint, normalises it, finds the episodes missing from a Plex library, scrapes download sites, tracks user requests, and drives a Telegram bot. The HTTP calls, BigQuery and the framework are replaced by parameters. A fetch is a function from the request to the decoded answer. A query is a function returning its rows or None. The upstream of a retry loop is a sequence of outcomes, and the random jitter is a sequence of numbers. What remains is stated and proved over plain data.

One module per source file:

- `Retry` (retry.dfy): the two generations of `async_ext_api_call`, in libs/utils.py and libs/commons.py. Both are loops over the upstream outcomes that record the sleeps they make.
- `TvdbV4` and `TmdbV3` (tvdb_v4.dfy, tmdb_v3.dfy): the current TheTVDB v4 and TMDB v3 adapters in app/libs. They cover field preference chains, status maps, GUIDs, the en-US fallback, page fan-out, and the season merge and sort.
- `PlexMissing` (plex_missing.dfy): the missing-episode and missing-season report of `/show/missing`.
- `Scraper` (scraper.dfy): the quality classifier, the search and login forms, the login outcome, and the page concatenation.
- `Requests` (requests.dfy): the request list filter, the lookup guards, and the insert and patch clause building.
- `Imdb`, `TmdbLegacy` and `TvdbLegacy` (imdb.dfy, tmdb_legacy.dfy, tvdb_legacy.dfy): the older IMDb, TMDB and TheTVDB clients in libs.
- `Telegram` and `TelegramRouter` (telegram.dfy, telegram_router.dfy): the bot's send payload and the update handler.
- `LegacyModels` (models.dfy): the environment check and the defaults of the result models.
- Shared helpers: `Wrappers`, `Text` and `PyDict` (common.dfy), `Sorting` (sorting.dfy), and the record types of `MediaModel` (media.dfy).

An exception that escapes a handler is modelled as an error result with its HTTP status. An uncaught `KeyError`, `IndexError`, `TypeError` or `AttributeError` is the 500 that FastAPI answers with. Operations whose source changes state step by step are methods with loops. Each is proved equal to a specification function, and the properties are proved about that function.

## Model

| member | source | states |
|---|---|---|
| Text.Strip | libs/imdb.py:90 | `str.strip()` keeps a piece of the text that neither starts nor ends with a space, and everything removed before and after it is space |
| Text.Slice | routers/telegram.py:49 | `s[a:b]` is `s[a..b]` for bounds within the text, empty when b does not pass a, and runs to the end of the text when b passes it |
| Text.SplitFirstHead | libs/tmdb.py:52-53 | `split('-')[0]` is the longest prefix without a `-`: it is followed by a `-` or is the whole text |
| Retry.FirstSuccess | libs/utils.py:25-37 | the index of the first successful attempt among the first n upstream outcomes: every earlier one failed, and the one at that index succeeded whenever it is below n |
| Retry.Attempts | libs/utils.py:22-54 | the number of attempts made never exceeds the attempt budget |
| Retry.FailThenSucceed | libs/utils.py:33-37 | when the first n attempts fail and attempt n+1 succeeds, exactly n+1 attempts are made if that is within the budget, and the whole budget otherwise |
| Retry.UtilsSleepsAt | libs/utils.py:54-58 | one sleep per failed attempt that still has a successor, the i-th lasting the backoff base of failure i+1 plus its jitter |
| Retry.UtilsTotalSleep | libs/utils.py:54-58 | with jitter in [1,1000] ms, n sleeps last between 500·(2^n−1)+n and 500·(2^n−1)+1000·n ms: the base doubles from 500 ms |
| Retry.UtilsCall | libs/utils.py:14-63 | `async_ext_api_call` of libs/utils.py makes between 1 and max_retries+1 attempts and stops at the first success; it returns that attempt's decoded JSON, or after max_retries+1 failures raises the error of the last one (upstream status for a status error, 500 for decode and transport errors) with detail None, since the `'Error'` lookup reads the still-empty response; it sleeps exactly after the failed non-final attempts |
| Retry.CommonsBudget | libs/commons.py:36-39 | the older loop always makes at least one attempt (max(max_retries, 1)) |
| Retry.NegativeRetriesNeverStop | libs/commons.py:36-39 | with a negative max_retries the try counter stays 0 and the retry flag stays set after any number of passes: the loop never ends by itself |
| Retry.CounterReachesBudget | libs/commons.py:36-39 | after p passes within the budget the counter is p (0 when max_retries is 0) and the flag says retry exactly until the budget is reached |
| Retry.CommonsSleepsAt | libs/commons.py:68-72 | after the failed non-final attempt k it sleeps 2^(k−1)·1000 ms plus that attempt's jitter |
| Retry.CommonsTotalSleep | libs/commons.py:68-72 | with jitter in [1,1000] ms, n sleeps last between 1000·(2^n−1)+n and 1000·(2^n−1)+1000·n ms |
| Retry.RequestVerb | libs/commons.py:25 | POST exactly when `use_post` is set, GET otherwise |
| Retry.LogLabel | libs/commons.py:26-31 | the log label is `TVDb` for domain `thetvdb`, `TMDb` for `themoviedb`, else the caller when given and non-empty, else `TBD` |
| Retry.CommonsCall | libs/commons.py:13-77 | the older `async_ext_api_call` makes between 1 and max(max_retries,1) attempts, stops at the first success and returns its decoded JSON (or the raw response when parse_json is false), or raises the last failure's error (upstream status or 500, detail None) once the budget is spent; it sleeps only after failed non-final attempts |
| Sorting.SortByFacts | app/libs/tvdb.py:223-224 | Python's `sorted` with a key: the result is ordered by the key and stable, so the elements of each key keep their input order |
| Sorting.SortByPermutes | app/libs/tvdb.py:223-224 | `sorted` returns a permutation of its input |
| Sorting.GroupBy | app/libs/tvdb.py:158 | jq's `group_by`: non-empty groups, uniform in key, in strictly increasing key order, together a permutation of the input |
| TvdbV4.SearchParams | app/libs/tvdb.py:60-63 | the search sends the query, plus the type's value exactly when a type is given |
| TvdbV4.ItalianThenEnglish | app/libs/tvdb.py:77-81 | a search hit's title or overview is the Italian translation, else the English one, else the fallback |
| TvdbV4.FirstContaining | app/libs/tvdb.py:92-96 | the first canonical label that contains the lower-cased upstream label wins; None exactly when no label contains it |
| TvdbV4.MovieSearchStatus | app/libs/tvdb.py:91-97 | a missing or empty movie status gives None; otherwise the result is None exactly when no movie label names the status; any status found is one of the five the source compares against, never Rumored or Canceled |
| TvdbV4.ShowSearchStatus | app/libs/tvdb.py:104-109 | a missing or empty series status gives None; a present one gives None exactly when no canonical series label contains it |
| TvdbV4.ShowStatusFromLabel | app/libs/tvdb.py:104-109 | an upstream series status contained in the k-th canonical series label and in no earlier one maps to the k-th status |
| TvdbV4.ContinuingIsOngoing | app/libs/tvdb.py:105-107 | `Continuing` is mapped to ONGOING unless the UPCOMING label already contains it |
| TvdbV4.FirstContainingAt | app/libs/tvdb.py:92-109 | the status found is that of the first canonical label naming the upstream one |
| TvdbV4.MovieStatusFromLabel | app/libs/tvdb.py:92-96 | an upstream label contained in the k-th canonical movie label and in no earlier one maps to the k-th status |
| TvdbV4.SearchImage | app/libs/tvdb.py:82 | the thumbnail when truthy, else the image URL |
| TvdbV4.SearchAirdate | app/libs/tvdb.py:83-84 | the first air time when truthy, else `01/01/<year>` when the year is truthy, else None |
| TvdbV4.DoSearch | app/libs/tvdb.py:52-113 | the loop of `do_search` builds exactly the search result of the decoded hits |
| TvdbV4.SearchCounts | app/libs/tvdb.py:70-72 | every movie hit and every series hit is kept once, and every other hit is dropped |
| TvdbV4.SearchOfAppend | app/libs/tvdb.py:70-111 | hits keep their relative order: the result of a concatenation is the concatenation of the results |
| TvdbV4.SearchGuids | app/libs/tvdb.py:75-76 | each movie carries GUID `tvdb://movie/<tvdb_id>` and each series `tvdb://series/<tvdb_id>` |
| TvdbV4.FirstInLanguage | app/libs/tvdb.py:133-135 | the first translation in the language, None when there is none |
| TvdbV4.PreferredText | app/libs/tvdb.py:132-145 | the first Italian translation's text, else the first English one's, else the fallback |
| TvdbV4.MovieStatusById | app/libs/tvdb.py:149-153 | status ids 1..5 map one-to-one to ANNOUNCED, PRE_PRODUCTION, POST_PRODUCTION, COMPLETED, RELEASED; any other id gives None |
| TvdbV4.ShowStatusById | app/libs/tvdb.py:287-289 | status ids 3, 1, 2 map one-to-one to UPCOMING, ONGOING, ENDED; any other id gives None |
| TvdbV4.GetMovie | app/libs/tvdb.py:115-154 | the movie's GUID is `tvdb://movie/<id>`, it has a URL exactly when the response has a slug, its title and overview follow the Italian-then-English chains, a zero runtime becomes None, and its status follows the id map |
| TvdbV4.ListedSeasons | app/libs/tvdb.py:241-253 | listing the seasons fails only with the crash of a missing slug |
| TvdbV4.ListedSeasonsFacts | app/libs/tvdb.py:241-253 | the listing succeeds exactly when the slug is present or no entry has the requested type; it then turns each entry of that type, in order, into its season: the show's id and slug, the entry's GUID and number, the season page URL, and no episodes |
| TvdbV4.EntriesOfTypeMembers | app/libs/tvdb.py:241-253 | the kept entries are exactly the listed entries whose type is the requested one |
| TvdbV4.ListedSeasonsErr | app/libs/tvdb.py:242-248 | a kept season without a show slug makes the listing fail |
| TvdbV4.BuildSeasons | app/libs/tvdb.py:241-253 | the season loop computes exactly that listing |
| TvdbV4.SortedEmpty | app/libs/tvdb.py:254-255 | sorting the listed seasons keeps them without episodes |
| TvdbV4.FirstWithUrl | app/libs/tvdb.py:260-265 | the first episode group whose URL equals the season's, None when there is none |
| TvdbV4.Attach | app/libs/tvdb.py:259-265 | a season keeps its GUID, number and URL; it takes the episodes of the first group with its URL; without an airdate it takes that group's first episode's airdate when set; without a group it is unchanged |
| TvdbV4.AttachAll | app/libs/tvdb.py:259-265 | every season is attached in place, and the list keeps its length |
| TvdbV4.AttachEpisodes | app/libs/tvdb.py:257-265 | the `with_episodes` loop computes exactly that attachment |
| TvdbV4.GetShow | app/libs/tvdb.py:156-291 | `get_show` builds exactly the show specified from the response, the season type, the flag and the episode fetch |
| TvdbV4.ShowSeasons | app/libs/tvdb.py:254-265 | the show's seasons are sorted by number; with episodes, a season has none exactly when no group carries its URL |
| TvdbV4.ParsePageEpisodes | app/libs/tvdb.py:158-204 | grouping a page by season number loses and adds no episode |
| TvdbV4.ParsePageOrdered | app/libs/tvdb.py:158-204 | a page's seasons are in strictly increasing number order and none is empty |
| TvdbV4.SeasonsOfGroupsEpisodes | app/libs/tvdb.py:190-204 | the episodes of the built seasons are the grouped records, converted, in order |
| TvdbV4.FirstWithGuid | app/libs/tvdb.py:215 | the first merged season with the fragment's GUID, None exactly when there is none |
| TvdbV4.StepEpisodes | app/libs/tvdb.py:214-219 | one merge step adds exactly the fragment's episodes |
| TvdbV4.StepGuids | app/libs/tvdb.py:215-219 | a fragment whose GUID is new or found at position 0 is appended as a season of its own; otherwise it adds no season |
| TvdbV4.StepUnique | app/libs/tvdb.py:215-219 | a merge step keeps every GUID other than the first season's unique |
| TvdbV4.MergeAllFirst | app/libs/tvdb.py:213-219 | the first fragment stays the first merged season |
| TvdbV4.MergeAllEpisodes | app/libs/tvdb.py:213-219 | the merge loop loses and duplicates no episode |
| TvdbV4.MergeAllGuids | app/libs/tvdb.py:213-219 | exactly the fragments' GUIDs appear after the merge |
| TvdbV4.MergeAllUnique | app/libs/tvdb.py:213-219 | after the merge, every GUID other than the first fragment's names one season only |
| TvdbV4.MergeAllFirstCount | app/libs/tvdb.py:216-217 | every fragment with the first fragment's GUID stays a separate season (the `if not index` quirk) |
| TvdbV4.MergeStep | app/libs/tvdb.py:214-219 | one step of the merge loop adds at most one season |
| TvdbV4.MergeStepShape | app/libs/tvdb.py:214-219 | one step keeps every earlier season's GUID and number in place; it appends the fragment itself exactly when no earlier season has its GUID or the first one does (the `if not index` quirk), and otherwise extends the matched season |
| TvdbV4.MergeAllNonEmpty | app/libs/tvdb.py:213-219 | merging non-empty seasons gives non-empty seasons |
| TvdbV4.SortEachEpisodes | app/libs/tvdb.py:222-223 | sorting each season's episodes keeps its episodes and its GUID |
| TvdbV4.MergePages | app/libs/tvdb.py:213-224 | the merge loop and the two sorts compute exactly the merged seasons |
| TvdbV4.MergedEpisodes | app/libs/tvdb.py:211-224 | every episode of every page appears exactly once in the output |
| TvdbV4.MergedGuidsPermuted | app/libs/tvdb.py:224 | the final sort only reorders the seasons |
| TvdbV4.MergedGuids | app/libs/tvdb.py:211-224 | each GUID other than the first fragment's names exactly one output season; the first fragment's GUID appears as often as among the fragments |
| TvdbV4.MergedSorted | app/libs/tvdb.py:221-224 | seasons are in non-decreasing number order, each season's episodes too, and no season is empty when no fragment is |
| TvdbV4.ExtraPages | app/libs/tvdb.py:206-208 | no extra page unless total/size > 1; otherwise exactly pages 1..ceil(total/size)−1 |
| TvdbV4.ExtraPagesCover | app/libs/tvdb.py:206-208 | page 0 and the extra pages cover all items, and one page fewer would not |
| TvdbV4.GetSeasons | app/libs/tvdb.py:157-226 | the nested `get_seasons` computes the page's seasons, or when page 0 announces more pages, the in-order merge of all pages |
| TvdbV4.EpisodeGroupsNonEmpty | app/libs/tvdb.py:190-226 | every episode group returned has episodes, so attaching them is defined |
| TvdbV4.AsWrittenFailsOnSecondPage | app/libs/tvdb.py:206-209 | a first page announcing two items of one per page makes the request fail as written, while the intended fan-out succeeds |
| TvdbV4.EpisodeGroupsAsWritten | app/libs/tvdb.py:206-209 | as written, page 0 fails exactly when its page size is 0 or it announces more items than fit on one page; when it succeeds it agrees with the intended fan-out for any later pages |
| TmdbV3.ImageUrl | app/libs/tmdb.py:113-114 | an image URL exists exactly when the path is truthy, and is the secure base, the last listed size and the path |
| TmdbV3.ImagesAreOriginal | app/libs/tmdb.py:35-72 | posters and stills are both requested at size `original` under `https://image.tmdb.org/t/p/` |
| TmdbV3.NonEmpty | app/libs/tmdb.py:112 | an empty or missing text becomes None; any other is kept |
| TmdbV3.HitTitle | app/libs/tmdb.py:108-111 | a movie hit's title is `title`, else `original_title`; a series hit's is `name`, else `original_name`; otherwise None |
| TmdbV3.PageMedia | app/libs/tmdb.py:103-121 | one record per hit of the page, in page order |
| TmdbV3.MapPage | app/libs/tmdb.py:101-121 | the loop over a page's results computes exactly those records |
| TmdbV3.PageMediaAppend | app/libs/tmdb.py:103-121 | each hit appends its own record after the earlier ones |
| TmdbV3.SearchByType | app/libs/tmdb.py:77-128 | `do_search_by_type` fails exactly for a type other than movie or series |
| TmdbV3.UnsupportedTypeRefused | app/libs/tmdb.py:78-81 | an unsupported type raises 422 before any request |
| TmdbV3.FallbackOnce | app/libs/tmdb.py:98-99 | page 1 with no result outside en-US gives exactly the en-US answer, and an empty en-US page 1 is returned as is: the fallback happens at most once |
| TmdbV3.LaterPageAlone | app/libs/tmdb.py:98-123 | a page other than 1 neither falls back nor fans out |
| TmdbV3.LaterPagesSize | app/libs/tmdb.py:123-126 | the fan-out holds every hit of every page from the first requested one on, that page's records first |
| TmdbV3.HitIdentity | app/libs/tmdb.py:105-107 | every hit gets GUID `tvdb://<type>/<id>` and a source URL with no `/` between `movie` or `tv` and the id |
| TmdbV3.DoSearch | app/libs/tmdb.py:130-143 | without a type both movies and series are searched; with MOVIE only movies are filled and with SERIES only series; an unsupported type gives nothing; each result is the matching search hit, field by field, with runtime and status unset (and no seasons for series) |
| TmdbV3.MovieStatusByName | app/libs/tmdb.py:170-175 | Rumored, Planned, In Production, Post Production, Released, Canceled map one-to-one to RUMORED, ANNOUNCED, PRE_PRODUCTION, POST_PRODUCTION, RELEASED, CANCELED; COMPLETED is never produced |
| TmdbV3.GetMovie | app/libs/tmdb.py:145-176 | the movie's GUID is `tvdb://movie/<id>`, its URL `…/movie/<id>`, its title `title` else `original_title`, a zero runtime becomes None, and its status follows the name map |
| TmdbV3.SortedEntriesFacts | app/libs/tmdb.py:193 | the season's episodes sorted by episode number: ordered, a permutation, and stable for equal numbers |
| TmdbV3.GetSeason | app/libs/tmdb.py:179-227 | the nested `get_season` and its counting loop compute exactly the specified season |
| TmdbV3.SeasonEpisodes | app/libs/tmdb.py:209-225 | a season has one episode per response episode, in episode-number order, numbered exactly 1..n, each carrying the season's `air_date` |
| TmdbV3.ShowStatusByName | app/libs/tmdb.py:260-262 | In Production, Returning Series, Ended map one-to-one to UPCOMING, ONGOING, ENDED |
| TmdbV3.ListedSeasons | app/libs/tmdb.py:245-246 | one season per listed season number, in listed order |
| TmdbV3.GetShow | app/libs/tmdb.py:178-264 | the show's GUID is `tvdb://series/<id>`, its URL `…/tv/<id>`, its status follows the name map, and `short` gives no season |
| TmdbV3.ShowSeasons | app/libs/tmdb.py:243-248 | without `short`, one season per listed number, sorted ascending, the numbers a permutation of the listed ones |
| TmdbV3.ShowSeasonsOfRequest | app/libs/tmdb.py:243-248 | without `short`, every season is the one fetched for a listed number under the requested show id |
| PlexMissing.TvdbGuids | routers/plex.py:42-49 | exactly the GUIDs of Plex shows starting with `tvdb` are looked up |
| PlexMissing.PlexMatch | routers/plex.py:55-58 | the first Plex show whose GUID equals the fetched show's, None exactly when there is none |
| PlexMissing.MissingElements | routers/plex.py:53-102 | the handler's outer loop computes exactly the report of every fetched show, in fetch order |
| PlexMissing.ShowMissing | routers/plex.py:60-102 | the season loop of one matched show computes exactly that show's report |
| PlexMissing.SeasonMissing | routers/plex.py:65-85 | the episode loop of one season computes exactly its missing episodes |
| PlexMissing.MissingInSpec | routers/plex.py:66-85 | an episode is reported iff it is truthy, translated, not at index 0, and Plex has no truthy entry at the same season and episode index; reports come in ascending episode order |
| PlexMissing.SeasonSpec | routers/plex.py:60-102 | season 0 is never reported; a season is reported whole iff it is past Plex's seasons with more than one missing episode, or its missing count is `len(episodes) − 1`; then it is reported alone with length `len(episodes) − 1` and the last entry's air date |
| PlexMissing.PlaceholderOnlySeason | routers/plex.py:86-100 | a season holding only its placeholder entry is reported whole with length 0; a season with no entry is not reported |
| PlexMissing.ShowElementsOrdered | routers/plex.py:60-102 | a show's report is in ascending season order, then ascending episode order |
| PlexMissing.OrderedPairwise | routers/plex.py:60-102 | each element preceding the next is the same as every earlier element preceding every later one, so the report is sorted as a whole |
| PlexMissing.SeasonOrdered | routers/plex.py:60-102 | one season's contribution lies in that season and is in ascending episode order |
| PlexMissing.OrderedConcat | routers/plex.py:60-102 | appending a later season's ordered contribution to an ordered report of earlier seasons keeps it ordered |
| PlexMissing.AllElementsSource | routers/plex.py:54-58 | every reported element comes from one fetched show, and a fetched show no Plex show matches contributes nothing |
| PlexMissing.Missing | routers/plex.py:42-58 | every reported element is in the report of a show fetched for one of Plex's `tvdb` GUIDs that some Plex show matches |
| PlexMissing.FetchedSource | routers/plex.py:42-58 | the report of the shows fetched for Plex's `tvdb` GUIDs holds only elements of matched shows' reports |
| Scraper.FirstTokenAt | libs/scraper.py:108-110 | the first alternative of the quality pattern, in pattern order, that matches case-insensitively at a position |
| Scraper.SearchFrom | libs/scraper.py:112 | `search` finds the leftmost position where any alternative matches, and the first alternative matching there; None when no position matches |
| Scraper.MatchedText | libs/scraper.py:112-117 | group 1 of the match is the title's own text of the matched alternative; None exactly when nothing matches |
| Scraper.FirstContaining | libs/scraper.py:116-117 | the first quality entry containing the matched text, case-sensitively |
| Scraper.ZFill2 | libs/scraper.py:118 | `zfill(2)` pads a one-digit index with a 0 |
| Scraper.Quality | libs/scraper.py:99-121 | no match gives `11. Altro`; otherwise the label of the first entry containing the match; the catch-all is given exactly when there is no match or no entry contains it |
| Scraper.LabelIsNotOther | libs/scraper.py:114-118 | no entry's label is the catch-all |
| Scraper.OtherIsEleven | libs/scraper.py:114 | the catch-all label is `11. Altro`, one past the ten entries |
| Scraper.LowerFourKInNoEntry | libs/scraper.py:100-117 | a lower-case `4k` is contained in no entry, so it gets the catch-all |
| Scraper.InNoEntry | libs/scraper.py:116-121 | a match contained in no entry finds no index |
| Scraper.OneFortyFourIsQhd | libs/scraper.py:103-118 | `144` is first found inside the 1440p entry and labelled `03. 1440p` |
| Scraper.LabelOfQhd | libs/scraper.py:103-118 | the third entry is labelled `03. 1440p` |
| Scraper.LastIn | libs/scraper.py:136-143 | a key has a last written value exactly when some write names it |
| Scraper.WriteAll | libs/scraper.py:136-143 | the nested loops writing a list of dicts into the payload compute exactly the successive writes |
| Scraper.ApplyPairsGet | libs/scraper.py:137-138 | after writing a dict, a key holds its last written value (None written as `''` for config extras), else its earlier value |
| Scraper.ApplyAllGet | libs/scraper.py:136-143 | after a list of dicts, a key holds the value of the last dict that has it, else its earlier value |
| Scraper.SearchPayload | libs/scraper.py:131-143 | the search form is the query, page and result keys, then the config extras with None written as `''`, then the site's overrides |
| Scraper.SearchPayloadGet | libs/scraper.py:131-143 | each key holds the override's value if any override names it, else the extra's, else the result, page or query: later writes win |
| Scraper.EnvOr | libs/scraper.py:50-57 | the site's variable, else the default variable, else `''` |
| Scraper.LoginPayload | libs/scraper.py:49-61 | the login form is the two credentials followed by the config extras as they are |
| Scraper.LoginPayloadGet | libs/scraper.py:49-61 | user and password keys hold the site's, else the default's, else empty credentials unless an extra overrides them; an extra's key holds its last value |
| Scraper.SiteUrl | libs/scraper.py:46-48 | the URL is `https://` for an SSL site and `http://` otherwise, then the domain, then the path or nothing when it is missing; the search URL at lines 128-130 is built the same way |
| Scraper.AfterChecksSpec | libs/scraper.py:81-96 | a missing cookie disables the site; when all cookies are there the site is enabled if a cookie check exists, and otherwise keeps its flag |
| Scraper.Website.RecordLogin | libs/scraper.py:64-96 | `enabled` becomes false when the login call fails or does not answer 200, and otherwise follows the checks |
| Scraper.ParseElements | libs/scraper.py:204-226 | the loop over the page's elements computes exactly the items |
| Scraper.ItemsOfComplete | libs/scraper.py:218-224 | when every element has a title and a link, each gives one item, in order |
| Scraper.ItemsOfSound | libs/scraper.py:218-226 | every item is the stripped title, its quality, the date and the stripped link of an element with both a title and a link |
| Scraper.Search | libs/scraper.py:98-235 | a connect error, timeout or non-200 answer gives `[]`; a page other than 1 gives its own items only; a page's own items always come first |
| Scraper.PageOneFansOut | libs/scraper.py:167-235 | a 200 answer for page 1 gives its own items followed by the items of every page from 2 to the last announced page, each fetched with result 1; without a last page only its own |
| Scraper.PagesAgree | libs/scraper.py:167-235 | page concatenation depends only on the pages in the range |
| Scraper.PagesAppend | libs/scraper.py:186-235 | each later page's items follow those of the pages before it |
| Scraper.LaterPageIsSearch | libs/scraper.py:186-190 | each later page is one search of its own, with result 1, that does not fan out |
| Requests.ListQueryFor | libs/requests.py:36 | the all-requests query exactly when the user id is missing or 0, else the user's own list |
| Requests.Shape | libs/requests.py:39-53 | each row keeps status, id and season; the all-requests list carries the request count and a user's list the user's notes |
| Requests.Pending | libs/requests.py:54 | exactly the rows with status `WAIT` are kept |
| Requests.PendingAppend | libs/requests.py:54 | the filter keeps the rows' order |
| Requests.PendingExtremes | libs/requests.py:54 | the filter keeps a list of waiting rows whole and empties one without any |
| Requests.RequestsList | libs/requests.py:25-54 | a failing query is a 500; otherwise the rows are shaped for the query and, with `pendent_only`, exactly the waiting ones are kept, in order |
| Requests.Shaped | libs/requests.py:34-54 | one shaped row per query row, in order |
| Requests.ListedRows | libs/requests.py:34-54 | with `pendent_only`, a row is listed exactly when its status is `WAIT`; without it, every row is listed in its place |
| Requests.InfoOf | libs/requests.py:68-87 | the record keeps id, season, status and Plex notes, and is the user record exactly for a code lookup |
| Requests.GetRequest | libs/requests.py:56-88 | 404 with neither id nor code; with a code the code lookup, otherwise the id lookup; 500 when the query fails, 404 on no row, else the first row |
| Requests.GetRequestAnswers | libs/requests.py:57-87 | an answered lookup had an id or a code, and answers the user record exactly when it had a code |
| Requests.Digits | libs/requests.py:92 | a zero-padded field of exactly `width` decimal digits |
| Requests.DigitsValueOf | libs/requests.py:92 | a number of at most `width` digits reads back from its padded form |
| Requests.DateText | libs/requests.py:92 | today's date is written as ten characters `YYYY-MM-DD` |
| Requests.DateTextRoundTrip | libs/requests.py:92 | the date text reads back as the year, month and day it was made from |
| Requests.InsertParams | libs/requests.py:91-95 | the parameters are the payload with today's date, status `WAIT` and a falsy season replaced by -1, every other key unchanged |
| Requests.Rendered | libs/requests.py:101-102 | ints are written unquoted, and so are booleans, as `True` or `False`; strings are double-quoted, and None is written as `"None"` |
| Requests.Kept | libs/requests.py:100-102 | exactly the truthy parameters are listed |
| Requests.InsertListsOf | libs/requests.py:100-102 | the field and value lists have one entry per truthy parameter, paired in the same order |
| Requests.KeptHas | libs/requests.py:100 | every truthy parameter is among the insert's fields |
| Requests.KeptAppend | libs/requests.py:100-102 | the insert lists keep the parameters' order |
| Requests.InsertRequest | libs/requests.py:90-103 | the insert carries today's date and status `WAIT`, the season when truthy and -1 otherwise, every other field unchanged, with lists built from the stamped parameters |
| Requests.UpdatesOf | libs/requests.py:133-142 | one clause per set field, in the order season, notes, status, plex notes, each at the position the earlier set fields leave for it |
| Requests.ConditionOf | libs/requests.py:145-148 | without a truthy code the update is on `request_id = '<id>'`; with one, the condition is exactly `SHA256(CONCAT(request_id, '/', user_id, '/', request_season)) = FROM_BASE64('<code>')` |
| Requests.PatchRequest | libs/requests.py:109-149 | a patch is refused with 400 `Bad Request` exactly when a guard refuses it; otherwise the clauses of its set fields in fixed order and the condition |
| Requests.AcceptedPatchUpdates | libs/requests.py:110-142 | an accepted patch writes one or two clauses, either only global ones (season, notes) or only specific ones (status, Plex notes) |
| Requests.SeasonZeroNeedsCodeButIsNotWritten | libs/requests.py:129-136 | season 0 demands a request code yet is never written |
| Requests.PlexNotesNeedCode | libs/requests.py:119-141 | Plex notes are only written with a request code and never together with season or notes |
| Imdb.LineGroup | libs/imdb.py:32 | a line matches only when it starts with `imdb$` in any case and ends with `)`; the group runs from just after the first `(` at position 6 or later to just before the final `)` |
| Imdb.JsonpRoundTrip | libs/imdb.py:32 | unwrapping `imdb$<callback>(<payload>)` gives back any one-line payload, whatever parentheses it holds |
| Imdb.NoNewline | libs/imdb.py:32 | on a single line, the multi-line search is that line's own match |
| Imdb.WrappedGroup | libs/imdb.py:32 | the pattern's group on `imdb$<callback>(<payload>)` is exactly the payload when the callback holds no `(` |
| Imdb.WrappedOneLine | libs/imdb.py:32 | wrapping a one-line payload in a one-line callback gives a single line |
| Imdb.RecordOf | libs/imdb.py:46-52 | an entry with `q` gives GUID `imdb://<id>` and title `l`, kind `show` exactly for `TV series` and `movie` otherwise, year `y`, and the first poster when `i` is given; a missing `id` or `l` or an empty `i` raises |
| Imdb.Records | libs/imdb.py:41-52 | the records of the entries with `q`; the loop raises exactly when one of them is malformed |
| Imdb.RecordsAppend | libs/imdb.py:43-52 | an entry without `q` adds nothing, and one with `q` adds its record last |
| Imdb.RecordsShape | libs/imdb.py:46-49 | every record has an `imdb://` GUID and kind `show` or `movie` |
| Imdb.OfKind | libs/imdb.py:56 | with a query type exactly the records of that type are kept, and without one all are kept |
| Imdb.Details | libs/imdb.py:27-57 | a non-200 answer, a text without the JSONP wrapper or an undecodable payload gives None; a payload without `d` gives the query with no records; otherwise the call fails exactly when a record cannot be read, and succeeds with the query and its records, of the requested type when one is given |
| Imdb.Utf8 | libs/imdb.py:84 | the UTF-8 encoding of a character is one to four bytes, and one byte for ASCII |
| Imdb.HexDigit | libs/imdb.py:84 | percent-encoding writes upper-case hex digits |
| Imdb.PercentBytes | libs/imdb.py:84 | each byte is written as `%` and two hex digits (section 2.1 of RFC 3986) |
| Imdb.QuoteChar | libs/imdb.py:84 | unreserved characters (section 2.3 of RFC 3986) stay as they are, and every other character is percent-encoded |
| Imdb.Quote | libs/imdb.py:84 | the quoted text holds only unreserved characters, `%` and hex digits |
| Imdb.QuoteRoundTrip | libs/imdb.py:84 | on ASCII text, decoding the quoted text gives the text back |
| Imdb.SuggestPath | libs/imdb.py:84 | `/suggests/`, the query's first character lower-cased, `/`, the quoted query and `.json`; an empty query raises |
| Imdb.QueryKindFor | libs/imdb.py:60-61 | the translation query exactly with `trans_only`, else the full movie query exactly for a movie, else the show query |
| Imdb.IdList | libs/imdb.py:62 | the ids are substituted as a comma-separated list of single-quoted literals |
| Imdb.MediaById | libs/imdb.py:59-80 | the chosen query runs with the id list and the upper-cased language; a failed run or a row that does not decode gives `[]`, otherwise one decoded `mediaInfo` per row in order |
| Imdb.IdOfImdbGuid | libs/imdb.py:93 | the id sent for translation is the GUID after `imdb://` |
| Imdb.ResponseIds | libs/imdb.py:93 | one id per record of a response, the part of its GUID after `://` |
| Imdb.IdsOfAppend | libs/imdb.py:93 | a further answered query adds its records' ids last; an unanswered one adds none |
| Imdb.IdsOfMembers | libs/imdb.py:93 | every id looked up belongs to a record of an answered query, and every record of every answered query has its id looked up |
| Imdb.IdsAsWritten | libs/imdb.py:93 | as written, the ids are read without error exactly when every query was answered |
| Imdb.IdsAsWrittenAgrees | libs/imdb.py:93 | where every query was answered, the as-written ids are those of the corrected reading |
| Imdb.FailedSuggestCrashes | libs/imdb.py:28-93 | a single title whose suggest call answers 404 gives None, and reading the ids then raises |
| Imdb.FirstTranslation | libs/imdb.py:98 | the first translation whose title id ends the GUID |
| Imdb.Translated | libs/imdb.py:97-100 | a record keeps GUID, type, year and poster; it takes the title of the first translation whose title id ends its GUID, and is unchanged without one |
| Imdb.TranslatedIdempotent | libs/imdb.py:97-100 | translating twice changes nothing more |
| Imdb.TranslateResults | libs/imdb.py:97-100 | the loop over one response translates every record in place, and raises exactly when a matching translation has no title |
| Imdb.Overridden | libs/imdb.py:96-100 | the override fails with a 500 only; the lemmas below give its cases |
| Imdb.OverriddenRecords | libs/imdb.py:96-100 | a successful override keeps one response per query, unanswered exactly where the query was, with the same query and, in order, each record replaced by its translated form, none of them breaking |
| Imdb.OverriddenSkipsNone | libs/imdb.py:96-100 | an unanswered query neither fails the override nor changes the other responses; it stays unanswered |
| Imdb.TranslateAll | libs/imdb.py:96-100 | the loop over every answered query fails exactly when some record's matching translation has no title, and otherwise leaves each response translated; it computes exactly `Overridden` |
| Imdb.Answer | libs/imdb.py:83-90 | each title is stripped and used as the query; an empty one raises; whatever raises is a 500 |
| Imdb.Gather | libs/imdb.py:89-91 | one answer per title, in title order; the search fails exactly when one title's answer raises, and then with a 500 |
| Imdb.GatherAll | libs/imdb.py:89-91 | awaiting the gathered calls in order succeeds exactly when every call succeeds, and then yields each call's value at its position; a failure is the error of one of the calls |
| Imdb.Answers | libs/imdb.py:89-91 | the gathered answers fail exactly when one title's suggest call raises; otherwise one answer per title, each that title's |
| Imdb.SearchByName | libs/imdb.py:82-102 | every failure is a 500, and a title that strips to nothing always fails the search |
| Imdb.SearchByNameRecords | libs/imdb.py:82-102 | the search fails exactly when a suggest call raises, or every call is answered and some record's matching translation has no title; otherwise one response per title, unanswered exactly where its suggest answer is, with the stripped title as query and, in order, each record of the answer titled by the first translation whose id ends its GUID |
| Imdb.RefusedTitleIsSkipped | libs/imdb.py:82-102 | a title whose suggest call gets no answer adds an unanswered response last and changes nothing else: the search succeeds exactly when it did without that title |
| Imdb.SearchMediaByName | libs/imdb.py:82-102 | the gathering followed by the in-place override computes exactly `SearchByName` |
| TmdbLegacy.PosterBase | libs/tmdb.py:22-30 | None on a non-200 answer, otherwise the secure base URL followed by the last poster size; an empty size list raises |
| TmdbLegacy.RecordsOf | libs/tmdb.py:36-44 | the first non-empty list among movie results, TV results and results, else the answer itself as the only record |
| TmdbLegacy.TitleOf | libs/tmdb.py:49-50 | a movie's `title`, else its `original_title`; a show's `name`, else its `original_name`; a missing fallback key raises |
| TmdbLegacy.YearOf | libs/tmdb.py:52-53 | a year exactly when the release date or the first-air date is truthy; it is the text before the first `-` of the release date when that is truthy, else of the first-air date |
| TmdbLegacy.PosterOf | libs/tmdb.py:54 | the base followed by the poster path when both are truthy; a missing path raises once the base is truthy |
| TmdbLegacy.ResultOf | libs/tmdb.py:47-55 | a record gives GUID `tmdb://<id>`, kind `movie` exactly when it has a `title` and `show` otherwise, and its title, year and poster; it raises exactly when the title or poster lookup does |
| TmdbLegacy.GuidRoundTrip | libs/tmdb.py:48 | the record's id reads back from the digits after `tmdb://` |
| TmdbLegacy.Details | libs/tmdb.py:32-56 | None on a non-200 answer; otherwise the query and one result per record, in order; it raises exactly when some record does |
| TmdbLegacy.LookupRequest | libs/tmdb.py:59-66 | with a source, `/find/<id>` with `external_source` set to `<source>_id`; without one, `/<tv or kind>/<id>`; the language always |
| TmdbLegacy.SearchRequest | libs/tmdb.py:84-89 | `/search/<tv or kind>` with the language and the title as query |
| TmdbLegacy.ShowsUseTv | libs/tmdb.py:66 | a show is looked up under `/tv/`, never under its own kind name |
| TmdbLegacy.MediaById | libs/tmdb.py:58-81 | one answer per id, in order, each the details of its own lookup |
| TmdbLegacy.MediaByName | libs/tmdb.py:83-103 | one answer per title, in order, each the details of its own search |
| TvdbLegacy.JwtToken | libs/tvdb.py:25-42 | None on a non-200 login, else the token; a missing token raises |
| TvdbLegacy.Headers | libs/tvdb.py:18-23 | the four headers in order, with the bearer authorization and the language |
| TvdbLegacy.FailedLoginSendsNoCredentials | libs/tvdb.py:17-39 | after a failed login the calls carry an empty authorization |
| TvdbLegacy.RecordsOf | libs/tvdb.py:48-49 | a `data` list as it is, a single record wrapped; a missing `data` raises |
| TvdbLegacy.ResultOf | libs/tvdb.py:52-58 | GUID `tvdb:<id>` with a single colon, the series name as title, always a show; a year exactly when the first-air date is truthy, and then exactly the text before its first `-`; the site URL followed by the poster exactly when the poster is truthy; a missing name, first-air date or poster raises |
| TvdbLegacy.GuidRoundTrip | libs/tvdb.py:53 | the id reads back from the digits after `tvdb:`, and the GUID never starts with `tvdb://` |
| TvdbLegacy.Details | libs/tvdb.py:44-59 | None on a non-200 answer; otherwise the query and one result per record in order; it raises exactly when the records or one of them do |
| TvdbLegacy.LookupRequest | libs/tvdb.py:62-68 | `/series/<stripped id>` with no parameters |
| TvdbLegacy.SearchRequest | libs/tvdb.py:73-82 | `/search/series` with the stripped title as `name` |
| TvdbLegacy.ShowById | libs/tvdb.py:61-70 | one answer per stripped id, in order |
| TvdbLegacy.ShowByName | libs/tvdb.py:72-84 | one answer per stripped title, in order |
| TvdbLegacy.AnswersCarryStrippedQuery | libs/tvdb.py:79-82 | an answered search carries the stripped title as its query |
| LegacyModels.EnvVarsCheck | libs/models.py:10-15 | 511 exactly when the required list is empty or a required variable is unset; otherwise it passes, warning exactly when a suggested variable is unset |
| LegacyModels.SuggestedOnlyWarn | libs/models.py:14-15 | the suggested variables never decide whether the check passes |
| LegacyModels.MoreVariablesStillPass | libs/models.py:10-15 | setting more variables never makes a passing check fail or warn |
| LegacyModels.Authorization | libs/tmdb.py:18 | `Bearer <token>` for a non-empty token, else the empty string |
| LegacyModels.NewResultObject | libs/models.py:27-33 | a result built from its required fields has no year, poster or seasons |
| LegacyModels.NewMatchResults | libs/models.py:42-44 | a match built from its query alone has no results |
| Telegram.TextJson | libs/telegram.py:93-95 | a missing message is sent as `null`, any other as its text |
| Telegram.Entry | libs/telegram.py:85-99 | the payload holds the callback id exactly for a callback answer and the MarkdownV2 parse mode otherwise, the chat exactly when given, photo and caption exactly with an image, the text exactly without an image and without a callback, and the choices as `inline_keyboard` exactly when they are truthy |
| Telegram.BuildPayload | libs/telegram.py:85-99 | the payload built key by key has exactly the keys and values stated per key |
| Telegram.Endpoint | libs/telegram.py:101 | `answerCallbackQuery`, with no leading slash, for a callback; `/sendPhoto` with an image; `/sendMessage` otherwise |
| Telegram.PayloadJson | libs/telegram.py:104-105 | the payload is sent under the Bot API key names, each with its value |
| Telegram.Description | libs/telegram.py:110-113 | a body has a description exactly when it is a JSON object with a `description` entry |
| Telegram.SendOutcomeAsWritten | libs/telegram.py:107-117 | as written, a send succeeds exactly on a 200; any other error it raises carries the answer's status |
| Telegram.SendOutcome | libs/telegram.py:107-117 | a send succeeds exactly on a 200; a refusal raises with the answer's status, carrying the description when there is one and the payload sent otherwise |
| Telegram.SendOutcomeAgrees | libs/telegram.py:107-117 | wherever the source does not crash, the intended reading gives the same outcome |
| Telegram.RefusalWithoutDescriptionCrashes | libs/telegram.py:110-116 | a 404 answering `{"ok": false}` makes the source raise a 500, while the intended reading keeps the 404 |
| Telegram.SendMessage | libs/telegram.py:75-117 | the post goes to the Bot API base, the token and the endpoint; the endpoint agrees with the payload's keys; the payload holds exactly the keys `Entry` gives, each with the value it gives; the outcome follows the answer, with its status on refusal |
| Telegram.UserStatus | libs/telegram.py:60-73 | -1 (the help status) when the query fails or answers no row, else the first row's status |
| TelegramRouter.BotCommands | routers/telegram.py:46 | exactly the `bot_command` entities, the first of them being the first such entity of the message |
| TelegramRouter.Forward | routers/telegram.py:52-54 | a truthy action not starting with `/` becomes the message and the action is cleared; anything else is unchanged |
| TelegramRouter.CommandOf | routers/telegram.py:49 | the command is `text[offset:length]`, the length taken as an end position: empty when it does not pass the offset, and running to the end of the text when it passes the end |
| TelegramRouter.CommandSliceQuirk | routers/telegram.py:49 | `/start` at offset 3 of `hi /start` reads `/st` |
| TelegramRouter.Parse | routers/telegram.py:30-54 | 501 exactly when the update holds neither a message nor a callback; a callback's data is the action; a message's stripped, lower-cased text is the message; a callback without data, a message without text, or entities with no command raise |
| TelegramRouter.CommandAction | routers/telegram.py:43-54 | a message with entities that parses has a command entity; its action is the text sliced by the first one, its message the stripped, lower-cased text |
| TelegramRouter.CallbackDataBecomesMessage | routers/telegram.py:41-54 | callback data that is not a command becomes the message unchanged, neither stripped nor lower-cased |
| TelegramRouter.ReadUpdate | routers/telegram.py:35-54 | a callback is answered at once, and the update is read as specified |
| TelegramRouter.CommandKey | routers/telegram.py:63-65 | a command the tree knows is answered by itself, any other by `/help` |
| TelegramRouter.Keyboard | routers/telegram.py:25 | choices are passed on only when they are truthy |
| TelegramRouter.CommandReply | routers/telegram.py:61-73 | a command sends its entry's message and choices, then writes the entry's status code as the user's status; a tree without the key or an entry without a code raises before anything is sent |
| TelegramRouter.RouteOf | routers/telegram.py:84-97 | the routing fails exactly when `/help` or its code is missing, or when no earlier check matched and a search key lacks its code; the help route is taken exactly in the help status; a search only in a search status |
| TelegramRouter.ChooseRoute | routers/telegram.py:84-97 | the handler's chain of status and id checks picks exactly the specified route |
| TelegramRouter.NotFoundIsNeverFound | routers/telegram.py:87-91 | a message mentioning `not-found` is never taken as a found id |
| TelegramRouter.IdsWinOverSearch | routers/telegram.py:84-91 | outside the help status, a Plex id or an online provider id wins over the search statuses, Plex first |
| TelegramRouter.RouteAction | routers/telegram.py:84-134 | every route but the unhandled one names a tree key |
| TelegramRouter.MediaTypeOf | routers/telegram.py:99 | `movie` exactly in the `/srcMovie` status, else `show`; a tree without `/srcMovie` or its code raises |
| TelegramRouter.PlanOf | routers/telegram.py:101-110 | a message without the `plex://not-found` prefix is searched on Plex as it is; one with it is searched online with the marker removed |
| TelegramRouter.OnlineTitleDropsPrefix | routers/telegram.py:110 | the online title is the message after its leading `plex://not-found` marker, with every further occurrence of the marker removed as well |
| TelegramRouter.Icon | routers/telegram.py:128 | `:movie_camera:` for movies, `:clapper_board:` otherwise |
| TelegramRouter.ChoiceText | routers/telegram.py:125-129 | exactly `{icon} {title} ({year})`, with `N/D` for a missing or empty year |
| TelegramRouter.ChoicesOf | routers/telegram.py:124-131 | one choice per hit, in order, rendered by `emojize` and linking to the hit's GUID |
| TelegramRouter.SearchBase | routers/telegram.py:121-123 | `plex://<type>search/<title>` (no slash before `search`) when Plex answered, else `tmdb://` for movies or `tvdb://` for shows followed by `<type>/search/<title>` |
| TelegramRouter.RunSearch | routers/telegram.py:98-132 | the search branch chooses the plan's action, sends the notice only for an online search, and builds the paginated keyboard of the results |
| TelegramRouter.PassedChoices | routers/telegram.py:139-140 | the search keyboard when truthy, else the entry's own choices |
| TelegramRouter.MessageReply | routers/telegram.py:136-143 | the entry's message with the passed choices, then its status code as the user's status exactly when it has one; no action, or one the tree lacks, raises |
| TelegramRouter.Reply | routers/telegram.py:136-145 | the reply is sent as specified and ends in a 204 |
| TelegramRouter.Finish | routers/telegram.py:136-145 | what was sent before, then the reply and a 204, or the error it raised |
| TelegramRouter.FinishToChat | routers/telegram.py:136-145 | when what came before and the reply go to one chat, so does everything finished |
| TelegramRouter.FinishAfter | routers/telegram.py:136-145 | finishing after earlier sends keeps those sends first and changes neither the reply nor the response |
| TelegramRouter.RoutedReply | routers/telegram.py:84-145 | every route but the search answers the message by its route's entry, with that entry's own choices |
| TelegramRouter.SearchOutcome | routers/telegram.py:98-145 | a search succeeds: the online notice, if any, comes first, then the entry's message with the search keyboard, then the status write |
| TelegramRouter.AnswerSearch | routers/telegram.py:98-145 | the search branch of the handler computes exactly the specified answer |
| TelegramRouter.AnswerCommand | routers/telegram.py:61-73 | the command branch of the handler sends exactly the command's reply and ends as specified |
| TelegramRouter.SearchAnswer | routers/telegram.py:98-145 | everything a search sends goes to the user's chat and answers no callback |
| TelegramRouter.MessageAnswer | routers/telegram.py:76-145 | everything a message answer sends goes to the user's chat and answers no callback |
| TelegramRouter.MessageOutcome | routers/telegram.py:36-145 | a message update's answer is the callback acknowledgement, if any, then exactly the message answer |
| TelegramRouter.AnswerMessage | routers/telegram.py:76-145 | the message part of the handler computes exactly the specified answer |
| TelegramRouter.AnswerParsed | routers/telegram.py:56-145 | after parsing, the handler refuses an unusable update with a 500, answers a command, or answers the message, as specified |
| TelegramRouter.Dispatch | routers/telegram.py:56-145 | an unusable update is refused with a 500 and nothing sent; otherwise everything sent goes to the update's chat and answers no callback |
| TelegramRouter.PlexaAnswer | routers/telegram.py:20-148 | the handler computes exactly the specified answer: the sends and status writes in order, and the response status or error |
| TelegramRouter.Answer | routers/telegram.py:20-148 | a callback is acknowledged first and only there; an update without a callback acknowledges none |
| TelegramRouter.NoContentNotImplemented | routers/telegram.py:30-32 | an update with neither a message nor a callback query is refused with a 501 and nothing is sent |
| TelegramRouter.CallbackAnsweredFirst | routers/telegram.py:36-39 | a callback query is answered before anything else, even when the handler then fails; other updates answer none |
| TelegramRouter.UnusableUpdateRejected | routers/telegram.py:56-59 | an update without chat, or with neither action nor message, is refused with a 500 |
| TelegramRouter.CommandAnswered | routers/telegram.py:61-73 | a command is answered by its entry, or by `/help` when unknown: its message, then its status code as the user's status; an entry without a code raises |
| TelegramRouter.MessageStatusFollowsEntry | routers/telegram.py:136-145 | after a routed message the user's status is written exactly when the chosen entry has a code, and then last |
| TelegramRouter.UnhandledMessageCrashes | routers/telegram.py:133-138 | a message in a status with no route and carrying no id leaves the action unset, and reading the tree at it raises a 500 |
| TelegramRouter.PlexSearchedFirst | routers/telegram.py:101-141 | in a search status a fresh title is searched on Plex under its stripped text, and the reply with its keyboard is the first thing sent after any callback answer |
| TelegramRouter.OnlineSearchAfterPlexMiss | routers/telegram.py:108-141 | after `plex://not-found` the notice is sent, then the title without the marker is searched on TMDB in the movie status or TheTVDB otherwise, and its reply follows |

## Left out

- HTTP transport (httpx clients, TLS, timeouts): every upstream call is a function parameter that gives the answer for a request, and `asyncio.gather` is an in-order map over the requests (`Wrappers.Gather`), so concurrency and interleaving are not modelled.
- `time.sleep` and `random.randint`: the jitter values are inputs and the sleeps are returned as a list of durations, not slept.
- Logging, including the `tldextract` logger being switched off and on in libs/commons.py: log output has no effect on results; the domain `tldextract` extracts is an input of `Retry.LogLabel`.
- The URL-encoded log line of libs/utils.py:26-28 is only logged and is left out.
- `dateparser`: air dates are kept as the raw text handed to the parser.
- pydantic `HttpUrl` validation: URLs are plain strings.
- JSON decoding: decoding a body is a function parameter that may fail.
- `jq`: the `group_by` program is modelled directly by `Sorting.GroupBy`.
- BeautifulSoup and lxml: the elements a page yields and the last page number of its navigator are inputs; HTML parsing is not modelled.
- YAML configuration, `fake_useragent` and the httpx cookie jar: the configuration is an input, the user agent is not modelled and a cookie's presence is a boolean input.
- BigQuery: query execution is a parameter giving the rows, and the SQL text is not built; the models keep the clause lists and parameters the queries are made of. libs/queries.py is not part of this model.
- `register_user_status` (libs/telegram.py:46-58): only runs a BigQuery statement and returns its row count.
- `delete_request` (libs/requests.py:154-160): only runs a BigQuery statement.
- `set_user_status`, `tg_action_tree` and `build_paginated_choices` are used by routers/telegram.py but not defined in libs/telegram.py: status writes are recorded effects, the action tree is an input map and the keyboard builder is a parameter.
- Telegram.Endpoint: the callback endpoint is `answerCallbackQuery` with no leading `/` (libs/telegram.py:101), so the acknowledgement is posted to `<base>bot<token>answerCallbackQuery`, a path the Bot API is likely to refuse. The model keeps the URL as written. The routers take the acknowledgement to succeed, so the refusal is not modelled there (not executed).
- Telegram.SendMessage: callback query ids are integers, following the `int` annotation of libs/telegram.py:77. The Bot API sends them as strings, whose truthiness is non-emptiness rather than non-zero; the model does not cover that.
- TelegramRouter: every send made by the router is taken to succeed. A refused send would raise out of the handler; that behaviour is modelled by `Telegram.SendMessage` alone.
- `emoji.emojize`: rendering of emoji codes is a parameter.
- The Google Apps Script post of routers/plex.py:105-108: an outbound side effect whose answer is ignored.
- The canonical labels of `MovieStatus` and `ShowStatus` are not in the files of this model: they are taken as a `StatusLabels` parameter.
- The fields of the `libs.models` `Media` and `Request` models are not in the files of this model: `MediaModel` infers them from how the code uses them.
- Case-insensitive comparison and `lower()`/`upper()`: `Text.Lower` folds ASCII letters only, while Python folds all of Unicode.
- Requests.DateText: requires a year from 1000 to 9999 and a valid month and day; `strftime('%Y')` for other years is platform-dependent and not modelled.
- Imdb.QuoteRoundTrip: proved for ASCII text only, because `Unquote` models single-byte escapes and does not decode UTF-8 sequences.
- Retry.UtilsCall: requires max_retries >= 0. With max_retries = -1 the counter starts at 0, the loop never runs, and `raise exception` raises an UnboundLocalError because `exception` was never assigned. With max_retries <= -2 the counter starts negative and is truthy, so the loop runs: it returns on the first success, and if every attempt fails the counter never reaches 0 and the loop never ends, without sleeping. Neither case is modelled.
- Retry.CommonsCall: requires max_retries >= 0. With a negative value the source loops forever; `Retry.NegativeRetriesNeverStop` states that the counter never reaches the budget.
- The SQLAlchemy `database/` package, the FastAPI wiring (main.py, app/routers, routers/search.py, routers/requests.py, routers/match.py), the wrappers of libs/plex.py and routers/libs/tmdb.py, and the declarations of app/libs/models.py beyond the media-type values.

## Findings

| source | as written | input that shows it | evidently intended | confidence | as-written member | corrected member |
|---|---|---|---|---|---|---|
| app/libs/tvdb.py:209 | when the first episode page says more pages exist (total items over page size above 1), the method calls `self.get_seasons`, which the class does not have, so an AttributeError becomes a 500 | first page `EpisodePage("s", 2, 1, [])`: two items at one per page | fetch the remaining pages with the nested `get_seasons` and merge their episodes into the seasons | not executed | TvdbV4.AsWrittenFailsOnSecondPage | TvdbV4.GetSeasons |
| libs/imdb.py:93 | reads `response['results']` of every suggest answer, including the `None` kept for a refused or undecodable one, so a TypeError fails the whole search with a 500 | one title whose suggest call answers 404 | skip the queries that got no answer and collect ids from the others, so that an unanswered title adds an unanswered response and changes nothing else | not executed | Imdb.FailedSuggestCrashes | Imdb.SearchByName |
| libs/telegram.py:116 | a refused send whose JSON body is truthy but has no `'description'` is indexed outside the `try`, so a KeyError gives a 500 instead of the answer's status | status 404 with body `{"ok": false}` | raise with the answer's status code and the payload as detail | not executed | Telegram.RefusalWithoutDescriptionCrashes | Telegram.SendMessage |
