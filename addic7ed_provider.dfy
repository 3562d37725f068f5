/**
  `Addic7edProvider` as an object: its credentials and login flag, the cache region it
  keeps the show index, the last fetch time, the login session and the movie ids in, and
  the operations that read and update them.
 */
module Addic7edProvider {
  import opened Wrappers
  import opened Text
  import opened Addic7edCommon
  import opened Addic7edShowIndex
  import opened Addic7edListing
  import opened Addic7edLogin
  import opened CacheRegion

  /** `SHOW_EXPIRATION_TIME` and `MOVIE_EXPIRATION_TIME`: one week, in seconds. */
  const SHOW_EXPIRATION_TIME := 7 * 24 * 60 * 60
  const MOVIE_EXPIRATION_TIME := 7 * 24 * 60 * 60

  /** The keys dogpile derives for the memoized `_get_show_ids()` and `get_movie_id(movie, year)`. */
  const SHOW_IDS_KEY := "subliminal_patch.providers.addic7ed:_get_show_ids|"
  const MOVIE_ID_PREFIX := "subliminal_patch.providers.addic7ed:get_movie_id|"
  /** `last_show_ids_fetch_key` */
  const LAST_FETCH_KEY := "addic7ed_last_id_fetch"
  /** The key the stored login session lives under. */
  const VERIFICATION_KEY := "addic7ed_data"

  /** What the provider keeps in the region. */
  datatype CacheValue =
    | ShowIdsValue(ids: ShowIndex)
    | FetchTime(at: int)
    | Verification
    | MovieIdValue(movieId: Option<string>)

  function MovieIdKey(movie: string, year: Option<int>): string {
    MOVIE_ID_PREFIX + movie + " " + YearString(year)
  }

  /** Each of the provider's keys holds the kind of value the provider stores there. */
  predicate ValidEntry(key: string, v: CacheValue) {
    && (key == SHOW_IDS_KEY ==> v.ShowIdsValue?)
    && (key == LAST_FETCH_KEY ==> v.FetchTime?)
    && (key == VERIFICATION_KEY ==> v.Verification?)
    && (StartsWith(key, MOVIE_ID_PREFIX) ==> v.MovieIdValue?)
  }

  /** The provider's fixed keys are not movie-id keys. */
  lemma FixedKeysAreNotMovieKeys()
    ensures !StartsWith(SHOW_IDS_KEY, MOVIE_ID_PREFIX)
    ensures !StartsWith(LAST_FETCH_KEY, MOVIE_ID_PREFIX) && !StartsWith(VERIFICATION_KEY, MOVIE_ID_PREFIX)
  {
    assert SHOW_IDS_KEY[36] != MOVIE_ID_PREFIX[36];
  }

  predicate RegionValid(entries: map<string, Stored<CacheValue>>) {
    forall k :: k in entries ==> ValidEntry(k, entries[k].value)
  }

  /** A show index younger than `SHOW_EXPIRATION_TIME` is in the region. */
  predicate FreshShowIds(entries: map<string, Stored<CacheValue>>, now: int) {
    SHOW_IDS_KEY in entries && now - entries[SHOW_IDS_KEY].createdAt <= SHOW_EXPIRATION_TIME
  }

  /** The show index stored in the region; empty when there is none. */
  function StoredIds(entries: map<string, Stored<CacheValue>>): ShowIndex {
    if SHOW_IDS_KEY in entries && entries[SHOW_IDS_KEY].value.ShowIdsValue? then entries[SHOW_IDS_KEY].value.ids
    else map[]
  }

  /** `region.get(last_show_ids_fetch_key)`, None standing for `NO_VALUE`. */
  function LastFetch(entries: map<string, Stored<CacheValue>>): Option<int> {
    if LAST_FETCH_KEY in entries && entries[LAST_FETCH_KEY].value.FetchTime? then Some(entries[LAST_FETCH_KEY].value.at)
    else None
  }

  /**
    `get_show_id` works on the stored index without a fetch: the cache is not ignored and
    the stored index is younger than a week and not empty.
   */
  predicate StoredIndexUsed(entries: map<string, Stored<CacheValue>>, now: int, ignoreCache: bool) {
    !ignoreCache && FreshShowIds(entries, now) && |StoredIds(entries)| > 0
  }

  /**
    What the site serves: the home page with the options of its `qsShow` element (None
    when the page has no such element), the season page of a show, the search page of a
    title with the rows of its results table (None without the table), and a movie page
    with its candidate tables.
   */
  datatype Site = Site(
    homePage: Response,
    showOptions: Option<seq<ShowOption>>,
    seasonPage: (int, int) -> (Response, seq<SeasonRow>),
    searchPage: string -> (Response, Option<seq<SearchRow>>),
    moviePage: string -> (Response, seq<MovieTable>))

  /** What the body of `_get_show_ids` returns after its fetch. */
  function ShowIdsFromSite(site: Site, c: Collaborators): (r: Result<ShowIndex, ProviderError>)
    ensures r.Ok? ==> |r.value| > 0
    ensures RaiseForStatus(site.homePage).Some? ==> r == Err(RaiseForStatus(site.homePage).value)
  {
    if RaiseForStatus(site.homePage).Some? then Err(RaiseForStatus(site.homePage).value)
    else if site.showOptions.None? then Err(MalformedPage)
    else ShowIdsOf(site.showOptions.value, c)
  }

  /** What the body of `get_movie_id` returns after its fetch. */
  function MovieIdFromSite(site: Site, movie: string, year: Option<int>, c: Collaborators)
    : Result<Option<string>, ProviderError>
  {
    var (resp, rows) := site.searchPage(movie);
    if RaiseForStatus(resp).Some? then Err(RaiseForStatus(resp).value)
    else if rows.None? then Err(MalformedPage)
    else MovieIdOf(rows.value, movie, year, c)
  }

  /**
    A lookup made on a freshly fetched show list: a failed fetch is the error returned,
    a successful one is the index left in the region.
   */
  predicate RefreshedFrom(site: Site, c: Collaborators, r: Result<Option<int>, ProviderError>,
                          entries: map<string, Stored<CacheValue>>) {
    var fetched := ShowIdsFromSite(site, c);
    && (fetched.Err? ==> r == Err(fetched.error))
    && (fetched.Ok? ==> r.Ok? && StoredIds(entries) == fetched.value)
  }

  /** What the region holds. */
  type Entries = map<string, Stored<CacheValue>>

  /** A movie-id answer younger than `MOVIE_EXPIRATION_TIME`, a miss included, is in the region. */
  predicate MovieIdCached(entries: Entries, now: int, key: string) {
    key in entries && now - entries[key].createdAt <= MOVIE_EXPIRATION_TIME
  }

  /** What the memoized `get_movie_id(movie, year)` answers: the cached answer, else a fresh search. */
  function MovieIdAnswer(entries: Entries, now: int, site: Site, movie: string, year: Option<int>, c: Collaborators)
    : Result<Option<string>, ProviderError>
    requires RegionValid(entries)
  {
    var key := MovieIdKey(movie, year);
    if MovieIdCached(entries, now, key) then
      assert StartsWith(key, MOVIE_ID_PREFIX) by {
        assert key[..|MOVIE_ID_PREFIX|] == MOVIE_ID_PREFIX;
      }
      Ok(entries[key].value.movieId)
    else MovieIdFromSite(site, movie, year, c)
  }

  /** The region after a fetch of the show list at `now` that gave `r`. */
  function AfterShowFetch(entries: map<string, Stored<CacheValue>>, now: int, r: Result<ShowIndex, ProviderError>)
    : map<string, Stored<CacheValue>>
  {
    var marked := entries[LAST_FETCH_KEY := Stored(FetchTime(now), now)];
    if r.Ok? then marked[SHOW_IDS_KEY := Stored(ShowIdsValue(r.value), now)] else marked
  }

  /** After a fetch the region holds its time and, when it succeeded, the index it gave. */
  lemma ReadAfterShowFetch(entries: map<string, Stored<CacheValue>>, now: int, r: Result<ShowIndex, ProviderError>)
    ensures LastFetch(AfterShowFetch(entries, now, r)) == Some(now)
    ensures r.Ok? ==> StoredIds(AfterShowFetch(entries, now, r)) == r.value && FreshShowIds(AfterShowFetch(entries, now, r), now)
  {
    assert |SHOW_IDS_KEY| != |LAST_FETCH_KEY|;
  }

  /** A video to find subtitles for; season and episode belong to episodes only. */
  datatype Video =
    | Episode(series: string, alternativeSeries: seq<string>, year: Option<int>, season: int, episode: int)
    | Movie(title: string, alternativeTitles: seq<string>, year: Option<int>)

  /** `[video.series] + video.alternative_series[5:]` (titles for movies): the first five alternatives are skipped. */
  function Titles(video: Video): (ts: seq<string>)
    ensures |ts| >= 1
    ensures ts[0] == if video.Episode? then video.series else video.title
    ensures ts[1..] == Drop(if video.Episode? then video.alternativeSeries else video.alternativeTitles, 5)
  {
    if video.Episode? then [video.series] + Drop(video.alternativeSeries, 5)
    else [video.title] + Drop(video.alternativeTitles, 5)
  }

  /** The season listing `query` returns for a show id found under `title`. */
  function EpisodeQuery(site: Site, showId: int, title: string, video: Video, c: Collaborators)
    : Result<seq<Subtitle>, ProviderError>
    requires video.Episode?
  {
    var (resp, rows) := site.seasonPage(showId, video.season);
    Query(resp, rows, title, video.year, c)
  }

  /** The listing `query_movie` returns for a movie id found under `title`. */
  function MovieQuery(site: Site, movieId: string, title: string, video: Video, c: Collaborators)
    : Result<seq<Subtitle>, ProviderError>
    requires video.Movie?
  {
    var (resp, tables) := site.moviePage(movieId);
    QueryMovie(resp, tables, movieId, title, video.year, c)
  }

  /** A lookup's answer read in the index `ids`: an id is a hit of some key variant, no id a miss of every one. */
  predicate AnsweredFrom(ids: ShowIndex, series: string, year: Option<int>, country: Option<string>,
                         c: Collaborators, id: Option<int>) {
    && (id.Some? ==> ShowIdHit(ids, series, year, country, c, id.value))
    && (id.None? ==> NoShowId(ids, series, year, country, c))
  }

  /**
    `get_show_id` answered from the stored index: the region is left as it was, and a miss
    means the last fetch is too recent for a refetch.
   */
  predicate StoredAnswer(before: Entries, after: Entries, now: int, ignoreCache: bool, c: Collaborators,
                         series: string, year: Option<int>, country: Option<string>,
                         r: Result<Option<int>, ProviderError>) {
    && StoredIndexUsed(before, now, ignoreCache)
    && after == before
    && r.Ok? && AnsweredFrom(StoredIds(before), series, year, country, c, r.value)
    && (r.value.None? ==> !RefreshAllowed(ignoreCache, LastFetch(before), now))
  }

  /**
    `get_show_id` answered after fetching the show list, which it does from a stored index
    only when the refresh is allowed and some key variant missed every tier of it: the
    region records the fetch, and the answer is the fetch error or is read in the index the
    site served.
   */
  predicate FetchedAnswer(before: Entries, after: Entries, now: int, ignoreCache: bool, site: Site, c: Collaborators,
                          series: string, year: Option<int>, country: Option<string>,
                          r: Result<Option<int>, ProviderError>) {
    && (StoredIndexUsed(before, now, ignoreCache) ==>
          RefreshAllowed(ignoreCache, LastFetch(before), now) && VariantMissed(StoredIds(before), series, year, country, c))
    && after == AfterShowFetch(before, now, ShowIdsFromSite(site, c))
    && RefreshedFrom(site, c, r, after)
    && (r.Ok? ==> AnsweredFrom(StoredIds(after), series, year, country, c, r.value))
  }

  /** What one `get_show_id` call can do to the region `before` and answer. */
  predicate ShowIdLookup(before: Entries, after: Entries, now: int, ignoreCache: bool, site: Site, c: Collaborators,
                         series: string, year: Option<int>, country: Option<string>,
                         r: Result<Option<int>, ProviderError>) {
    || StoredAnswer(before, after, now, ignoreCache, c, series, year, country, r)
    || FetchedAnswer(before, after, now, ignoreCache, site, c, series, year, country, r)
  }

  /** A stored index the next lookup keeps: in use, and fetched too recently for a refetch. */
  predicate Settled(entries: Entries, now: int) {
    StoredIndexUsed(entries, now, false) && !RefreshAllowed(false, LastFetch(entries), now)
  }

  /**
    The title loop of `list_subtitles` for an episode, through the regions `states`: each of
    the first `tried` titles had no show id, and `showId` is the answer of the title after
    them, or None once every title had none. Each lookup goes from one region to the next.
   */
  predicate EpisodeTitlesTried(video: Video, now: int, site: Site, c: Collaborators, states: seq<Entries>,
                               tried: nat, showId: Result<Option<int>, ProviderError>)
    requires video.Episode?
  {
    var titles := Titles(video);
    && tried <= |titles|
    && |states| == (if showId == Ok(None) then tried + 1 else tried + 2)
    && (showId == Ok(None) ==> tried == |titles|)
    && (forall j :: 0 <= j < tried ==>
          ShowIdLookup(states[j], states[j + 1], now, false, site, c, titles[j], video.year, None, Ok(None)))
    && (showId != Ok(None) ==>
          && tried < |titles|
          && ShowIdLookup(states[tried], states[tried + 1], now, false, site, c, titles[tried], video.year, None, showId))
  }

  /** A lookup of title `i` that found an id, after `i` misses, ends the episode title loop's trace. */
  lemma TitleLookedUp(video: Video, now: int, site: Site, c: Collaborators, states: seq<Entries>, i: nat,
                      r: Result<Option<int>, ProviderError>, after: Entries)
    requires video.Episode? && i < |Titles(video)| && |states| == i + 1 && r != Ok(None)
    requires forall j :: 0 <= j < i ==>
      ShowIdLookup(states[j], states[j + 1], now, false, site, c, Titles(video)[j], video.year, None, Ok(None))
    requires ShowIdLookup(states[i], after, now, false, site, c, Titles(video)[i], video.year, None, r)
    ensures EpisodeTitlesTried(video, now, site, c, states + [after], i, r)
  {
    var next := states + [after];
    assert forall j :: 0 <= j <= i ==> next[j] == states[j];
  }

  /** A lookup of title `i` that found no id, after `i` misses, makes `i + 1` misses. */
  lemma TitleMissed(video: Video, now: int, site: Site, c: Collaborators, states: seq<Entries>, i: nat,
                    after: Entries)
    requires video.Episode? && i < |Titles(video)| && |states| == i + 1
    requires forall j :: 0 <= j < i ==>
      ShowIdLookup(states[j], states[j + 1], now, false, site, c, Titles(video)[j], video.year, None, Ok(None))
    requires ShowIdLookup(states[i], after, now, false, site, c, Titles(video)[i], video.year, None, Ok(None))
    ensures var next := states + [after];
      forall j :: 0 <= j < i + 1 ==>
        ShowIdLookup(next[j], next[j + 1], now, false, site, c, Titles(video)[j], video.year, None, Ok(None))
  {
    var next := states + [after];
    assert forall j :: 0 <= j <= i ==> next[j] == states[j];
  }

  /**
    What `list_subtitles` returns for an episode once the title loop gave `showId` for the
    title at `tried`: its error, nothing without an id, else that title's season listing
    (or its error) filtered to the requested languages and the video's episode, in order.
   */
  function EpisodeListing(video: Video, languages: set<Lang>, site: Site, c: Collaborators, tried: nat,
                          showId: Result<Option<int>, ProviderError>): (r: Result<seq<Subtitle>, ProviderError>)
    requires video.Episode?
    requires showId.Ok? && showId.value.Some? ==> tried < |Titles(video)|
    ensures r.Ok? ==> forall s :: s in r.value ==> s.language in languages && s.episode == Some(video.episode)
    ensures showId.Err? ==> r == Err(showId.error)
    ensures showId == Ok(None) ==> r == Ok([])
  {
    if showId.Err? then Err(showId.error)
    else if showId.value.None? then Ok([])
    else
      var listed := EpisodeQuery(site, showId.value.value, Titles(video)[tried], video, c);
      if listed.Err? then Err(listed.error)
      else Ok(FilterEpisode(listed.value, languages, Some(video.episode)))
  }

  /** The region after the memoized `get_movie_id(movie, year)`: a new answer, a miss included, is stored; an error is not. */
  function AfterMovieLookup(entries: Entries, now: int, site: Site, movie: string, year: Option<int>, c: Collaborators)
    : (after: Entries)
    requires RegionValid(entries)
    ensures RegionValid(after)
  {
    var key := MovieIdKey(movie, year);
    if MovieIdCached(entries, now, key) then entries
    else
      var answer := MovieIdFromSite(site, movie, year, c);
      if answer.Err? then entries
      else
        assert StartsWith(key, MOVIE_ID_PREFIX) by {
          assert key[..|MOVIE_ID_PREFIX|] == MOVIE_ID_PREFIX;
        }
        FixedKeysAreNotMovieKeys();
        entries[key := Stored(MovieIdValue(answer.value), now)]
  }

  /**
    The title loop of `list_subtitles` for a movie: the answer that ended it (a movie id, or
    the first error), the position `at` of its title (the number of titles when none had an
    id) and the region the lookups leave.
   */
  datatype MovieSearch = MovieSearch(found: Result<Option<string>, ProviderError>, at: nat, entries: Entries)

  function SearchMovieTitles(entries: Entries, now: int, site: Site, titles: seq<string>, year: Option<int>,
                             c: Collaborators): (s: MovieSearch)
    requires RegionValid(entries)
    ensures RegionValid(s.entries)
    ensures s.found == Ok(None) ==> s.at == |titles|
    ensures s.found != Ok(None) ==> s.at < |titles|
    decreases |titles|
  {
    if titles == [] then MovieSearch(Ok(None), 0, entries)
    else
      var answer := MovieIdAnswer(entries, now, site, titles[0], year, c);
      var next := AfterMovieLookup(entries, now, site, titles[0], year, c);
      if answer != Ok(None) then MovieSearch(answer, 0, next)
      else
        var rest := SearchMovieTitles(next, now, site, titles[1..], year, c);
        rest.(at := rest.at + 1)
  }

  /** One pass of the title loop: the search from title `i` on looks up title `i`, then goes on from `i + 1` unless it had an answer. */
  lemma SearchSteps(entries: Entries, now: int, site: Site, titles: seq<string>, i: nat, year: Option<int>,
                    c: Collaborators)
    requires RegionValid(entries) && i < |titles|
    ensures var answer := MovieIdAnswer(entries, now, site, titles[i], year, c);
      var next := AfterMovieLookup(entries, now, site, titles[i], year, c);
      var rest := SearchMovieTitles(next, now, site, titles[i + 1..], year, c);
      SearchMovieTitles(entries, now, site, titles[i..], year, c) ==
        if answer != Ok(None) then MovieSearch(answer, 0, next) else rest.(at := rest.at + 1)
  {
    assert titles[i..][0] == titles[i] && titles[i..][1..] == titles[i + 1..];
  }

  /**
    What `list_subtitles` returns for a movie from the region `entries`: a lookup error,
    nothing without an id, else the listing of the title that had one (or its error)
    filtered to the requested languages, in order.
   */
  function MovieListing(entries: Entries, now: int, video: Video, languages: set<Lang>, site: Site,
                        c: Collaborators): (r: Result<seq<Subtitle>, ProviderError>)
    requires video.Movie? && RegionValid(entries)
    ensures r.Ok? ==> forall s :: s in r.value ==> s.language in languages
  {
    var search := SearchMovieTitles(entries, now, site, Titles(video), video.year, c);
    if search.found.Err? then Err(search.found.error)
    else if search.found.value.None? then Ok([])
    else
      var listed := MovieQuery(site, search.found.value.value, Titles(video)[search.at], video, c);
      if listed.Err? then Err(listed.error)
      else Ok(FilterLanguage(listed.value, languages))
  }

  /** The region lookups `list_subtitles` went through for an episode, and how the title loop ended. */
  datatype ShowTrace = ShowTrace(states: seq<Entries>, tried: nat, showId: Result<Option<int>, ProviderError>)

  /** A title that misses every variant of a stored index fetched over a day ago is looked up again after a fetch. */
  lemma StoredMissRefetches(before: Entries, after: Entries, now: int, ignoreCache: bool, site: Site, c: Collaborators,
                            series: string, year: Option<int>, country: Option<string>,
                            r: Result<Option<int>, ProviderError>)
    requires ShowIdLookup(before, after, now, ignoreCache, site, c, series, year, country, r)
    requires StoredIndexUsed(before, now, ignoreCache) && RefreshAllowed(ignoreCache, LastFetch(before), now)
    requires NoShowId(StoredIds(before), series, year, country, c)
    ensures FetchedAnswer(before, after, now, ignoreCache, site, c, series, year, country, r)
  {
  }

  /** A title whose every key variant hits the stored index is answered from it, the region untouched: no refetch without a miss. */
  lemma StoredHitsKept(before: Entries, after: Entries, now: int, ignoreCache: bool, site: Site, c: Collaborators,
                       series: string, year: Option<int>, country: Option<string>,
                       r: Result<Option<int>, ProviderError>)
    requires ShowIdLookup(before, after, now, ignoreCache, site, c, series, year, country, r)
    requires StoredIndexUsed(before, now, ignoreCache) && !VariantMissed(StoredIds(before), series, year, country, c)
    ensures after == before && r.Ok? && r.value.Some?
    ensures ShowIdHit(StoredIds(before), series, year, country, c, r.value.value)
  {
    var v :| v in KeyVariants(series, c);
    assert TierLookup(StoredIds(before), v, year, country).Some?;
  }

  /** A lookup without the cache ignored that finds no id leaves an index that is used and not refetched. */
  lemma MissSettles(before: Entries, after: Entries, now: int, site: Site, c: Collaborators, series: string,
                    year: Option<int>)
    requires ShowIdLookup(before, after, now, false, site, c, series, year, None, Ok(None))
    ensures Settled(after, now)
  {
    if !StoredAnswer(before, after, now, false, c, series, year, None, Ok(None)) {
      ReadAfterShowFetch(before, now, ShowIdsFromSite(site, c));
    }
  }

  /** A settled index is answered from as it is. */
  lemma SettledStays(before: Entries, after: Entries, now: int, site: Site, c: Collaborators, series: string,
                     year: Option<int>, r: Result<Option<int>, ProviderError>)
    requires Settled(before, now) && ShowIdLookup(before, after, now, false, site, c, series, year, None, r)
    ensures after == before
  {
  }

  /** After the first title without a show id, the index is settled for every later title. */
  lemma {:induction false} SettledAfterMiss(video: Video, now: int, site: Site, c: Collaborators, states: seq<Entries>,
                                            tried: nat, showId: Result<Option<int>, ProviderError>, k: nat)
    requires video.Episode? && EpisodeTitlesTried(video, now, site, c, states, tried, showId)
    requires 1 <= k <= tried
    ensures Settled(states[k], now)
    decreases k
  {
    var titles := Titles(video);
    if k == 1 {
      MissSettles(states[0], states[1], now, site, c, titles[0], video.year);
    } else {
      SettledAfterMiss(video, now, site, c, states, tried, showId, k - 1);
      SettledStays(states[k - 1], states[k], now, site, c, titles[k - 1], video.year, Ok(None));
    }
  }

  /**
    Within one episode listing the show list is fetched at most once: only the first
    lookup can change the region.
   */
  lemma ShowListFetchedOnce(video: Video, now: int, site: Site, c: Collaborators, states: seq<Entries>,
                            tried: nat, showId: Result<Option<int>, ProviderError>)
    requires video.Episode? && EpisodeTitlesTried(video, now, site, c, states, tried, showId)
    ensures forall j :: 1 <= j < |states| - 1 ==> states[j + 1] == states[j]
  {
    var titles := Titles(video);
    forall j | 1 <= j < |states| - 1
      ensures states[j + 1] == states[j]
    {
      SettledAfterMiss(video, now, site, c, states, tried, showId, j);
      var r := if j < tried then Ok(None) else showId;
      SettledStays(states[j], states[j + 1], now, site, c, titles[j], video.year, r);
    }
  }

  /** The memoized lookup leaves its answer cached, unless it failed, which leaves the region as it was. */
  lemma MovieLookupCached(entries: Entries, now: int, site: Site, movie: string, year: Option<int>, c: Collaborators)
    requires RegionValid(entries)
    ensures var answer := MovieIdAnswer(entries, now, site, movie, year, c);
      var after := AfterMovieLookup(entries, now, site, movie, year, c);
      var key := MovieIdKey(movie, year);
      && (answer.Ok? ==> MovieIdCached(after, now, key) && after[key].value == MovieIdValue(answer.value))
      && (answer.Err? ==> after == entries)
      && (forall k :: k != key && k in entries ==> k in after && after[k] == entries[k])
  {
    var key := MovieIdKey(movie, year);
    assert StartsWith(key, MOVIE_ID_PREFIX) by {
      assert key[..|MOVIE_ID_PREFIX|] == MOVIE_ID_PREFIX;
    }
  }

  /** The title loop does not touch a cached movie-id answer. */
  lemma {:induction false} SearchKeepsCached(entries: Entries, now: int, site: Site, titles: seq<string>,
                                             year: Option<int>, c: Collaborators, key: string)
    requires RegionValid(entries) && MovieIdCached(entries, now, key)
    ensures var after := SearchMovieTitles(entries, now, site, titles, year, c).entries;
      key in after && after[key] == entries[key]
    decreases |titles|
  {
    if titles != [] {
      var next := AfterMovieLookup(entries, now, site, titles[0], year, c);
      MovieLookupCached(entries, now, site, titles[0], year, c);
      assert key in next && next[key] == entries[key];
      if MovieIdAnswer(entries, now, site, titles[0], year, c) == Ok(None) {
        SearchKeepsCached(next, now, site, titles[1..], year, c, key);
      }
    }
  }

  /**
    `get_movie_id` is memoized: the title loop run again on the region it left, at the
    same time, ends the same way and leaves the region as it is.
   */
  lemma {:induction false} MovieSearchRepeats(entries: Entries, now: int, site: Site, titles: seq<string>,
                                              year: Option<int>, c: Collaborators)
    requires RegionValid(entries)
    ensures var s := SearchMovieTitles(entries, now, site, titles, year, c);
      SearchMovieTitles(s.entries, now, site, titles, year, c) == s
    decreases |titles|
  {
    if titles != [] {
      var s := SearchMovieTitles(entries, now, site, titles, year, c);
      var key := MovieIdKey(titles[0], year);
      var answer := MovieIdAnswer(entries, now, site, titles[0], year, c);
      var next := AfterMovieLookup(entries, now, site, titles[0], year, c);
      MovieLookupCached(entries, now, site, titles[0], year, c);
      if answer.Ok? {
        if answer == Ok(None) {
          SearchKeepsCached(next, now, site, titles[1..], year, c, key);
          MovieSearchRepeats(next, now, site, titles[1..], year, c);
        }
        MovieLookupCached(s.entries, now, site, titles[0], year, c);
      }
    }
  }

  /** A second listing of a movie right after the first gives the same answer. */
  lemma MovieListingRepeats(entries: Entries, now: int, video: Video, languages: set<Lang>, site: Site,
                            c: Collaborators)
    requires video.Movie? && RegionValid(entries)
    ensures var after := SearchMovieTitles(entries, now, site, Titles(video), video.year, c).entries;
      MovieListing(after, now, video, languages, site, c) == MovieListing(entries, now, video, languages, site, c)
  {
    MovieSearchRepeats(entries, now, site, Titles(video), video.year, c);
  }

  /** `all((username, password))` */
  predicate CredentialsGiven(username: Option<string>, password: Option<string>) {
    username.Some? && username.value != "" && password.Some? && password.value != ""
  }

  /** `Addic7edProvider(username, password, use_random_agents)`: both credentials are required. */
  method Create(username: Option<string>, password: Option<string>, useRandomAgents: bool)
    returns (r: Result<Provider, ProviderError>)
    ensures r.Ok? <==> CredentialsGiven(username, password)
    ensures r.Err? ==> r.error == ConfigurationError
    ensures r.Ok? ==> fresh(r.value) && !r.value.loggedIn
    ensures r.Ok? ==> r.value.username == username.value && r.value.password == password.value
  {
    if !CredentialsGiven(username, password) {
      return Err(ConfigurationError);
    }
    var p := new Provider(username.value, password.value, useRandomAgents);
    return Ok(p);
  }

  /** How `initialize` ends, given whether a session is stored and what `panel.php` answers. */
  datatype InitOutcome = NoCredentials | Reused | Relogged(login: LoginResult)

  function InitializePlan(username: string, password: string, hasSession: bool, panel: Response,
                          exchange: nat -> Exchange): (o: InitOutcome)
    ensures o.Reused? <==> username != "" && password != "" && hasSession && panel.status != FOUND
  {
    if username == "" || password == "" then NoCredentials
    else if hasSession && panel.status != FOUND then Reused
    else Relogged(Login(username, password, exchange))
  }

  class Provider {
    const username: string
    const password: string
    const useRandomAgents: bool
    /** `logged_in` */
    var loggedIn: bool
    /** How many times the show list has been fetched from the site. */
    ghost var showListFetches: nat

    constructor (username: string, password: string, useRandomAgents: bool)
      ensures this.username == username && this.password == password
      ensures this.useRandomAgents == useRandomAgents && !loggedIn && showListFetches == 0
    {
      this.username := username;
      this.password := password;
      this.useRandomAgents := useRandomAgents;
      loggedIn := false;
      showListFetches := 0;
    }

    /**
      `initialize`: re-use a stored session unless `panel.php` redirects (the session
      expired and is deleted); otherwise log in, at most three attempts, and store the
      session once logged in. `attempts` counts the `dologin.php` posts.
     */
    method Initialize(region: Region<CacheValue>, panel: Response, exchange: nat -> Exchange, now: int)
      returns (r: Result<(), ProviderError>, attempts: nat)
      requires RegionValid(region.entries)
      modifies this, region
      ensures RegionValid(region.entries)
      ensures showListFetches == old(showListFetches)
      ensures var plan := InitializePlan(username, password, VERIFICATION_KEY in old(region.entries), panel, exchange);
        match plan
        case NoCredentials =>
          r == Ok(()) && attempts == 0 && loggedIn == old(loggedIn) && region.entries == old(region.entries)
        case Reused =>
          r == Ok(()) && attempts == 0 && loggedIn && region.entries == old(region.entries)
        case Relogged(login) =>
          && attempts == login.attempts
          && (login.outcome.Ok? ==>
                (r == Ok(()) && loggedIn &&
                 region.entries == old(region.entries)[VERIFICATION_KEY := Stored(Verification, now)]))
          && (login.outcome.Err? ==>
                (r == Err(login.outcome.error) && loggedIn == old(loggedIn) &&
                 region.entries == old(region.entries) - {VERIFICATION_KEY}))
    {
      if username == "" || password == "" {
        return Ok(()), 0;
      }
      if VERIFICATION_KEY in region.entries {
        if panel.status == FOUND {
          region.Delete(VERIFICATION_KEY);
        } else {
          loggedIn := true;
          return Ok(()), 0;
        }
      }
      r, attempts := Relog(region, exchange, now);
    }

    /** The login of `initialize`, and the session stored when it succeeds. */
    method Relog(region: Region<CacheValue>, exchange: nat -> Exchange, now: int)
      returns (r: Result<(), ProviderError>, attempts: nat)
      requires RegionValid(region.entries)
      modifies this, region
      ensures RegionValid(region.entries)
      ensures showListFetches == old(showListFetches)
      ensures var login := Login(username, password, exchange);
        && attempts == login.attempts
        && (login.outcome.Ok? ==>
              r == Ok(()) && loggedIn && region.entries == old(region.entries)[VERIFICATION_KEY := Stored(Verification, now)])
        && (login.outcome.Err? ==>
              r == Err(login.outcome.error) && loggedIn == old(loggedIn) && region.entries == old(region.entries))
    {
      var outcome;
      outcome, attempts := LogIn(exchange);
      if outcome.Err? {
        return Err(outcome.error), attempts;
      }
      FixedKeysAreNotMovieKeys();
      region.Set(VERIFICATION_KEY, Verification, now);
      loggedIn := true;
      return Ok(()), attempts;
    }

    /**
      The `while tries <= 3` loop of `initialize`: the loop is only ever left by the
      `break` that follows a 302 reply, every other way out raises.
     */
    method LogIn(exchange: nat -> Exchange) returns (outcome: Result<Form, ProviderError>, attempts: nat)
      ensures LoginResult(outcome, attempts) == Login(username, password, exchange)
    {
      var data := InitialForm(username, password);
      var tries := 0;
      attempts := 0;
      while tries <= 3
        invariant 0 <= tries < 3
        invariant LoginFrom(tries, data, exchange) == Login(username, password, exchange)
        decreases 3 - tries
      {
        tries := tries + 1;
        var ex := exchange(tries);
        ghost var before := data;
        if AsksCaptcha(ex.loginPage) {
          if ex.siteKey.None? {
            return Err(SiteKeyNotFound), tries;
          }
          if ex.captchaToken == "" {
            if tries >= 3 {
              return Err(CaptchaUnsolved), tries;
            }
            continue;
          }
          data := data[CAPTCHA_FIELD := ex.captchaToken];
        }
        assert data == PostedForm(ex, before);
        if Throttled(ex.reply) {
          return Err(TooManyRequests), tries;
        }
        if Rejected(ex.reply) {
          return Err(AuthenticationError), tries;
        }
        if ex.reply.status != FOUND {
          if tries >= 3 {
            return Err(AuthenticationError), tries;
          }
          continue;
        }
        attempts := tries;
        outcome := Ok(data);
        break;
      }
      return outcome, attempts;
    }

    /** The body of `_get_show_ids`: note the fetch time, then fetch and index the show list. */
    method FetchShowIds(region: Region<CacheValue>, now: int, site: Site, c: Collaborators)
      returns (r: Result<ShowIndex, ProviderError>)
      requires RegionValid(region.entries)
      modifies this, region
      ensures r == ShowIdsFromSite(site, c)
      ensures region.entries == old(region.entries)[LAST_FETCH_KEY := Stored(FetchTime(now), now)]
      ensures RegionValid(region.entries)
      ensures showListFetches == old(showListFetches) + 1 && loggedIn == old(loggedIn)
    {
      FixedKeysAreNotMovieKeys();
      region.Set(LAST_FETCH_KEY, FetchTime(now), now);
      showListFetches := showListFetches + 1;
      if RaiseForStatus(site.homePage).Some? {
        return Err(RaiseForStatus(site.homePage).value);
      }
      if site.showOptions.None? {
        return Err(MalformedPage);
      }
      r := BuildShowIds(site.showOptions.value, c);
    }

    /** `_get_show_ids.refresh(self)`: fetch, and store the index when the fetch succeeds. */
    method RefreshShowIds(region: Region<CacheValue>, now: int, site: Site, c: Collaborators)
      returns (r: Result<ShowIndex, ProviderError>)
      requires RegionValid(region.entries)
      modifies this, region
      ensures r == ShowIdsFromSite(site, c)
      ensures region.entries == AfterShowFetch(old(region.entries), now, r)
      ensures RegionValid(region.entries)
      ensures showListFetches == old(showListFetches) + 1 && loggedIn == old(loggedIn)
    {
      r := FetchShowIds(region, now, site, c);
      if r.Ok? {
        FixedKeysAreNotMovieKeys();
        region.Set(SHOW_IDS_KEY, ShowIdsValue(r.value), now);
      }
    }

    /** `self._get_show_ids()` through the cache: a stored index younger than a week is used as is. */
    method CachedShowIds(region: Region<CacheValue>, now: int, site: Site, c: Collaborators)
      returns (r: Result<ShowIndex, ProviderError>)
      requires RegionValid(region.entries)
      modifies this, region
      ensures RegionValid(region.entries) && loggedIn == old(loggedIn)
      ensures FreshShowIds(old(region.entries), now) ==>
        r == Ok(old(region.entries)[SHOW_IDS_KEY].value.ids) && region.entries == old(region.entries) &&
        showListFetches == old(showListFetches)
      ensures !FreshShowIds(old(region.entries), now) ==>
        r == ShowIdsFromSite(site, c) && region.entries == AfterShowFetch(old(region.entries), now, r) &&
        showListFetches == old(showListFetches) + 1
    {
      var cached := region.Get(SHOW_IDS_KEY, now, Some(SHOW_EXPIRATION_TIME));
      if cached.Some? {
        return Ok(cached.value.ids);
      }
      r := RefreshShowIds(region, now, site, c);
    }

    /**
      `get_show_id`: look every key variant up in the show index, in the set's own order
      `order`; the first variant that misses all three tiers refetches the index once,
      through a recursive call with `ignoreCache`, when the last fetch is more than a day
      old. The id returned is the first hit in `order` in the index left in the region;
      `refetched` tells whether the recursive call was made.
     */
    method GetShowId(series: string, year: Option<int>, country: Option<string>, ignoreCache: bool,
                     region: Region<CacheValue>, now: int, site: Site, c: Collaborators)
      returns (r: Result<Option<int>, ProviderError>, ghost order: seq<string>, ghost refetched: bool)
      requires RegionValid(region.entries)
      modifies this, region
      ensures RegionValid(region.entries) && loggedIn == old(loggedIn)
      ensures Enumerates(order, KeyVariants(series, c))
      ensures r.Ok? ==>
        && SHOW_IDS_KEY in region.entries
        && r.value == FoundId(ScanVariants(region.entries[SHOW_IDS_KEY].value.ids, order, year, country, false))
      // the stored index is used unless a refetch replaces it; a refetch fetches exactly once
      ensures StoredIndexUsed(old(region.entries), now, ignoreCache) && !refetched ==>
        && StoredAnswer(old(region.entries), region.entries, now, ignoreCache, c, series, year, country, r)
        && showListFetches == old(showListFetches)
      ensures !StoredIndexUsed(old(region.entries), now, ignoreCache) || refetched ==>
        FetchedAnswer(old(region.entries), region.entries, now, ignoreCache, site, c, series, year, country, r)
      ensures refetched ==> StoredIndexUsed(old(region.entries), now, ignoreCache) && showListFetches == old(showListFetches) + 1
      // with the refresh allowed, only a hit of the first variant keeps the stored index
      ensures (StoredIndexUsed(old(region.entries), now, ignoreCache) &&
               RefreshAllowed(ignoreCache, LastFetch(old(region.entries)), now) && !refetched) ==>
        TierLookup(StoredIds(old(region.entries)), order[0], year, country).Some?
      // ignoring a fresh index fetches it exactly once
      ensures ignoreCache && FreshShowIds(old(region.entries), now) ==> showListFetches == old(showListFetches) + 1
      ensures showListFetches <= old(showListFetches) +
        (if ignoreCache && !FreshShowIds(old(region.entries), now) then 2 else 1)
      decreases if ignoreCache then 0 else 1
    {
      var variants := KeyVariants(series, c);
      var loaded: Result<ShowIndex, ProviderError>;
      ghost var fetched: bool;
      loaded, fetched := LoadShowIds(ignoreCache, region, now, site, c);
      if loaded.Err? {
        return Err(loaded.error), SetOrder(variants), false;
      }
      var showIds := loaded.value;
      var last := region.Get(LAST_FETCH_KEY, now, None);
      var lastFetch := if last.Some? then Some(last.value.at) else None;
      assert lastFetch == LastFetch(region.entries);
      var refresh := RefreshAllowed(ignoreCache, lastFetch, now);
      var scan;
      scan, order := ScanVariantSet(showIds, variants, year, country, refresh);
      ScanOfVariants(showIds, series, c, order, year, country, refresh);
      if scan.Refetch? {
        assert !fetched;
        r, order, refetched := GetShowId(series, year, country, true, region, now, site, c);
        refetched := true;
        return;
      }
      if fetched {
        ReadAfterShowFetch(old(region.entries), now, loaded);
      }
      refetched := false;
      return Ok(FoundId(scan)), order, false;
    }

    /**
      The show index `get_show_id` works with: the cached one, refreshed when the caller
      ignores the cache or the index is empty. `fetched` tells whether the show list was
      fetched in this call; it was not exactly when the stored index is used.
     */
    method LoadShowIds(ignoreCache: bool, region: Region<CacheValue>, now: int, site: Site, c: Collaborators)
      returns (r: Result<ShowIndex, ProviderError>, ghost fetched: bool)
      requires RegionValid(region.entries)
      modifies this, region
      ensures RegionValid(region.entries) && loggedIn == old(loggedIn)
      ensures r.Ok? ==> SHOW_IDS_KEY in region.entries && region.entries[SHOW_IDS_KEY].value.ids == r.value
      ensures fetched <==> !StoredIndexUsed(old(region.entries), now, ignoreCache)
      ensures fetched ==> LastFetch(region.entries) == Some(now)
      ensures fetched ==> r == ShowIdsFromSite(site, c) && region.entries == AfterShowFetch(old(region.entries), now, r)
      ensures !fetched ==>
        && r == Ok(StoredIds(old(region.entries))) && region.entries == old(region.entries)
        && showListFetches == old(showListFetches)
      ensures ignoreCache && FreshShowIds(old(region.entries), now) ==>
        showListFetches == old(showListFetches) + 1 && r == ShowIdsFromSite(site, c)
      ensures showListFetches <= old(showListFetches) +
        (if ignoreCache && !FreshShowIds(old(region.entries), now) then 2 else 1)
    {
      r := CachedShowIds(region, now, site, c);
      fetched := !FreshShowIds(old(region.entries), now);
      if r.Ok? && (ignoreCache || |r.value| == 0) {
        r := RefreshShowIds(region, now, site, c);
        fetched := true;
      }
    }

    /**
      The loop of `get_show_id` over the key variants, in the set's own order `order`: once
      an id is found no later lookup replaces it; the first variant that misses every tier
      asks for the refetch when `refresh` allows it.
     */
    static method ScanVariantSet(showIds: ShowIndex, variants: set<string>, year: Option<int>, country: Option<string>,
                                 refresh: bool) returns (scan: Scan, ghost order: seq<string>)
      ensures Enumerates(order, variants)
      ensures scan == ScanVariants(showIds, order, year, country, refresh)
    {
      var showId: Option<int> := None;
      var remaining := variants;
      ghost var visited: seq<string> := [];
      while remaining != {}
        invariant remaining <= variants
        invariant |visited| + |remaining| == |variants|
        invariant forall v :: v in visited <==> v in variants && v !in remaining
        invariant ScanVariants(showIds, visited, year, country, refresh) ==
          if showId.Some? then Found(showId.value) else Missing
        decreases |remaining|
      {
        var v :| v in remaining;
        remaining := remaining - {v};
        ScanAppend(showIds, visited, [v], year, country, refresh);
        assert ScanVariants(showIds, [v][1..], year, country, refresh) == Missing;
        visited := visited + [v];
        if showId.None? {
          showId := LookupVariant(showIds, v, year, country);
          if showId.None? && refresh {
            ScanAppend(showIds, visited, SetOrder(remaining), year, country, refresh);
            return Refetch, visited + SetOrder(remaining);
          }
        }
      }
      return if showId.Some? then Found(showId.value) else Missing, visited;
    }

    /** The three lookups `get_show_id` makes for one key variant: with country, with year, bare. */
    static method LookupVariant(showIds: ShowIndex, v: string, year: Option<int>, country: Option<string>)
      returns (showId: Option<int>)
      ensures showId == TierLookup(showIds, v, year, country)
    {
      showId := None;
      if showId.None? && HasCountry(country) {
        showId := Get(showIds, v + " " + Lower(country.value));
      }
      if showId.None? && HasYear(year) {
        showId := Get(showIds, v + " " + IntToString(year.value));
      }
      if showId.None? {
        showId := Get(showIds, v);
      }
    }

    /** `get_movie_id` through the cache: a stored answer younger than a week, a miss included, is used as is. */
    method CachedMovieId(movie: string, year: Option<int>, region: Region<CacheValue>, now: int, site: Site,
                         c: Collaborators) returns (r: Result<Option<string>, ProviderError>)
      requires RegionValid(region.entries)
      modifies region
      ensures RegionValid(region.entries)
      ensures r == MovieIdAnswer(old(region.entries), now, site, movie, year, c)
      ensures region.entries == AfterMovieLookup(old(region.entries), now, site, movie, year, c)
    {
      var key := MovieIdKey(movie, year);
      assert StartsWith(key, MOVIE_ID_PREFIX) by {
        assert key[..|MOVIE_ID_PREFIX|] == MOVIE_ID_PREFIX;
      }
      var cached := region.Get(key, now, Some(MOVIE_EXPIRATION_TIME));
      if cached.Some? {
        return Ok(cached.value.movieId);
      }
      var (resp, rows) := site.searchPage(movie);
      if RaiseForStatus(resp).Some? {
        return Err(RaiseForStatus(resp).value);
      }
      if rows.None? {
        return Err(MalformedPage);
      }
      r := GetMovieIdFromRows(rows.value, movie, year, c);
      if r.Ok? {
        FixedKeysAreNotMovieKeys();
        region.Set(key, MovieIdValue(r.value), now);
      }
    }

    /**
      `list_subtitles`: the titles are tried in order until one has an id; that title's
      listing is filtered down to the requested languages (and, for an episode, to its
      episode number). No id for any title gives the empty list. For an episode, `trace`
      records the regions the show-id lookups went through and how the title loop ended.
     */
    method ListSubtitles(video: Video, languages: set<Lang>, region: Region<CacheValue>, now: int, site: Site,
                         c: Collaborators) returns (r: Result<seq<Subtitle>, ProviderError>, ghost trace: ShowTrace)
      requires RegionValid(region.entries)
      modifies this, region
      ensures RegionValid(region.entries) && loggedIn == old(loggedIn)
      ensures r.Ok? ==> forall s :: s in r.value ==> s.language in languages
      ensures video.Episode? ==>
        && EpisodeTitlesTried(video, now, site, c, trace.states, trace.tried, trace.showId)
        && trace.states[0] == old(region.entries) && trace.states[|trace.states| - 1] == region.entries
        && r == EpisodeListing(video, languages, site, c, trace.tried, trace.showId)
      ensures video.Movie? ==>
        && r == MovieListing(old(region.entries), now, video, languages, site, c)
        && region.entries == SearchMovieTitles(old(region.entries), now, site, Titles(video), video.year, c).entries
    {
      if video.Episode? {
        r, trace := ListEpisodeSubtitles(video, languages, region, now, site, c);
      } else {
        r := ListMovieSubtitles(video, languages, region, now, site, c);
        trace := ShowTrace([region.entries], 0, Ok(None));
      }
    }

    /** The episode branch of `list_subtitles`. */
    method ListEpisodeSubtitles(video: Video, languages: set<Lang>, region: Region<CacheValue>, now: int, site: Site,
                                c: Collaborators) returns (r: Result<seq<Subtitle>, ProviderError>, ghost trace: ShowTrace)
      requires video.Episode? && RegionValid(region.entries)
      modifies this, region
      ensures RegionValid(region.entries) && loggedIn == old(loggedIn)
      ensures EpisodeTitlesTried(video, now, site, c, trace.states, trace.tried, trace.showId)
      ensures trace.states[0] == old(region.entries) && trace.states[|trace.states| - 1] == region.entries
      ensures r == EpisodeListing(video, languages, site, c, trace.tried, trace.showId)
    {
      var found, i;
      ghost var states;
      found, i, states := FindEpisodeShowId(video, region, now, site, c);
      trace := ShowTrace(states, i, found);
      if found.Err? {
        return Err(found.error), trace;
      }
      if found.value.Some? {
        var showId := found.value.value;
        var title := Titles(video)[i];
        var (resp, rows) := site.seasonPage(showId, video.season);
        var listed := QuerySeason(resp, rows, title, video.year, c);
        if listed.Err? {
          return Err(listed.error), trace;
        }
        assert listed == EpisodeQuery(site, showId, title, video, c);
        var subtitles := FilterEpisode(listed.value, languages, Some(video.episode));
        if subtitles != [] {
          return Ok(subtitles), trace;
        }
      }
      return Ok([]), trace;
    }

    /**
      The loop of the episode branch over the video's titles: it stops at the first title
      with a show id or at the first error; `i` is that title's position, or the number of
      titles when none has an id, and `states` the regions the lookups went through.
     */
    method FindEpisodeShowId(video: Video, region: Region<CacheValue>, now: int, site: Site, c: Collaborators)
      returns (found: Result<Option<int>, ProviderError>, i: nat, ghost states: seq<Entries>)
      requires video.Episode? && RegionValid(region.entries)
      modifies this, region
      ensures RegionValid(region.entries) && loggedIn == old(loggedIn)
      ensures EpisodeTitlesTried(video, now, site, c, states, i, found)
      ensures states[0] == old(region.entries) && states[|states| - 1] == region.entries
    {
      var titles := Titles(video);
      i := 0;
      states := [region.entries];
      while i < |titles|
        invariant 0 <= i <= |titles| && |states| == i + 1
        invariant states[0] == old(region.entries) && states[i] == region.entries
        invariant forall j :: 0 <= j < i ==>
          ShowIdLookup(states[j], states[j + 1], now, false, site, c, titles[j], video.year, None, Ok(None))
        invariant RegionValid(region.entries) && loggedIn == old(loggedIn)
      {
        var r := LookUpShowId(titles[i], video.year, region, now, site, c);
        ghost var tried := states;
        states := states + [region.entries];
        if r != Ok(None) {
          TitleLookedUp(video, now, site, c, tried, i, r, region.entries);
          return r, i, states;
        }
        TitleMissed(video, now, site, c, tried, i, region.entries);
        i := i + 1;
      }
      return Ok(None), i, states;
    }

    /** `self.get_show_id(title, video.year)`, as the title loop calls it: the cache honoured, no country. */
    method LookUpShowId(title: string, year: Option<int>, region: Region<CacheValue>, now: int, site: Site,
                        c: Collaborators) returns (r: Result<Option<int>, ProviderError>)
      requires RegionValid(region.entries)
      modifies this, region
      ensures RegionValid(region.entries) && loggedIn == old(loggedIn)
      ensures ShowIdLookup(old(region.entries), region.entries, now, false, site, c, title, year, None, r)
    {
      ghost var order, refetched;
      r, order, refetched := GetShowId(title, year, None, false, region, now, site, c);
      if StoredIndexUsed(old(region.entries), now, false) && !refetched {
        assert StoredAnswer(old(region.entries), region.entries, now, false, c, title, year, None, r);
      } else {
        assert FetchedAnswer(old(region.entries), region.entries, now, false, site, c, title, year, None, r);
      }
    }

    /** The movie branch of `list_subtitles`. */
    method ListMovieSubtitles(video: Video, languages: set<Lang>, region: Region<CacheValue>, now: int, site: Site,
                              c: Collaborators) returns (r: Result<seq<Subtitle>, ProviderError>)
      requires video.Movie? && RegionValid(region.entries)
      modifies region
      ensures RegionValid(region.entries)
      ensures r == MovieListing(old(region.entries), now, video, languages, site, c)
      ensures region.entries == SearchMovieTitles(old(region.entries), now, site, Titles(video), video.year, c).entries
    {
      var found, i := FindMovieId(video, region, now, site, c);
      if found.Err? {
        return Err(found.error);
      }
      if found.value.Some? {
        var movieId := found.value.value;
        var title := Titles(video)[i];
        var (resp, tables) := site.moviePage(movieId);
        var listed := QueryMoviePage(resp, tables, movieId, title, video.year, c);
        if listed.Err? {
          return Err(listed.error);
        }
        assert listed == MovieQuery(site, movieId, title, video, c);
        var subtitles := FilterLanguage(listed.value, languages);
        if subtitles != [] {
          return Ok(subtitles);
        }
      }
      return Ok([]);
    }

    /**
      The loop of the movie branch over the video's titles: it stops at the first title
      with a movie id or at the first error; `i` is that title's position, or the number of
      titles when none has an id.
     */
    method FindMovieId(video: Video, region: Region<CacheValue>, now: int, site: Site, c: Collaborators)
      returns (found: Result<Option<string>, ProviderError>, i: nat)
      requires video.Movie? && RegionValid(region.entries)
      modifies region
      ensures MovieSearch(found, i, region.entries) ==
        SearchMovieTitles(old(region.entries), now, site, Titles(video), video.year, c)
    {
      var titles := Titles(video);
      i := 0;
      while i < |titles|
        invariant 0 <= i <= |titles| && RegionValid(region.entries)
        invariant var rest := SearchMovieTitles(region.entries, now, site, titles[i..], video.year, c);
          SearchMovieTitles(old(region.entries), now, site, titles, video.year, c) == rest.(at := rest.at + i)
      {
        SearchSteps(region.entries, now, site, titles, i, video.year, c);
        var r := CachedMovieId(titles[i], video.year, region, now, site, c);
        if r != Ok(None) {
          return r, i;
        }
        i := i + 1;
      }
      return Ok(None), i;
    }
  }
}
