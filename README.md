# Bazarr subtitle core, modelled in Dafny

This project models the decision-making core of Bazarr, the companion application that finds and
manages subtitles for Sonarr and Radarr libraries. It proves properties of that core.
It covers these parts of Bazarr:

- **The Addic7ed provider client** (`libs/subliminal_patch/providers/addic7ed.py`):
  - construction;
  - the login loop of `initialize`, with its session reuse, captcha step and at most three attempts;
  - the show index built from the site's show list, and the `get_show_id` resolver over it
    (key variants, country/year/bare tiers, one refetch);
  - the movie search of `get_movie_id`;
  - the season and movie listings of `query` and `query_movie`;
  - `list_subtitles`, the outcome of `download_subtitle`, and `Addic7edSubtitle.get_matches`.

  The dogpile cache region is a class holding a map with an integer clock.
  Modules: `Addic7edCommon`, `Addic7edLogin`, `Addic7edShowIndex`, `Addic7edListing`,
  `Addic7edProvider`, `CacheRegion`.
- **Settings** (`bazarr/config.py`, module `Config`):
  - `get_array_from`;
  - the value conversion of `get_settings`;
  - the item loop of `save_settings`: value normalisation, password hashing, storing, the subzero
    mod list, reconfiguration flags and events, and dropped provider sessions;
  - the proxy address of `configure_proxy_func`.
- **The local series indexer** (`bazarr/indexer/series/local/series_indexer.py`, modules
  `SeriesIndexer` and `TitleNormalizer`):
  - `normalize_title`;
  - year stripping and the article move;
  - `list_series_directories`, `get_series_match` and `get_series_metadata`.
- **Utilities** (`bazarr/utils.py`, module `Utils`):
  - the expiry sweep of `cache_maintenance`;
  - `delete_subtitles`;
  - the block-splitting loop of `translate_subtitles_file`;
  - `check_credentials`.
- **API post-processing** (`bazarr/api.py`, module `Api`):
  - `postprocess`, `postprocessEpisode` and `postprocessMovie` on a row;
  - the history language code written after a download;
  - the release list of `SystemReleases.get`;
  - the time frame of `HistoryStats.get`.

The helper modules are `Wrappers` (Option, Result) and `Text` (Python string operations on `seq<char>`).
The following collaborators are function-valued parameters:

- `sanitize`;
- `Language.fromaddic7ed`/`rebuild`;
- `ast.literal_eval`;
- `language_from_alpha2`/`alpha3_from_alpha2`;
- MD5;
- `quote_plus`;
- `fix_line_ending`;
- TMDB calls and directory listings.

HTTP responses are records of status, text and content type. Clocks are integer seconds.

## Model

| member | source | states |
|---|---|---|
| Addic7edCommon.RaiseForStatus | libs/subliminal_patch/providers/addic7ed.py:395 | raises exactly for 4xx/5xx statuses, with that status; 304 passes |
| Addic7edCommon.DownloadOutcome | libs/subliminal_patch/providers/addic7ed.py:548-567 | 4xx/5xx raise; 304 is TooManyRequests; an empty body gives no content; a `text/html` body is DownloadLimitExceeded; otherwise the line-ending-fixed body |
| Addic7edLogin.InitialForm | libs/subliminal_patch/providers/addic7ed.py:112-113 | the login form has exactly the five fields, with the provider's username and password |
| Addic7edLogin.Attempt | libs/subliminal_patch/providers/addic7ed.py:116-161 | one pass of the loop: retry only before the third try; TooManyRequests iff the reply says "relax, slow down" after the captcha step; after it, "Wrong password" or "doesn't exist" is AuthenticationError; site-key error iff a captcha page has no key; an unsolved captcha retries, raising on the third try; a clean 302 succeeds with the posted form, any other status retries, raising on the third try |
| Addic7edLogin.PostedForm | libs/subliminal_patch/providers/addic7ed.py:144 | the captcha answer adds at most the captcha field and changes no other field |
| Addic7edLogin.LoginFrom | libs/subliminal_patch/providers/addic7ed.py:115-161 | the loop from any point ends after at most three attempts in all |
| Addic7edLogin.Login | libs/subliminal_patch/providers/addic7ed.py:115-161 | the whole loop makes between one and three attempts |
| Addic7edLogin.LoginSucceedsOnlyOnRedirect | libs/subliminal_patch/providers/addic7ed.py:146-161 | the loop succeeds only on an attempt whose reply is a 302, neither throttled nor rejected |
| Addic7edLogin.CredentialsPosted | libs/subliminal_patch/providers/addic7ed.py:112-113 | a successful login posted the provider's username and password |
| Addic7edLogin.ThrottleEndsLogin | libs/subliminal_patch/providers/addic7ed.py:149-150 | a throttled reply raises TooManyRequests at once, at that attempt |
| Addic7edLogin.RejectionEndsLogin | libs/subliminal_patch/providers/addic7ed.py:152-153 | a wrong password or unknown user raises AuthenticationError at once, at that attempt |
| Addic7edLogin.NoRedirectGivesUpAfterThree | libs/subliminal_patch/providers/addic7ed.py:155-160 | a site that never redirects costs exactly three attempts and raises AuthenticationError |
| Addic7edLogin.UnsolvedCaptchaGivesUp | libs/subliminal_patch/providers/addic7ed.py:137-142 | a captcha that is never solved costs three attempts and raises |
| Addic7edLogin.FirstRedirectLogsIn | libs/subliminal_patch/providers/addic7ed.py:146-161 | a first reply that redirects logs in after one attempt with the initial form |
| Addic7edListing.ReleaseInfo | libs/subliminal_patch/providers/addic7ed.py:40 | every "+" of the version becomes ",", nothing else changes |
| Addic7edListing.CollectKeepsOrder | libs/subliminal_patch/providers/addic7ed.py:409-442 | the row loop succeeds iff no row raises, and then keeps the rows' subtitles in listing order |
| Addic7edListing.CollectPrefixError | libs/subliminal_patch/providers/addic7ed.py:409-442 | once a row raises, later rows are never looked at |
| Addic7edListing.SeasonRowOutcome | libs/subliminal_patch/providers/addic7ed.py:410-437 | a row is skipped iff its status cell holds "%"; a kept row is hearing impaired iff cell 6 is non-empty, with the language rebuilt; its links lose their first character |
| Addic7edListing.PageGate | libs/subliminal_patch/providers/addic7ed.py:395-404 | 4xx/5xx raise, 304 raises TooManyRequests, an empty body gives []; only a non-empty page goes on |
| Addic7edListing.QuerySeason | libs/subliminal_patch/providers/addic7ed.py:381-442 | the appending loop computes the season listing |
| Addic7edListing.QueryKeepsCompleteRowsInOrder | libs/subliminal_patch/providers/addic7ed.py:409-442 | a parsed season page keeps exactly the complete rows, in order |
| Addic7edListing.IncompleteRowSkipped | libs/subliminal_patch/providers/addic7ed.py:413-437 | a row in progress then a complete row give the complete row's subtitle alone |
| Addic7edListing.MovieTableOutcome | libs/subliminal_patch/providers/addic7ed.py:477-505 | a table is skipped iff it has no NewsTitle cell or its status holds "%"; hearing impaired iff the icon ends in "hi.jpg"; the page link is the movie's |
| Addic7edListing.StripChar | libs/subliminal_patch/providers/addic7ed.py:490 | `strip(ch)`: the result is a slice of the text with only `ch` cut from both ends, and neither starts nor ends with `ch` |
| Addic7edListing.QueryMoviePage | libs/subliminal_patch/providers/addic7ed.py:444-510 | the two loops compute the movie listing |
| Addic7edListing.FilterEpisode | libs/subliminal_patch/providers/addic7ed.py:524-525 | keeps exactly the subtitles with a requested language and the video's episode |
| Addic7edListing.FilterEpisodeCounts | libs/subliminal_patch/providers/addic7ed.py:524-525 | each kept subtitle appears as often as it is listed, the others not at all |
| Addic7edListing.FilterEpisodeConcat | libs/subliminal_patch/providers/addic7ed.py:524-525 | the filter keeps listing order: filtering a concatenation concatenates the filtered parts |
| Addic7edListing.FilterLanguage | libs/subliminal_patch/providers/addic7ed.py:540 | keeps exactly the subtitles with a requested language, each as often as it is listed |
| Addic7edListing.FilterLanguageConcat | libs/subliminal_patch/providers/addic7ed.py:540 | the filter keeps listing order: filtering a concatenation concatenates the filtered parts |
| Addic7edListing.BoostMatches | libs/subliminal_patch/providers/addic7ed.py:43-55 | without a boost score the matches are unchanged; otherwise "source" is added iff release_group matched, and the boost iff series, season, episode, year and source all match |
| Addic7edListing.Query | libs/subliminal_patch/providers/addic7ed.py:381-442 | `query` on a season page as a value; QuerySeason computes it, CollectKeepsOrder and the Filter lemmas prove its order and contents |
| Addic7edListing.QueryMovie | libs/subliminal_patch/providers/addic7ed.py:444-510 | `query_movie` on a movie page as a value; QueryMoviePage computes it |
| Addic7edListing.Collect | libs/subliminal_patch/providers/addic7ed.py:409-442 | the rows kept in order, or the first error; CollectKeepsOrder proves both |
| Addic7edShowIndex.SeriesWithoutYear | libs/subliminal_patch/providers/addic7ed.py:27 | a match of `series_year_re` with a year is the name followed by " (YYYY)", possibly before a final newline |
| Addic7edShowIndex.SeriesWithoutYearExamples | libs/subliminal_patch/providers/addic7ed.py:27 | "doctor who (2005)" yields "doctor who"; no year or a character outside the class yields nothing |
| Addic7edShowIndex.KeptId | libs/subliminal_patch/providers/addic7ed.py:293-299 | an option contributes only a non-zero integer value |
| Addic7edShowIndex.AddOption | libs/subliminal_patch/providers/addic7ed.py:292-306 | an option without a value raises; one without an id leaves the index unchanged |
| Addic7edShowIndex.AddOptionEffect | libs/subliminal_patch/providers/addic7ed.py:299-306 | a kept option registers its cleaned title and, with a year, the bare name only if absent |
| Addic7edShowIndex.Assign | libs/subliminal_patch/providers/addic7ed.py:302 | dictionary assignment: the key gets the id, other keys keep theirs |
| Addic7edShowIndex.IndexFailsOnMissingValue | libs/subliminal_patch/providers/addic7ed.py:293-297 | building the index fails iff some option lacks a value |
| Addic7edShowIndex.IndexKeysGrow | libs/subliminal_patch/providers/addic7ed.py:290-306 | later options never remove a registered title |
| Addic7edShowIndex.LastTitleWins | libs/subliminal_patch/providers/addic7ed.py:302 | a repeated cleaned title holds the id of its last option |
| Addic7edShowIndex.YearAliasRegistered | libs/subliminal_patch/providers/addic7ed.py:303-306 | "Name (YYYY)" leaves a "Name" key, keeping an earlier one |
| Addic7edShowIndex.EmptyIndexIffNothingKept | libs/subliminal_patch/providers/addic7ed.py:313-314 | the "No show IDs" exception is raised iff no option contributes an id |
| Addic7edShowIndex.BuildShowIds | libs/subliminal_patch/providers/addic7ed.py:273-316 | the assigning loop computes the index, which is never empty on success |
| Addic7edShowIndex.IndexPrefixError | libs/subliminal_patch/providers/addic7ed.py:292-306 | once an option raises, the later options are not read |
| Addic7edShowIndex.KeyVariants | libs/subliminal_patch/providers/addic7ed.py:185-186 | one to three key spellings, a set |
| Addic7edShowIndex.Get | libs/subliminal_patch/providers/addic7ed.py:206 | `dict.get`: an id iff the key is present, never 0 |
| Addic7edShowIndex.TierLookup | libs/subliminal_patch/providers/addic7ed.py:194-206 | country key first, then year key, then bare key; no later tier replaces a hit; a hit is an id of the index |
| Addic7edShowIndex.ScanFirstHitWins | libs/subliminal_patch/providers/addic7ed.py:192-216 | in any variant order the first variant with a hit decides; a refetch is asked only when allowed, at the first variant missing every tier |
| Addic7edShowIndex.ScanAppend | libs/subliminal_patch/providers/addic7ed.py:192-216 | the scan of a prefix decides the rest: once an id is found or a refetch is asked, later variants change nothing |
| Addic7edShowIndex.ScanOfVariants | libs/subliminal_patch/providers/addic7ed.py:192-216 | over any enumeration of the key variants: a refetch is asked only when allowed and when some variant misses every tier, and always when no variant hits; otherwise the first variant hit when the refresh was allowed, and the id found is a hit of some variant, a miss a miss of every variant |
| Addic7edShowIndex.YearTierBeatsBareKey | libs/subliminal_patch/providers/addic7ed.py:199-206 | with "the show" and "the show 2020" both indexed, year 2020 finds the second |
| Addic7edShowIndex.TitleAndYear | libs/subliminal_patch/providers/addic7ed.py:255-258 | a match gives a non-empty one-line name and four digits |
| Addic7edShowIndex.MovieRowId | libs/subliminal_patch/providers/addic7ed.py:249-260 | a link that does not split in two raises; a row matches iff it is a movie link whose sanitized name and year equal the search's |
| Addic7edShowIndex.LastFoundFailsOnFirstError | libs/subliminal_patch/providers/addic7ed.py:249-260 | the search fails iff some row is malformed, with the first one's error |
| Addic7edShowIndex.LastFoundNoneIffNoMatch | libs/subliminal_patch/providers/addic7ed.py:249-260 | no id is found iff no row matches |
| Addic7edShowIndex.LastFoundIsLastMatch | libs/subliminal_patch/providers/addic7ed.py:259-260 | the id found is that of the last matching row |
| Addic7edShowIndex.GetMovieIdFromRows | libs/subliminal_patch/providers/addic7ed.py:249-260 | the row loop computes the search's outcome |
| Addic7edShowIndex.LastFoundPrefixError | libs/subliminal_patch/providers/addic7ed.py:249-260 | once a row raises, later rows are not read |
| Addic7edShowIndex.ShowIdsOf | libs/subliminal_patch/providers/addic7ed.py:292-316 | the show index built from the page's options; BuildShowIds computes it |
| Addic7edShowIndex.ScanVariants | libs/subliminal_patch/providers/addic7ed.py:192-216 | the variant loop of `get_show_id`; ScanFirstHitWins and ScanOfVariants prove the first hit wins and a miss allows a refetch |
| Addic7edShowIndex.MovieIdOf | libs/subliminal_patch/providers/addic7ed.py:249-260 | `get_movie_id` over the search rows; GetMovieIdFromRows computes it |
| Addic7edShowIndex.LastFound | libs/subliminal_patch/providers/addic7ed.py:249-260 | the last matching row's id, or the first error; LastFoundFailsOnFirstError and its companions prove it |
| Addic7edProvider.ShowIdsFromSite | libs/subliminal_patch/providers/addic7ed.py:284-316 | an HTTP error status raises it; a successful index is non-empty |
| Addic7edProvider.Titles | libs/subliminal_patch/providers/addic7ed.py:515 | the main title, then the alternatives after the first five |
| Addic7edProvider.Create | libs/subliminal_patch/providers/addic7ed.py:79-84 | ConfigurationError iff a credential is missing or empty; otherwise a fresh, logged-out provider with those credentials |
| Addic7edProvider.InitializePlan | libs/subliminal_patch/providers/addic7ed.py:96-109 | the stored session is reused iff there are credentials, a session, and `panel.php` does not redirect |
| Addic7edProvider.Provider.Initialize | libs/subliminal_patch/providers/addic7ed.py:86-166 | without credentials nothing happens; a reused session logs in with no attempt; an expired one is deleted; a login stores the session and sets logged_in, a failed one raises |
| Addic7edProvider.Provider.Relog | libs/subliminal_patch/providers/addic7ed.py:111-166 | the login loop's outcome, with the session stored only on success |
| Addic7edProvider.Provider.LogIn | libs/subliminal_patch/providers/addic7ed.py:115-161 | the `while tries <= 3` loop computes the login outcome and attempt count |
| Addic7edProvider.Provider.FetchShowIds | libs/subliminal_patch/providers/addic7ed.py:280-316 | notes the fetch time, then fetches and indexes the show list |
| Addic7edProvider.Provider.RefreshShowIds | libs/subliminal_patch/providers/addic7ed.py:189 | refresh fetches and caches a successful index |
| Addic7edProvider.Provider.CachedShowIds | libs/subliminal_patch/providers/addic7ed.py:187 | an index younger than a week is used without a fetch; otherwise it is fetched and stored |
| Addic7edProvider.Provider.LoadShowIds | libs/subliminal_patch/providers/addic7ed.py:187-189 | the index handed back is the one stored in the region; the list is fetched exactly when the cache is ignored or the stored index is stale or empty, and then the result is what the site serves and the region records the fetch and a successful index; otherwise the stored index is used and the region is untouched; at most one fetch, two when the cache is ignored and stale |
| Addic7edProvider.Provider.GetShowId | libs/subliminal_patch/providers/addic7ed.py:171-224 | the result is the first tier hit in the set's iteration order, in the index left in the region; without a refetch, a used stored index gives a result (never an error), leaves the region untouched and fetches nothing, and a miss there means the last fetch is under a day old; without the stored index, or on a refetch, the list is fetched and the answer is the fetch error or read in the index the site served; a refetch happens only from a stored index whose last fetch is over a day old and in which some key variant misses all three tiers, and fetches once; with the refresh allowed, only a hit of the first variant avoids it |
| Addic7edProvider.StoredHitsKept | libs/subliminal_patch/providers/addic7ed.py:192-216 | a title whose every key variant hits the stored index is answered from it with an id and the region left as it was: no refetch without a miss |
| Addic7edProvider.Provider.LookUpShowId | libs/subliminal_patch/providers/addic7ed.py:518 | the call `get_show_id(title, video.year)` answers from the stored index or after a fetch, as ShowIdLookup describes |
| Addic7edProvider.ReadAfterShowFetch | libs/subliminal_patch/providers/addic7ed.py:280-316 | after a fetch the region holds its time; after a successful one, the fresh index it gave |
| Addic7edProvider.StoredMissRefetches | libs/subliminal_patch/providers/addic7ed.py:208-215 | a title that misses every variant of a stored index fetched over a day ago is answered after a fetch |
| Addic7edProvider.MissSettles | libs/subliminal_patch/providers/addic7ed.py:187-215 | after a lookup that found no id, the index is in use and too recent to refetch |
| Addic7edProvider.SettledStays | libs/subliminal_patch/providers/addic7ed.py:187-215 | a settled index is answered from as it is: the region does not change |
| Addic7edProvider.SettledAfterMiss | libs/subliminal_patch/providers/addic7ed.py:517-520 | every lookup after the first miss starts from a settled index |
| Addic7edProvider.ShowListFetchedOnce | libs/subliminal_patch/providers/addic7ed.py:513-528 | within one episode listing only the first lookup can change the region: the show list is fetched at most once |
| Addic7edProvider.Provider.ScanVariantSet | libs/subliminal_patch/providers/addic7ed.py:192-216 | the variant loop over the set equals the scan of some enumeration of the set: the first hit wins, and with a refetch allowed the first variant that misses every tier asks for it |
| Addic7edProvider.Provider.LookupVariant | libs/subliminal_patch/providers/addic7ed.py:193-206 | the three assignments to `show_id` compute the tier lookup |
| Addic7edProvider.Provider.CachedMovieId | libs/subliminal_patch/providers/addic7ed.py:226-270 | the memoized answer: a cached answer younger than a week, a miss included, is returned untouched; otherwise the search runs; the region is updated as AfterMovieLookup says |
| Addic7edProvider.AfterMovieLookup | libs/subliminal_patch/providers/addic7ed.py:226-227 | the memoized lookup stores a new answer, a miss included, under the movie's key and keeps the region valid; a cached answer or an error leaves the region as it is |
| Addic7edProvider.MovieLookupCached | libs/subliminal_patch/providers/addic7ed.py:226-227 | after a lookup its answer is cached and fresh, unless it failed, which leaves the region as it was; no other key changes |
| Addic7edProvider.Provider.ListSubtitles | libs/subliminal_patch/providers/addic7ed.py:512-546 | for an episode, the regions the lookups went through start at the region given and end at the region left, and the result is EpisodeListing of how the title loop ended; for a movie, the result is MovieListing of the region given and the region left is the one the title loop leaves |
| Addic7edProvider.EpisodeListing | libs/subliminal_patch/providers/addic7ed.py:522-528 | an error of the title loop is returned; no show id gives []; otherwise the season listing of the title that had one, or its error, filtered to the requested languages and the episode |
| Addic7edProvider.Provider.ListEpisodeSubtitles | libs/subliminal_patch/providers/addic7ed.py:513-529 | the title loop is traced through the region states from the region given to the region left (EpisodeTitlesTried: every title before the last looked up had no show id in what its lookup read, and each lookup went from one state to the next as `get_show_id` does); the result is EpisodeListing of how the loop ended |
| Addic7edProvider.Provider.FindEpisodeShowId | libs/subliminal_patch/providers/addic7ed.py:514-520 | the loop stops at the first title with a show id or at the first error and reports its position; each lookup is a `get_show_id` step from one region state to the next, starting at the region given and ending at the region left; every title before the last had no id |
| Addic7edProvider.Provider.ListMovieSubtitles | libs/subliminal_patch/providers/addic7ed.py:530-546 | the result is MovieListing of the region given, and the region left is the one the title loop leaves |
| Addic7edProvider.SearchMovieTitles | libs/subliminal_patch/providers/addic7ed.py:531-536 | the title loop, each title answered by the memoized lookup in the region the earlier ones left: it stops at the first id or error, at that title's position, or runs through every title with no id |
| Addic7edProvider.MovieListing | libs/subliminal_patch/providers/addic7ed.py:538-546 | a lookup error is returned; no movie id gives []; otherwise the listing of the title that had one, or its error, filtered to the requested languages |
| Addic7edProvider.SearchKeepsCached | libs/subliminal_patch/providers/addic7ed.py:531-536 | the title loop does not touch a cached answer |
| Addic7edProvider.MovieSearchRepeats | libs/subliminal_patch/providers/addic7ed.py:226-227 | memoization: the title loop run again on the region it left, at the same time, ends the same way and leaves that region as it is |
| Addic7edProvider.MovieListingRepeats | libs/subliminal_patch/providers/addic7ed.py:529-546 | a second movie listing right after the first gives the same answer |
| Addic7edProvider.Provider.FindMovieId | libs/subliminal_patch/providers/addic7ed.py:531-536 | the loop computes SearchMovieTitles of the region given: the answer that ended it, the title's position, and the region left |
| CacheRegion.Region.Get | libs/subliminal_patch/providers/addic7ed.py:210 | a value iff stored and not older than the expiration |
| CacheRegion.Region.Set | libs/subliminal_patch/providers/addic7ed.py:282 | the key now holds the value stamped with the clock |
| CacheRegion.Region.Delete | libs/subliminal_patch/providers/addic7ed.py:102 | the key is gone, other entries unchanged |
| Config.GetArrayFrom | bazarr/config.py:433-442 | an empty or missing value gives []; a value holding "[" gives its literal; one holding "," gives parts without "," that join back to it; any other a singleton |
| Config.ArrayRoundTrip | bazarr/config.py:433-442 | joining mods without "," or "[" and reading them back gives the mods |
| Config.ConvertSetting | bazarr/config.py:253-276 | ignored keys are dropped; raw keys pass through; an empty value is [] for array keys and dropped otherwise; a non-empty array value is read by `get_array_from`; "True"/"False" are booleans; a numeral (as `int()` reads it, digit-group underscores included) is an int except for str keys; any other value stays text; a value is dropped only for an ignored key or an empty non-array value, and each other kind of result comes only from those inputs |
| Config.GroupedIntSetting | bazarr/config.py:270-274 | a value such as "1_000" for a key that is not a str key is read as the number its digits spell |
| Text.DigitGroupsJoin | bazarr/config.py:272 | `int()` drops an underscore between two digit groups: "1_000" reads as "1000" does |
| Text.MisplacedUnderscoresFail | bazarr/config.py:272-274 | a doubled or trailing underscore makes `int()` raise `ValueError`, so the text is kept |
| Config.IntSettingRoundTrip | bazarr/config.py:265-274 | an integer written with `str` is read back as that integer |
| Config.NumeralIsNoWord | bazarr/config.py:258-268 | a numeral is neither an empty value nor a boolean text |
| Config.SectionValuesFromItems | bazarr/config.py:245-278 | every key handed out is a non-ignored option of the section, with the value of one of its occurrences |
| Config.SectionValuesLastKept | bazarr/config.py:245-278 | an option is handed out with the value of its last occurrence that is not left out |
| Config.GetSettings | bazarr/config.py:241-280 | the nested loops build a dictionary per section; every result section is in the file |
| Config.KeyParts | bazarr/config.py:305 | a form key splits into "settings", section and option |
| Config.NormalizeValue | bazarr/config.py:307-324 | single-item lists unwrap for non-array keys; an empty array value is []; "true"/"false" become "True"/"False"; a new password is hashed |
| Config.Unwrap | bazarr/config.py:308-311 | only a one-item list for a non-array key changes |
| Config.EmptyArray | bazarr/config.py:314-315 | only array keys change, and only to [] |
| Config.Capitalize | bazarr/config.py:317-320 | only "true" and "false" change |
| Config.HashPassword | bazarr/config.py:322-324 | a changed password is the MD5 digest of the text submitted |
| Config.Events | bazarr/config.py:424-430 | each wanted list is reset iff its flag and the exclusion flag are both raised |
| Config.MovieTagsResetMissedAsWritten | bazarr/config.py:342-352 | as written, submitting the movies' excluded tags sends no event |
| Config.ExclusionKeysResetWanted | bazarr/config.py:342-352 | with the intended key, every series or movies exclusion key resets its wanted list |
| Config.MovieTagsStepBothLists | bazarr/config.py:342-352 | for one item with the movies' excluded tags, the key list as written and the intended one store alike, but only the intended one resets the wanted movies |
| Config.SessionKeyFor | bazarr/config.py:354-376 | the Addic7ed username key drops "addic7ed_data" |
| Config.DroppedCacheKey | bazarr/config.py:354-376 | a cache key is dropped iff the key is a username key and the stored username is not the key text |
| Config.Addic7edUsernameDropsSession | bazarr/config.py:354-356 | submitting the Addic7ed username drops the stored session |
| Config.StoreSetting | bazarr/config.py:378-379 | a `settings-` key stores its value in an existing section, else raises |
| Config.RemoveFirst | bazarr/config.py:385 | `list.remove`: the first occurrence goes, the others keep their order |
| Config.FirstColor | bazarr/config.py:390-395 | the first mod starting with "color", or none |
| Config.EditMods | bazarr/config.py:381-399 | for a mod other than "color": an enabled mod is appended, even when present; a disabled present one loses its first occurrence; a disabled absent one changes nothing |
| Config.ColorReplaced | bazarr/config.py:390-399 | a color choice removes the first earlier color mod, if any, and is appended last; the other mods keep their order |
| Config.ColorCleared | bazarr/config.py:390-399 | an empty color value removes the first earlier color mod, if any, and appends nothing |
| Config.JoinMods | bazarr/config.py:403-404 | the join succeeds iff every mod is text, and joins them with "," |
| Config.Prepare | bazarr/config.py:326-376 | raises the flags and drops the cache key, leaving the rest |
| Config.Store | bazarr/config.py:378-379 | only a `settings-` key stores anything |
| Config.EditSubzero | bazarr/config.py:381-401 | only a `subzero-` key edits the mods, and marks them for saving |
| Config.SaveItemsStops | bazarr/config.py:303-401 | once an item raises, later items are never looked at |
| Config.SettingStepStores | bazarr/config.py:305-379 | a `settings-` item stores its normalised value under its section and lower-cased option |
| Config.PasswordStepStores | bazarr/config.py:322-324 | a new password is stored as its digest and nothing else changes |
| Config.BooleanTextsNotEmpty | bazarr/config.py:234 | "True" and "False" are not empty values |
| Config.SavedBooleanReadBack | bazarr/config.py:317-320 | "true"/"false" are stored so that `get_settings` reads them back as booleans |
| Config.Settings.SaveSettings | bazarr/config.py:283-430 | with the key lists as written, stores the options, drops the cache keys and returns the events, or the exception; the options stored before an exception stay stored |
| Config.Settings.SaveItemsLoop | bazarr/config.py:303-401 | the item loop computes the saved state; the region loses exactly the dropped keys |
| Config.Settings.SaveItem | bazarr/config.py:303-401 | one pass computes the save step |
| Config.Settings.DropCacheKey | bazarr/config.py:354-376 | `region.delete` removes exactly the named cache key, which joins the dropped set |
| Config.Settings.ApplyItem | bazarr/config.py:378-401 | stores and edits the mods as the step specifies |
| Config.ProxyUrl | bazarr/config.py:460-465 | none for type "None"; credentials appear iff both are non-empty |
| Config.ProxyCredentialsIffAt | bazarr/config.py:460-463 | the address holds "@" iff credentials were given |
| Config.NoProxy | bazarr/config.py:468-469 | a plain comma-separated exclusion setting is passed through as written; an empty one gives ""; a list literal is joined with "," |
| Config.SettingsOf | bazarr/config.py:241-280 | `get_settings` as a value: every section to its converted options; GetSettings computes it |
| Config.SectionValues | bazarr/config.py:245-278 | one section's options converted, the last value of a repeated option winning (SectionValuesLastKept) |
| Config.RaiseFlags | bazarr/config.py:326-352 | the change flags a saved key raises; ExclusionKeysResetWanted and the Findings row state them for the exclusion keys |
| Config.SaveStep | bazarr/config.py:303-401 | one pass of the `save_settings` loop; PasswordStepStores, SaveItemsFront and the boolean lemmas prove what it stores |
| Config.SaveAll | bazarr/config.py:283-404 | `save_settings` over every item, stopping at the first exception; SaveSettings computes it |
| Config.Repr | bazarr/config.py:379 | `str(value)` as stored: text as is, None as "None", a list as its repr with quoted items |
| TitleNormalizer.ReplaceDelimiters | bazarr/indexer/series/local/series_indexer.py:111 | delimiters become spaces; every other character is kept |
| TitleNormalizer.RemovePunctuation | bazarr/indexer/series/local/series_indexer.py:112 | only word characters and whitespace remain; a clean text is unchanged |
| TitleNormalizer.RemoveCommonWords | bazarr/indexer/series/local/series_indexer.py:113 | only characters of the input remain |
| TitleNormalizer.CollapseSpaces | bazarr/indexer/series/local/series_indexer.py:114 | no two whitespace characters in a row |
| TitleNormalizer.NormalizeTitleShape | bazarr/indexer/series/local/series_indexer.py:108-116 | a normalised title is lower-case word characters and single spaces, trimmed |
| TitleNormalizer.StripKeepsShape | bazarr/indexer/series/local/series_indexer.py:116 | `strip` keeps that shape |
| TitleNormalizer.CollapseKeepsWords | bazarr/indexer/series/local/series_indexer.py:114 | collapsing spaces keeps the words |
| TitleNormalizer.StripKeepsWords | bazarr/indexer/series/local/series_indexer.py:116 | stripping keeps the words |
| TitleNormalizer.RemoveCommonWordsKeepsOthers | bazarr/indexer/series/local/series_indexer.py:113 | exactly the whole common words are removed |
| TitleNormalizer.KeptWords | bazarr/indexer/series/local/series_indexer.py:13 | no word kept is one of the common words |
| TitleNormalizer.NormalizeTitleWords | bazarr/indexer/series/local/series_indexer.py:108-116 | the words of the sort title are the title's non-common words, in order |
| TitleNormalizer.NormalizeTitle | bazarr/indexer/series/local/series_indexer.py:108-116 | `normalize_title`: its shape is proved in NormalizeTitleShape and its words in NormalizeTitleWords |
| SeriesIndexer.StripYears | bazarr/indexer/series/local/series_indexer.py:51-52 | the name searched under has no trailing whitespace |
| SeriesIndexer.MoveArticle | bazarr/indexer/series/local/series_indexer.py:33-36 | ", The" names start with "The ", ", A" names with "A "; other names are unchanged |
| SeriesIndexer.ParenYearsAfterPlain | bazarr/indexer/series/local/series_indexer.py:31 | text without "(" passes the parenthesised-year removal unchanged |
| SeriesIndexer.SpaceYearsAfterPlain | bazarr/indexer/series/local/series_indexer.py:32 | text without whitespace passes the space-year removal unchanged |
| SeriesIndexer.ParenYearRemoved | bazarr/indexer/series/local/series_indexer.py:51-52 | "Title (1999)" is searched as "Title" |
| SeriesIndexer.SpaceYearRemoved | bazarr/indexer/series/local/series_indexer.py:51-52 | "Title 1999" is searched as "Title" |
| SeriesIndexer.ParenYearAlone | bazarr/indexer/series/local/series_indexer.py:31 | " (YYYY)" loses the parenthesised year and keeps the space before it |
| SeriesIndexer.SpaceYearAlone | bazarr/indexer/series/local/series_indexer.py:32 | " YYYY" is removed whole |
| SeriesIndexer.ArticleSurvivesYears | bazarr/indexer/series/local/series_indexer.py:31-34 | year stripping never removes a trailing ", The", so the article move still applies |
| SeriesIndexer.PlainSuffixSurvivesYears | bazarr/indexer/series/local/series_indexer.py:31-32 | a suffix without ")", digits, a leading word character or a trailing space passes through both year substitutions and their rstrips unchanged |
| SeriesIndexer.ArticleNamesListed | bazarr/indexer/series/local/series_indexer.py:31-37 | a name ending in ", The" is always listed, even a hidden one |
| SeriesIndexer.HiddenNamesSkipped | bazarr/indexer/series/local/series_indexer.py:37 | a name starting with "." and not turned around is skipped |
| SeriesIndexer.ListSeriesDirectories | bazarr/indexer/series/local/series_indexer.py:16-46 | a missing root or unreadable folder gives []; otherwise each kept entry with its listing position as id, in order, raw name as directory, none missed |
| SeriesIndexer.EnumerateKept | bazarr/indexer/series/local/series_indexer.py:30-44 | ids strictly increase, each names an accepted entry, every accepted entry appears |
| SeriesIndexer.MatchYear | bazarr/indexer/series/local/series_indexer.py:62-68 | the first four characters of the air date when there are any, otherwise "n/a" |
| SeriesIndexer.GetSeriesMatch | bazarr/indexer/series/local/series_indexer.py:49-72 | searches the name with years stripped; a failing search gives None; no results gives []; one match per result in order; a null date raises |
| SeriesIndexer.PathJoin | bazarr/indexer/series/local/series_indexer.py:94 | the path ends with the directory name; an absolute name replaces the root |
| SeriesIndexer.GetSeriesMetadata | bazarr/indexer/series/local/series_indexer.py:75-105 | a missing root raises; a falsy id gives None; a failing call gives {}; otherwise the path is the root joined with the directory, sortTitle the normalised title, overview, IMDb id, alternate titles and ids copied, and year, poster and fanart None exactly when their source is falsy |
| SeriesIndexer.SortTitleNormalized | bazarr/indexer/series/local/series_indexer.py:95 | a found series' sort title is lower case and single-spaced |
| SeriesIndexer.StripParenYears | bazarr/indexer/series/local/series_indexer.py:31 | removes every " (dddd)" year; NoParenUnchanged and ParenYearsAfterPlain prove it leaves other text alone |
| SeriesIndexer.StripSpaceYears | bazarr/indexer/series/local/series_indexer.py:32 | removes every " dddd" year; NoDigitsUnchanged, SpaceYearsAfterPlain and its companions prove it leaves other text alone |
| Utils.RemoveExpired | bazarr/utils.py:220-226 | a missing file raises; a file is removed iff expired and removable |
| Utils.SweepRemovesExactlyExpired | bazarr/utils.py:213-234 | over distinct existing paths, exactly the expired removable files go, at 14 days for the main cache and 4 for archives |
| Utils.SweepAppend | bazarr/utils.py:228-234 | the archive loop runs on what the main loop left, unless it raised |
| Utils.SweepStops | bazarr/utils.py:220-234 | once a file raises, later files are untouched |
| Utils.CacheFiles.RemoveExpiredFile | bazarr/utils.py:220-226 | removes the file as the expiry rule says |
| Utils.CacheFiles.SweepFiles | bazarr/utils.py:229-230 | the loop sweeps the files in turn |
| Utils.CacheFiles.CacheMaintenance | bazarr/utils.py:213-234 | the main cache at 14 days, then the archives at 4 days |
| Utils.LanguageTags | bazarr/utils.py:243-250 | a true hi gives ":hi"/" HI"; otherwise a true forced gives ":forced"/" forced"; otherwise the bare code |
| Utils.DeleteSubtitles | bazarr/utils.py:237-279 | a non-".srt" path returns False with nothing else; otherwise the result is whether the removal worked, with a history entry and wanted update only then, and the subtitles re-indexed either way; the entry is about the series and episode ids for a series and the movie id otherwise, and the update is "episode-wanted" with the episode id or "movie-wanted" with the movie id |
| Utils.DeletedTagMarksOne | bazarr/utils.py:245-250 | the tag ends with ":hi" iff hi is true, and with ":forced" iff only forced is |
| Utils.BeforeLastSep | bazarr/utils.py:336 | the text before the last separator, or all of it |
| Utils.SplitStepAsWritten | bazarr/utils.py:333-341 | as written: a block of at most 5000 characters; a short remainder is taken whole; a long one is cut at its last separator |
| Utils.StallAsWritten | bazarr/utils.py:332-341 | as written, a remainder with a separator only at its start gives an empty block and no progress |
| Utils.StallExample | bazarr/utils.py:332-341 | an input of that shape exists |
| Utils.RepeatedTextLostAsWritten | bazarr/utils.py:341 | as written, a block that recurs later is removed from there too |
| Utils.RepeatedTextExample | bazarr/utils.py:341 | "ab", a long line, then "ab" loses the second "ab" |
| Utils.NextBlock | bazarr/utils.py:333-340 | as intended: a non-empty prefix of at most 5000 characters, cut at the last separator when there is one |
| Utils.BlocksRebuild | bazarr/utils.py:332-341 | as intended: the blocks put back together give the text, each of 1 to 5000 characters |
| Utils.SplitBlocks | bazarr/utils.py:332-341 | the intended loop computes the blocks |
| Utils.SavedPasswordChecks | bazarr/utils.py:364-367 | a password saved through the settings makes `check_credentials` succeed |
| Utils.CheckCredentials | bazarr/utils.py:364-367 | `check_credentials`: the MD5 of the password and the user name both match the settings; SavedPasswordChecks proves a saved password passes |
| Utils.Sweep | bazarr/utils.py:220-234 | the cache sweep over (path, age limit) tasks; SweepRemovesExactlyExpired and SweepAppend prove what it removes and that it runs task by task |
| Utils.Blocks | bazarr/utils.py:332-341 | the split of a text into blocks of at most the character limit; BlocksRebuild proves they concatenate back to the text and are non-empty and bounded |
| Api.ParseLanguage | bazarr/api.py:121-130 | the code is the text before the first ":"; forced iff it ends with ":forced", hi iff ":hi", never both |
| Api.ParseEntry | bazarr/api.py:163-173 | the code is before the first ":"; never both flags; no ":" gives neither |
| Api.HistoryCodeSplits | bazarr/api.py:787-792 | the history code splits into the code and the flag name |
| Api.HistoryCodeEnds | bazarr/api.py:787-792 | it ends with ":hi" iff hi, with ":forced" iff forced and not hi |
| Api.HistoryCodeParses | bazarr/api.py:787-792 | parsing the history code as a language gives back the code and flags, hi winning |
| Api.HistoryCodeEntry | bazarr/api.py:787-792 | parsing it as a subtitles entry gives back the same |
| Api.LiteralListColumn | bazarr/api.py:103-107 | None becomes [], a text its literal value; a movie's `alternativeTitles` (bazarr/api.py:207-211) is parsed the same way |
| Api.MonitoredColumn | bazarr/api.py:109-113 | a flag, true only for "True" |
| Api.HearingImpairedColumn | bazarr/api.py:115-119 | None stays None; any other value becomes whether it is "True" |
| Api.LanguageColumn | bazarr/api.py:121-130 | "None" and None become None; other texts the parsed language, never both flags |
| Api.Postprocessed | bazarr/api.py:97-130 | drops the cache column and changes no column other than the four parsed |
| Api.AudioReplaced | bazarr/api.py:153-154 | a non-None audio column becomes the profile's languages |
| Api.ParsedSubtitles | bazarr/api.py:163-175 | one entry per pair, in order, each with the pair's path |
| Api.ParsedMissing | bazarr/api.py:185-196 | one entry per tag, in order |
| Api.ParseSubtitles | bazarr/api.py:163-175 | the loop computes the parsed entries |
| Api.ParseMissing | bazarr/api.py:185-196 | the enumerate loop computes the parsed entries |
| Api.EpisodePostprocessed | bazarr/api.py:151-196 | subtitles and missing subtitles parsed, the other columns as `postprocess` leaves them |
| Api.EntriesFlagAtMostOne | bazarr/api.py:171-173 | no parsed entry is both forced and hi |
| Api.Insert | bazarr/api.py:242 | inserting keeps the elements |
| Api.SortByKey | bazarr/api.py:242 | sorting keeps the elements |
| Api.KeyTotal | bazarr/api.py:242 | any two entries are comparable by (name, forced) |
| Api.KeyTransitive | bazarr/api.py:242 | the (name, forced) order is transitive |
| Api.InsertSorted | bazarr/api.py:242 | inserting into a sorted list keeps it sorted |
| Api.SortSorted | bazarr/api.py:242 | the result is ordered by (name, forced) |
| Api.KeepDesired | bazarr/api.py:238-240 | keeps exactly the entries whose code is desired or whose path is non-empty, each as often as it occurs |
| Api.KeepDesiredConcat | bazarr/api.py:238-240 | the filter keeps order: filtering a concatenation concatenates the filtered parts |
| Api.MovieSubtitlesShown | bazarr/api.py:238-242 | sorted by (name, forced); exactly the kept entries; unfiltered, a permutation |
| Api.AttemptsColumn | bazarr/api.py:214-216 | literal-evaluated only when truthy |
| Api.MoviePostprocessed | bazarr/api.py:200-261 | audio replaced, alternative titles literal-evaluated as tags are, attempts, subtitles and missing subtitles as specified, the other columns as `postprocess` leaves them |
| Api.Item.Postprocess | bazarr/api.py:96-130 | the in-place updates compute `Postprocessed` |
| Api.Item.ReplaceAudio | bazarr/api.py:153-154 | only the audio column changes |
| Api.Item.ParseMissingColumn | bazarr/api.py:180-196 | only the missing-subtitles column changes |
| Api.Item.PostprocessEpisode | bazarr/api.py:151-196 | the in-place updates compute `EpisodePostprocessed` |
| Api.Item.ParseMovieColumns | bazarr/api.py:206-261 | the movie-only columns are parsed in place |
| Api.Item.PostprocessMovie | bazarr/api.py:200-261 | the in-place updates compute `MoviePostprocessed` |
| Api.StableReleases | bazarr/api.py:599-601 | exactly the non-prereleases; no more than the releases |
| Api.StableReleasesConcat | bazarr/api.py:599-601 | the filter keeps order and multiplicity: the stable releases of a concatenation are those of each part, in turn |
| Api.StableReleasesOne | bazarr/api.py:600-601 | one release is kept iff it is not a prerelease |
| Api.ThroughFirstStable | bazarr/api.py:602-605 | the prefix up to and including the first stable release |
| Api.FilterReleases | bazarr/api.py:599-607 | master keeps the first five stable releases; other branches keep that prefix |
| Api.MasterShowsStable | bazarr/api.py:599-607 | master shows no prerelease and at most five releases |
| Api.BodyLinesRejoin | bazarr/api.py:612 | the shown lines are the cleaned body, "- " removed, without its first line: a line with no newline put back in front gives the cleaned body |
| Api.ViewShape | bazarr/api.py:611-617 | date cut to 10 characters; current iff the name without leading "v"s is the running version |
| Api.ShowReleases | bazarr/api.py:611-617 | each release is replaced by its view, in order |
| Api.SystemReleases | bazarr/api.py:591-622 | an unreadable file shows nothing; a missing version shows the filtered list as read; otherwise exactly the views of the filtered list, current iff the name without leading "v"s is the version |
| Api.HistoryDelay | bazarr/api.py:1686-1699 | year/trimester/month/week give 364/90/30/6 days; an absent or empty time frame is month; any other raises |
| Api.HistoryLanguageCode | bazarr/api.py:787-792 | the history language code with ":forced" or ":hi"; HistoryCodeSplits, HistoryCodeEnds and HistoryCodeParses prove its form and that it parses back |
| Api.BodyLines | bazarr/api.py:612 | the release body lines after the first; BodyLinesRejoin proves they rebuild the cleaned body |
| Api.View | bazarr/api.py:611-617 | one release as shown; ViewShape states its fields |

## Left out

- Network, HTML parsing, the captcha solver, random user agents, `time.sleep` and file I/O. The pages arrive as response records and parsed rows or cells, the listings as sequences.
- `Addic7edProvider._search_show_id`: its only call is commented out, and it is network and sleep.
- `Addic7edProvider.terminate`, `Addic7edSubtitle.__repr__` and the `languages` table: session closing, printing and a constant table.
- `load_verification`/`store_verification`: the stored session is one region key.
- Python character classes (`\w`, `\s`, `\d`, `lower()`) are modelled on ASCII only.
- `get_show_id` iterates a set. The model proves its properties for every iteration order but does not fix one.
- Addic7edProvider.Provider.ListSubtitles: for an episode the order in which each lookup scans the key variants is not fixed, so the regions are traced step by step rather than computed.
- `configure_captcha_func`: it only writes environment variables, and joins a Python set in no fixed order.
- `configure_proxy_func` beyond the address: the environment writes are not part of this model.
- The write of `config.ini`, `configure_logging`, `update_configurable_tasks` and `event_stream`. `save_settings` returns its flags and events instead.
- Config.Repr: a list value is printed with every item in single quotes. Python's `repr` switches to double quotes for an item holding `'` and escapes `\`; that is not modelled.
- Addic7edCommon.DownloadOutcome: the response record always has a content type. A response without a `Content-Type` header, on which the source raises KeyError, is not modelled.
- Config.Settings.SaveSettings: every option is stored as text. The configparser section objects are a map from (section, option) to text.
- `index_all_series` is a database wipe-and-refill and is not part of this model. So is the database access in `list_series_directories` and `get_series_metadata`, which become inputs.
- `postprocessSeries` (bazarr/api.py:133-148) is not part of this model.
- Api.Postprocessed: requires the text columns to hold text or None, as the database stores them. Other Python values in those columns are not modelled.
- Api.SortByKey: the sort is proved ordered and a permutation, but not stable; Python's `sorted` is stable.
- Api.SystemReleases: a releases file with missing keys or wrong types is not modelled. It would raise part-way and return the list as far as it got.
- Api.AttemptsColumn: truthiness covers texts and None only, not Python numbers or lists.
- Utils.DeleteSubtitles: the file removal's success is an input, and `store_subtitles` is only recorded as having run.
- The Google translation, `pysubs2` and the rest of `translate_subtitles_file` beyond the block split.
- Utils.SplitBlocks: models the evident intent of the loop. The loop as written cannot be a terminating method; see Findings.
- `subtitles_apply_mods`, `get_binary`, the history and blacklist logs and the health checks are I/O and are not part of this model.
- Wall-clock times are integer seconds; `datetime` arithmetic is not modelled.

## Findings

| source | as written | input that shows it | evidently intended | confidence | as-written member | corrected member |
|---|---|---|---|---|---|---|
| bazarr/config.py:342-345 | the exclusion key list spells the movies' excluded tags `settings.movies.excluded_tags` | submitting only `settings-movies-excluded_tags` raises `movies_exclusion_updated` but not `exclusion_updated`, so no event is sent | `settings-movies-excluded_tags`, so that the wanted movies are reset | high, not executed | Config.MovieTagsResetMissedAsWritten | Config.ExclusionKeysResetWanted |
| bazarr/utils.py:336-341 | a remainder longer than 5000 characters is cut at the last separator in its first 5000, even when that separator is at position 0 | "\n\n\n" followed by 5000 letters: the block is empty, `replace('', '')` changes nothing, and the loop never ends | a non-empty block taken off the front, so the loop always progresses | high, not executed | Utils.StallAsWritten | Utils.SplitBlocks |
| bazarr/utils.py:341 | the block is removed with `replace`, which removes every occurrence | "ab", "\n\n\n" and 4996 letters, then "ab": the trailing "ab" disappears and is never translated | only the block at the front is removed | high, not executed | Utils.RepeatedTextLostAsWritten | Utils.BlocksRebuild |
