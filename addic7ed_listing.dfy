/**
  Reading subtitle listings: the season page of `Addic7edProvider.query`, the movie page
  of `Addic7edProvider.query_movie`, the record `Addic7edSubtitle` built from each row,
  its `get_matches` boost, and the final filters of `list_subtitles`.
 */
module Addic7edListing {
  import opened Wrappers
  import opened Text
  import opened Addic7edCommon

  /** An `Addic7edSubtitle`. Season, episode and series are None for movies, the uploader for episodes. */
  datatype Subtitle = Subtitle(
    language: Lang,
    hearingImpaired: bool,
    pageLink: string,
    series: Option<string>,
    season: Option<int>,
    episode: Option<int>,
    title: string,
    year: Option<int>,
    version: string,
    releaseInfo: string,
    downloadLink: string,
    uploader: Option<string>)

  /** `version.replace('+', ',')`: the release groups, comma separated. */
  function ReleaseInfo(version: string): (r: string)
    ensures |r| == |version| && '+' !in r
    ensures forall i :: 0 <= i < |version| ==> r[i] == if version[i] == '+' then ',' else version[i]
  {
    if |version| == 0 then ""
    else [if version[0] == '+' then ',' else version[0]] + ReleaseInfo(version[1..])
  }

  /** The language of a row: rebuilt with `hi=True` when the row is hearing impaired. */
  function RowLanguage(text: string, hearingImpaired: bool, c: Collaborators): Lang {
    if hearingImpaired then c.withHi(c.fromAddic7ed(text)) else c.fromAddic7ed(text)
  }

  // ---------------------------------------------------------------- collecting rows

  /**
    The list a row loop builds: the first exception stops the loop, `None` is a row that
    was skipped (`continue`), `Some(x)` is appended.
   */
  function Collect<T>(outs: seq<Result<Option<T>, ProviderError>>): Result<seq<T>, ProviderError>
  {
    if |outs| == 0 then Ok([])
    else
      match Collect(outs[..|outs| - 1])
      case Err(e) => Err(e)
      case Ok(done) =>
        match outs[|outs| - 1]
        case Err(e) => Err(e)
        case Ok(None) => Ok(done)
        case Ok(Some(x)) => Ok(done + [x])
  }

  /** The kept items of a run of row outcomes in listing order, read front to back. */
  function Kept<T>(outs: seq<Result<Option<T>, ProviderError>>): seq<T>
  {
    if |outs| == 0 then []
    else (if outs[0].Ok? && outs[0].value.Some? then [outs[0].value.value] else []) + Kept(outs[1..])
  }

  predicate NoError<T>(outs: seq<Result<Option<T>, ProviderError>>) {
    forall i :: 0 <= i < |outs| ==> outs[i].Ok?
  }

  lemma {:induction false} KeptAppend<T>(outs: seq<Result<Option<T>, ProviderError>>, last: Result<Option<T>, ProviderError>)
    ensures Kept(outs + [last]) == Kept(outs) + Kept([last])
  {
    if |outs| > 0 {
      assert (outs + [last])[1..] == outs[1..] + [last];
      KeptAppend(outs[1..], last);
    } else {
      assert outs + [last] == [last];
    }
  }

  /**
    A loop without exception keeps exactly the non-skipped rows, in listing order; any
    exception makes the whole listing fail.
   */
  lemma {:induction false} CollectKeepsOrder<T>(outs: seq<Result<Option<T>, ProviderError>>)
    ensures Collect(outs).Ok? <==> NoError(outs)
    ensures Collect(outs).Ok? ==> Collect(outs).value == Kept(outs)
  {
    if |outs| > 0 {
      var init := outs[..|outs| - 1];
      var last := outs[|outs| - 1];
      CollectKeepsOrder(init);
      assert outs == init + [last];
      KeptAppend(init, last);
      assert Kept([last]) == (if last.Ok? && last.value.Some? then [last.value.value] else []) + Kept([last][1..]);
      if !NoError(init) {
        var i :| 0 <= i < |init| && !init[i].Ok?;
        assert outs[i] == init[i];
      }
      if NoError(init) && last.Ok? {
        forall i | 0 <= i < |outs| ensures outs[i].Ok? {
          if i < |init| { assert outs[i] == init[i]; }
        }
      }
    }
  }

  /** Once a prefix fails, the whole loop fails with the same error. */
  lemma {:induction false} CollectPrefixError<T>(outs: seq<Result<Option<T>, ProviderError>>, n: nat)
    requires n <= |outs|
    requires Collect(outs[..n]).Err?
    ensures Collect(outs) == Collect(outs[..n])
    decreases |outs| - n
  {
    if n < |outs| {
      assert outs[..n + 1][..n] == outs[..n];
      CollectPrefixError(outs, n + 1);
    } else {
      assert outs[..n] == outs;
    }
  }

  // ---------------------------------------------------------------- query: the season page

  /**
    A `tr.epeven` row of `ajax_loadShow.php`: the texts of its `td` cells, and the `href` of
    the link in cell 2 and in cell 9 (None when the cell has no link).
   */
  datatype SeasonRow = SeasonRow(cells: seq<string>, pageHref: Option<string>, downloadHref: Option<string>)

  /**
    One row of the season loop: the status cell 5 is read first and a `%` in it skips the
    row; every other missing cell or link, and a season or episode that is not an integer,
    raises.
   */
  function SeasonRowOutcome(row: SeasonRow, series: string, year: Option<int>, c: Collaborators)
    : (r: Result<Option<Subtitle>, ProviderError>)
    ensures r == Ok(None) <==> |row.cells| > 5 && Contains(row.cells[5], "%")
    ensures r.Ok? && r.value.Some? ==>
      var s := r.value.value;
      && |row.cells| >= 10 && row.pageHref.Some? && row.downloadHref.Some?
      && s.hearingImpaired == (row.cells[6] != "")
      && s.language == RowLanguage(row.cells[3], s.hearingImpaired, c)
      && s.pageLink == SERVER_URL + Drop(row.pageHref.value, 1)
      && s.downloadLink == Drop(row.downloadHref.value, 1)
      && s.season.Some? && s.season == ParseInt(row.cells[0]) && s.episode.Some? && s.episode == ParseInt(row.cells[1])
      && s.series == Some(series) && s.title == row.cells[2] && s.version == row.cells[4]
      && s.releaseInfo == ReleaseInfo(s.version) && s.uploader.None?
  {
    var cells := row.cells;
    if |cells| <= 5 then Err(MalformedPage)
    else if Contains(cells[5], "%") then Ok(None)
    else if row.pageHref.None? || ParseInt(cells[0]).None? || ParseInt(cells[1]).None?
            || |cells| < 10 || row.downloadHref.None?
    then Err(MalformedPage)
    else
      var hi := cells[6] != "";
      Ok(Some(Subtitle(
        RowLanguage(cells[3], hi, c), hi, SERVER_URL + Drop(row.pageHref.value, 1), Some(series),
        ParseInt(cells[0]), ParseInt(cells[1]), cells[2], year, cells[4], ReleaseInfo(cells[4]),
        Drop(row.downloadHref.value, 1), None)))
  }

  function SeasonOutcomes(rows: seq<SeasonRow>, series: string, year: Option<int>, c: Collaborators)
    : (outs: seq<Result<Option<Subtitle>, ProviderError>>)
    ensures |outs| == |rows|
    ensures forall i :: 0 <= i < |rows| ==> outs[i] == SeasonRowOutcome(rows[i], series, year, c)
  {
    seq(|rows|, i requires 0 <= i < |rows| => SeasonRowOutcome(rows[i], series, year, c))
  }

  /**
    The status checks every page fetch makes before reading the page: `raise_for_status`,
    then 304 (the site's throttling signal), then an empty body, which yields `[]`.
   */
  function PageGate(resp: Response): (r: Option<Result<seq<Subtitle>, ProviderError>>)
    ensures r.None? <==> !(400 <= resp.status < 600) && resp.status != NOT_MODIFIED && resp.text != ""
    ensures 400 <= resp.status < 600 ==> r == Some(Err(HttpError(resp.status)))
    ensures resp.status == NOT_MODIFIED ==> r == Some(Err(TooManyRequests))
    ensures r.Some? && r.value.Ok? ==> r.value.value == [] && resp.text == ""
  {
    if RaiseForStatus(resp).Some? then Some(Err(RaiseForStatus(resp).value))
    else if resp.status == NOT_MODIFIED then Some(Err(TooManyRequests))
    else if resp.text == "" then Some(Ok([]))
    else None
  }

  /** What `query` returns for the response `resp` whose `tr.epeven` rows are `rows`. */
  function Query(resp: Response, rows: seq<SeasonRow>, series: string, year: Option<int>, c: Collaborators)
    : Result<seq<Subtitle>, ProviderError>
  {
    if PageGate(resp).Some? then PageGate(resp).value
    else Collect(SeasonOutcomes(rows, series, year, c))
  }

  /** `query`'s loop: appends one subtitle per complete row. */
  method QuerySeason(resp: Response, rows: seq<SeasonRow>, series: string, year: Option<int>, c: Collaborators)
    returns (r: Result<seq<Subtitle>, ProviderError>)
    ensures r == Query(resp, rows, series, year, c)
  {
    var gate := PageGate(resp);
    if gate.Some? {
      return gate.value;
    }
    ghost var outs := SeasonOutcomes(rows, series, year, c);
    var subtitles: seq<Subtitle> := [];
    var i := 0;
    while i < |rows|
      invariant 0 <= i <= |rows|
      invariant Collect(outs[..i]) == Ok(subtitles)
    {
      assert outs[..i + 1][..i] == outs[..i];
      var row := SeasonRowOutcome(rows[i], series, year, c);
      if row.Err? {
        CollectPrefixError(outs, i + 1);
        return Err(row.error);
      }
      if row.value.Some? {
        subtitles := subtitles + [row.value.value];
      }
      i := i + 1;
    }
    assert outs[..i] == outs;
    return Ok(subtitles);
  }

  /**
    A season page that parses keeps every complete row, in listing order, and nothing else;
    a row still in progress (its status holds "%") never yields a subtitle.
   */
  lemma QueryKeepsCompleteRowsInOrder(resp: Response, rows: seq<SeasonRow>, series: string, year: Option<int>,
                                      c: Collaborators)
    requires PageGate(resp).None?
    ensures var outs := SeasonOutcomes(rows, series, year, c);
      Query(resp, rows, series, year, c).Ok? <==> NoError(outs)
    ensures var outs := SeasonOutcomes(rows, series, year, c);
      Query(resp, rows, series, year, c).Ok? ==> Query(resp, rows, series, year, c).value == Kept(outs)
  {
    CollectKeepsOrder(SeasonOutcomes(rows, series, year, c));
  }

  /**
    A listing of a row still in progress followed by a complete row yields exactly the
    complete row's subtitle, its download link being the row's link without the leading "/".
   */
  lemma IncompleteRowSkipped(resp: Response, partial: SeasonRow, done: SeasonRow, series: string, year: Option<int>,
                             c: Collaborators)
    requires PageGate(resp).None?
    requires |partial.cells| > 5 && Contains(partial.cells[5], "%")
    requires |done.cells| >= 10 && '%' !in done.cells[5] && done.pageHref.Some? && done.downloadHref.Some?
    requires ParseInt(done.cells[0]).Some? && ParseInt(done.cells[1]).Some?
    ensures var q := Query(resp, [partial, done], series, year, c);
      q.Ok? && |q.value| == 1 && q.value[0].downloadLink == Drop(done.downloadHref.value, 1) &&
      q.value[0].hearingImpaired == (done.cells[6] != "")
  {
    NoPercent(done.cells[5]);
    var outs := SeasonOutcomes([partial, done], series, year, c);
    var kept := SeasonRowOutcome(done, series, year, c);
    assert outs == [Ok(None), kept];
    TwoOutcomes(kept);
  }

  /** A skipped row then a kept one collect to the kept one alone. */
  lemma TwoOutcomes<T>(done: Result<Option<T>, ProviderError>)
    requires done.Ok? && done.value.Some?
    ensures Collect([Ok(None), done]) == Ok([done.value.value])
  {
    var outs: seq<Result<Option<T>, ProviderError>> := [Ok(None), done];
    var first: seq<Result<Option<T>, ProviderError>> := [Ok(None)];
    assert first[..0] == [];
    assert Collect(first) == Ok([]);
    assert outs[..1] == first;
    assert outs[1] == done;
    assert Collect(outs) == Ok([] + [done.value.value]);
    assert [] + [done.value.value] == [done.value.value];
  }

  /** A status without "%" is never an incomplete one. */
  lemma NoPercent(status: string)
    requires '%' !in status
    ensures !Contains(status, "%")
  {
    forall i | 0 <= i <= |status| - 1 ensures !OccursAt(status, "%", i) {
      assert status[i..i + 1] == [status[i]];
    }
  }

  // ---------------------------------------------------------------- query_movie: the movie page

  /**
    The parts of one `table.tabel95` of a movie page that `query_movie` reads. `status` is
    the text of the status cell (None when the table is too short to hold it); `cells` the
    rest (None when any of the other cells or attributes is missing). `version` is the
    first group of `Version\s(.+),.+` on the version cell, None when that does not match.
   */
  datatype MovieTable = MovieTable(hasNewsTitle: bool, status: Option<string>, cells: Option<MovieCells>)
  datatype MovieCells = MovieCells(languageText: string, iconSrc: string, version: Option<string>,
                                   downloadHref: string, uploaderText: string)

  /**
    One table of the movie loop: tables without a `NewsTitle` cell are not part of the
    list; a status with `%` skips; a version that does not match makes `Addic7edSubtitle`
    call `replace` on None, which raises.
   */
  function MovieTableOutcome(t: MovieTable, movieId: string, title: string, year: Option<int>, c: Collaborators)
    : (r: Result<Option<Subtitle>, ProviderError>)
    ensures r == Ok(None) <==> !t.hasNewsTitle || (t.status.Some? && Contains(t.status.value, "%"))
    ensures r.Ok? && r.value.Some? ==>
      var s := r.value.value;
      && t.cells.Some? && t.cells.value.version.Some?
      && s.hearingImpaired == EndsWith(t.cells.value.iconSrc, "hi.jpg")
      && s.language == RowLanguage(StripChar(t.cells.value.languageText, '\n'), s.hearingImpaired, c)
      && s.pageLink == SERVER_URL + "movie/" + movieId
      && s.downloadLink == Drop(t.cells.value.downloadHref, 1)
      && s.series.None? && s.season.None? && s.episode.None? && s.title == title
      && s.releaseInfo == ReleaseInfo(s.version) && s.uploader == Some(Strip(t.cells.value.uploaderText))
  {
    if !t.hasNewsTitle then Ok(None)
    else if t.status.None? then Err(MalformedPage)
    else if Contains(t.status.value, "%") then Ok(None)
    else if t.cells.None? || t.cells.value.version.None? then Err(MalformedPage)
    else
      var cs := t.cells.value;
      var hi := EndsWith(cs.iconSrc, "hi.jpg");
      Ok(Some(Subtitle(
        RowLanguage(StripChar(cs.languageText, '\n'), hi, c), hi, SERVER_URL + "movie/" + movieId, None,
        None, None, title, year, cs.version.value, ReleaseInfo(cs.version.value),
        Drop(cs.downloadHref, 1), Some(Strip(cs.uploaderText)))))
  }

  /** `s.strip(ch)` for one character. */
  function StripChar(s: string, ch: char): (r: string)
    ensures |r| > 0 ==> r[0] != ch && r[|r| - 1] != ch
    ensures exists i, j ::
      && 0 <= i <= j <= |s| && r == s[i..j]
      && (forall k :: 0 <= k < i ==> s[k] == ch)
      && (forall k :: j <= k < |s| ==> s[k] == ch)
  {
    var left := LStripChar(s, ch);
    var r := RStripChars(left, {ch});
    StripCharSlice(s, ch, left, r);
    r
  }

  /**
    Where the two halves of `StripChar` cut `s`: `left` is a suffix of `s` preceded only by
    `ch`, and `r` a prefix of `left` followed only by `ch`.
   */
  lemma StripCharSlice(s: string, ch: char, left: string, r: string)
    requires |left| <= |s| && left == s[|s| - |left|..] && forall k :: 0 <= k < |s| - |left| ==> s[k] == ch
    requires |r| <= |left| && r == left[..|r|] && forall k :: |r| <= k < |left| ==> left[k] in {ch}
    ensures var i := |s| - |left|;
      && r == s[i..i + |r|]
      && (forall k :: 0 <= k < i ==> s[k] == ch)
      && (forall k :: i + |r| <= k < |s| ==> s[k] == ch)
  {
    var i := |s| - |left|;
    forall k | i + |r| <= k < |s|
      ensures s[k] == ch
    {
      assert s[k] == left[k - i];
    }
  }

  function MovieOutcomes(tables: seq<MovieTable>, movieId: string, title: string, year: Option<int>, c: Collaborators)
    : (outs: seq<Result<Option<Subtitle>, ProviderError>>)
    ensures |outs| == |tables|
    ensures forall i :: 0 <= i < |tables| ==> outs[i] == MovieTableOutcome(tables[i], movieId, title, year, c)
  {
    seq(|tables|, i requires 0 <= i < |tables| => MovieTableOutcome(tables[i], movieId, title, year, c))
  }

  /** What `query_movie` returns for the response `resp` whose candidate tables are `tables`. */
  function QueryMovie(resp: Response, tables: seq<MovieTable>, movieId: string, title: string, year: Option<int>,
                      c: Collaborators): Result<seq<Subtitle>, ProviderError>
  {
    if PageGate(resp).Some? then PageGate(resp).value
    else Collect(MovieOutcomes(tables, movieId, title, year, c))
  }

  /** `query_movie`'s loops: the `NewsTitle` tables are selected, then each complete one is appended. */
  method QueryMoviePage(resp: Response, tables: seq<MovieTable>, movieId: string, title: string, year: Option<int>,
                        c: Collaborators) returns (r: Result<seq<Subtitle>, ProviderError>)
    ensures r == QueryMovie(resp, tables, movieId, title, year, c)
  {
    var gate := PageGate(resp);
    if gate.Some? {
      return gate.value;
    }
    ghost var outs := MovieOutcomes(tables, movieId, title, year, c);
    var subtitles: seq<Subtitle> := [];
    var i := 0;
    while i < |tables|
      invariant 0 <= i <= |tables|
      invariant Collect(outs[..i]) == Ok(subtitles)
    {
      assert outs[..i + 1][..i] == outs[..i];
      var row := MovieTableOutcome(tables[i], movieId, title, year, c);
      if row.Err? {
        CollectPrefixError(outs, i + 1);
        return Err(row.error);
      }
      if row.value.Some? {
        subtitles := subtitles + [row.value.value];
      }
      i := i + 1;
    }
    assert outs[..i] == outs;
    return Ok(subtitles);
  }

  // ---------------------------------------------------------------- list_subtitles filters

  /** `[s for s in subtitles if s.language in languages and s.episode == episode]` */
  function FilterEpisode(subs: seq<Subtitle>, languages: set<Lang>, episode: Option<int>): (r: seq<Subtitle>)
    ensures |r| <= |subs|
    ensures forall s :: s in r <==> s in subs && s.language in languages && s.episode == episode
  {
    if |subs| == 0 then []
    else
      var rest := FilterEpisode(subs[1..], languages, episode);
      assert forall s :: s in subs <==> s == subs[0] || s in subs[1..];
      if subs[0].language in languages && subs[0].episode == episode then [subs[0]] + rest else rest
  }

  /** Each kept subtitle is kept as many times as it is listed; the others not at all. */
  lemma {:induction false} FilterEpisodeCounts(subs: seq<Subtitle>, languages: set<Lang>, episode: Option<int>)
    ensures var r := FilterEpisode(subs, languages, episode);
      forall s :: multiset(r)[s] == if s.language in languages && s.episode == episode then multiset(subs)[s] else 0
    decreases |subs|
  {
    if |subs| > 0 {
      FilterEpisodeCounts(subs[1..], languages, episode);
      assert subs == [subs[0]] + subs[1..];
    }
  }

  /** The filter keeps the order: filtering a concatenation concatenates the filtered parts. */
  lemma {:induction false} FilterEpisodeConcat(a: seq<Subtitle>, b: seq<Subtitle>, languages: set<Lang>,
                                               episode: Option<int>)
    ensures FilterEpisode(a + b, languages, episode) ==
      FilterEpisode(a, languages, episode) + FilterEpisode(b, languages, episode)
    decreases |a|
  {
    if |a| > 0 {
      assert (a + b)[0] == a[0] && (a + b)[1..] == a[1..] + b;
      FilterEpisodeConcat(a[1..], b, languages, episode);
    } else {
      assert a + b == b;
    }
  }

  /** `[s for s in subtitles if s.language in languages]` */
  function FilterLanguage(subs: seq<Subtitle>, languages: set<Lang>): (r: seq<Subtitle>)
    ensures |r| <= |subs|
    ensures forall s :: s in r <==> s in subs && s.language in languages
    ensures forall s :: multiset(r)[s] == if s.language in languages then multiset(subs)[s] else 0
  {
    if |subs| == 0 then []
    else
      var rest := FilterLanguage(subs[1..], languages);
      assert subs == [subs[0]] + subs[1..];
      assert forall s :: s in subs <==> s == subs[0] || s in subs[1..];
      if subs[0].language in languages then [subs[0]] + rest else rest
  }

  /** The filter keeps the order: filtering a concatenation concatenates the filtered parts. */
  lemma {:induction false} FilterLanguageConcat(a: seq<Subtitle>, b: seq<Subtitle>, languages: set<Lang>)
    ensures FilterLanguage(a + b, languages) == FilterLanguage(a, languages) + FilterLanguage(b, languages)
    decreases |a|
  {
    if |a| > 0 {
      assert (a + b)[0] == a[0] && (a + b)[1..] == a[1..] + b;
      FilterLanguageConcat(a[1..], b, languages);
    } else {
      assert a + b == b;
    }
  }

  // ---------------------------------------------------------------- get_matches

  const EPISODE_KEYS: set<string> := {"series", "season", "episode", "year"}

  /**
    `Addic7edSubtitle.get_matches` on top of the matches the parent class found: with a
    non-zero `addic7ed_boost` score, a matching release group implies a matching source,
    and series, season, episode, year and source together earn the boost.
   */
  function BoostMatches(matches: set<string>, boostScored: bool): (r: set<string>)
    ensures matches <= r
    ensures !boostScored ==> r == matches
    ensures boostScored ==> ("addic7ed_boost" in r <==>
      "addic7ed_boost" in matches ||
      (EPISODE_KEYS <= matches && ("source" in matches || "release_group" in matches)))
    ensures boostScored ==> ("source" in r <==> "source" in matches || "release_group" in matches)
    ensures r - matches <= {"source", "addic7ed_boost"}
  {
    if !boostScored then matches
    else
      var withSource := if "release_group" in matches then matches + {"source"} else matches;
      if EPISODE_KEYS <= withSource && "source" in withSource then withSource + {"addic7ed_boost"}
      else withSource
  }
}
