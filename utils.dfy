/**
  Bazarr's helpers around subtitles files and the cache: the expiry sweep of the cache
  (`cache_maintenance`), the deletion of one subtitles file with its history entry
  (`delete_subtitles`), the cutting of a subtitles text into blocks for translation (the
  loop of `translate_subtitles_file`) and the login check (`check_credentials`).
 */
module Utils {
  import opened Wrappers
  import opened Text
  import opened Config

  // ---------------------------------------------------------------- cache_maintenance

  const DAY := 86400
  /** Days a file of the main cache is kept. */
  const MAIN_CACHE_VALIDITY := 14
  /** Days a `*.archive` file is kept. */
  const PACK_CACHE_VALIDITY := 4

  /** `os.path.getmtime` of a file that is gone. */
  datatype CacheError = FileNotFound(path: string)

  /** `mtime + timedelta(days=expiry) < now` */
  predicate Expired(mtime: int, days: nat, now: int) {
    mtime + days * DAY < now
  }

  /**
    `remove_expired(path, expiry)` on the modification times `files`: reading the time
    of a missing file raises; an expired file is removed unless the removal fails, which
    is only logged.
   */
  function RemoveExpired(files: map<string, int>, path: string, days: nat, now: int, removable: string -> bool)
    : (r: (Result<(), CacheError>, map<string, int>))
    ensures r.0.Err? <==> path !in files
    ensures r.0.Err? ==> r.1 == files
    ensures r.0.Ok? && Expired(files[path], days, now) && removable(path) ==> r.1 == files - {path}
    ensures r.0.Ok? && !(Expired(files[path], days, now) && removable(path)) ==> r.1 == files
  {
    if path !in files then (Err(FileNotFound(path)), files)
    else if Expired(files[path], days, now) && removable(path) then (Ok(()), files - {path})
    else (Ok(()), files)
  }

  /** Each path with the validity it is swept against. */
  function Tagged(paths: seq<string>, days: nat): (ts: seq<(string, nat)>)
    ensures |ts| == |paths| && forall i :: 0 <= i < |paths| ==> ts[i] == (paths[i], days)
  {
    seq(|paths|, i requires 0 <= i < |paths| => (paths[i], days))
  }

  /** The files swept and their validity: the main cache's files, then the archives. */
  function Tasks(mainFiles: seq<string>, archives: seq<string>): seq<(string, nat)> {
    Tagged(mainFiles, MAIN_CACHE_VALIDITY) + Tagged(archives, PACK_CACHE_VALIDITY)
  }

  /** The sweep over `tasks`, stopped by the first exception. */
  function Sweep(files: map<string, int>, tasks: seq<(string, nat)>, now: int, removable: string -> bool)
    : (Result<(), CacheError>, map<string, int>)
  {
    if |tasks| == 0 then (Ok(()), files)
    else
      var prior := Sweep(files, tasks[..|tasks| - 1], now, removable);
      if prior.0.Err? then prior
      else RemoveExpired(prior.1, tasks[|tasks| - 1].0, tasks[|tasks| - 1].1, now, removable)
  }

  /** Some task names `p` and finds it expired. */
  predicate DueFor(files: map<string, int>, tasks: seq<(string, nat)>, p: string, now: int)
    requires p in files
  {
    exists k :: 0 <= k < |tasks| && tasks[k].0 == p && Expired(files[p], tasks[k].1, now)
  }

  /**
    When every swept file exists and none is named twice, the sweep succeeds and removes
    exactly the files that are expired for their validity and removable; the rest stay
    with their times.
   */
  lemma {:induction false} SweepRemovesExactlyExpired(files: map<string, int>, tasks: seq<(string, nat)>, now: int,
                                                      removable: string -> bool)
    requires forall k :: 0 <= k < |tasks| ==> tasks[k].0 in files
    requires forall j, k :: 0 <= j < k < |tasks| ==> tasks[j].0 != tasks[k].0
    ensures var (r, left) := Sweep(files, tasks, now, removable);
      && r.Ok?
      && (forall p :: p in left ==> p in files && left[p] == files[p])
      && (forall p :: p in files ==> (p !in left <==> DueFor(files, tasks, p, now) && removable(p)))
    decreases |tasks|
  {
    if |tasks| > 0 {
      var init := tasks[..|tasks| - 1];
      var path := tasks[|tasks| - 1].0;
      SweepRemovesExactlyExpired(files, init, now, removable);
      forall k | 0 <= k < |init| ensures init[k].0 != path {
        assert init[k] == tasks[k];
      }
      assert !DueFor(files, init, path, now);
      var (r, left) := Sweep(files, tasks, now, removable);
      forall p | p in files
        ensures p !in left <==> DueFor(files, tasks, p, now) && removable(p)
      {
        if p == path {
          DueForLast(files, tasks, now);
        } else {
          DueForOthers(files, tasks, p, now);
        }
      }
    }
  }

  /** The last task decides alone for its own path when no earlier task names it. */
  lemma DueForLast(files: map<string, int>, tasks: seq<(string, nat)>, now: int)
    requires |tasks| > 0 && tasks[|tasks| - 1].0 in files
    requires forall k :: 0 <= k < |tasks| - 1 ==> tasks[k].0 != tasks[|tasks| - 1].0
    ensures var (p, days) := tasks[|tasks| - 1];
      DueFor(files, tasks, p, now) <==> Expired(files[p], days, now)
  {
    var p := tasks[|tasks| - 1].0;
    if DueFor(files, tasks, p, now) {
      var k :| 0 <= k < |tasks| && tasks[k].0 == p && Expired(files[p], tasks[k].1, now);
      assert k == |tasks| - 1;
    }
  }

  /** The last task does not change whether another path is due. */
  lemma DueForOthers(files: map<string, int>, tasks: seq<(string, nat)>, p: string, now: int)
    requires |tasks| > 0 && p in files && p != tasks[|tasks| - 1].0
    ensures DueFor(files, tasks, p, now) <==> DueFor(files, tasks[..|tasks| - 1], p, now)
  {
    var init := tasks[..|tasks| - 1];
    if DueFor(files, tasks, p, now) {
      var k :| 0 <= k < |tasks| && tasks[k].0 == p && Expired(files[p], tasks[k].1, now);
      assert init[k] == tasks[k];
    }
    if DueFor(files, init, p, now) {
      var k :| 0 <= k < |init| && init[k].0 == p && Expired(files[p], init[k].1, now);
      assert tasks[k] == init[k];
    }
  }

  /** The cache directory: the modification time of every file, in seconds. */
  class CacheFiles {
    var mtimes: map<string, int>

    constructor (mtimes: map<string, int>)
      ensures this.mtimes == mtimes
    {
      this.mtimes := mtimes;
    }

    /** `remove_expired(path, expiry)` */
    method RemoveExpiredFile(path: string, days: nat, now: int, removable: string -> bool)
      returns (r: Result<(), CacheError>)
      modifies this
      ensures (r, mtimes) == RemoveExpired(old(mtimes), path, days, now, removable)
    {
      if path !in mtimes {
        return Err(FileNotFound(path));
      }
      if Expired(mtimes[path], days, now) && removable(path) {
        mtimes := mtimes - {path};
      }
      return Ok(());
    }

    /** One `for` loop of `cache_maintenance`: `remove_expired` on each path in turn. */
    method SweepFiles(paths: seq<string>, days: nat, now: int, removable: string -> bool)
      returns (r: Result<(), CacheError>)
      modifies this
      ensures (r, mtimes) == Sweep(old(mtimes), Tagged(paths, days), now, removable)
    {
      ghost var tasks := Tagged(paths, days);
      ghost var start := mtimes;
      r := Ok(());
      var i := 0;
      while i < |paths|
        invariant 0 <= i <= |paths|
        invariant (r, mtimes) == Sweep(start, tasks[..i], now, removable)
        invariant r.Ok?
      {
        assert tasks[..i + 1][..i] == tasks[..i];
        r := RemoveExpiredFile(paths[i], days, now, removable);
        if r.Err? {
          SweepStops(start, tasks, i + 1, now, removable);
          return;
        }
        i := i + 1;
      }
      assert tasks[..i] == tasks;
    }

    /**
      `cache_maintenance()`: every file of the main cache against 14 days, then every
      archive against 4 days, in listing order.
     */
    method CacheMaintenance(mainFiles: seq<string>, archives: seq<string>, now: int, removable: string -> bool)
      returns (r: Result<(), CacheError>)
      modifies this
      ensures (r, mtimes) == Sweep(old(mtimes), Tasks(mainFiles, archives), now, removable)
    {
      SweepAppend(mtimes, Tagged(mainFiles, MAIN_CACHE_VALIDITY), Tagged(archives, PACK_CACHE_VALIDITY), now, removable);
      r := SweepFiles(mainFiles, MAIN_CACHE_VALIDITY, now, removable);
      if r.Ok? {
        r := SweepFiles(archives, PACK_CACHE_VALIDITY, now, removable);
      }
    }
  }

  /** Sweeping two lists of tasks in a row is sweeping them one after the other, the second only when the first did not raise. */
  lemma {:induction false} SweepAppend(files: map<string, int>, first: seq<(string, nat)>, second: seq<(string, nat)>,
                                       now: int, removable: string -> bool)
    ensures var prior := Sweep(files, first, now, removable);
      Sweep(files, first + second, now, removable) ==
        if prior.0.Err? then prior else Sweep(prior.1, second, now, removable)
    decreases |second|
  {
    if |second| == 0 {
      assert first + second == first;
    } else {
      var init := second[..|second| - 1];
      assert (first + second)[..|first + second| - 1] == first + init;
      SweepAppend(files, first, init, now, removable);
    }
  }

  /** Once a task raises, the later tasks are never run. */
  lemma {:induction false} SweepStops(files: map<string, int>, tasks: seq<(string, nat)>, k: nat, now: int,
                                      removable: string -> bool)
    requires k <= |tasks| && Sweep(files, tasks[..k], now, removable).0.Err?
    ensures Sweep(files, tasks, now, removable) == Sweep(files, tasks[..k], now, removable)
    decreases |tasks|
  {
    if k < |tasks| {
      assert tasks[..|tasks| - 1][..k] == tasks[..k];
      SweepStops(files, tasks[..|tasks| - 1], k, now, removable);
    } else {
      assert tasks[..k] == tasks;
    }
  }

  // ---------------------------------------------------------------- delete_subtitles

  /** A Python value passed as the `forced` or `hi` argument. */
  datatype PyValue = PyBool(b: bool) | PyInt(i: int) | PyStr(s: string) | PyNone

  /** `v in [True, 'true', 'True']`; `1 == True` in Python, so the integer 1 is in the list too. */
  predicate IsTrueFlag(v: PyValue) {
    v == PyBool(true) || v == PyInt(1) || v == PyStr("true") || v == PyStr("True")
  }

  /**
    What a history entry is about: `history_log` takes the series and episode ids,
    `history_log_movie` the movie id (each None when the caller leaves it out).
   */
  datatype HistoryMedia = EpisodeOf(seriesId: Option<int>, episodeId: Option<int>) | MovieOf(movieId: Option<int>)

  /** The history entry written after a deletion (action 0 is "deleted"). */
  datatype HistoryEntry = HistoryEntry(media: HistoryMedia, message: string, language: string, videoPath: string,
                                       subtitlesPath: string)

  /** The `event_stream` message sent after a deletion: its type and the id in its payload. */
  datatype WantedUpdate = WantedUpdate(kind: string, payload: Option<int>)

  /**
    What `delete_subtitles` did: its return value, the history entry written, the wanted
    list refreshed through `event_stream`, and whether the media's subtitles were indexed again.
   */
  datatype Deletion = Deletion(result: bool, history: Option<HistoryEntry>, wantedUpdate: Option<WantedUpdate>,
                               reindexed: bool)

  /** The language tag of the history and the language text of the message. */
  function LanguageTags(language: string, forced: PyValue, hi: PyValue, languageName: string -> string)
    : (r: (string, string))
    ensures IsTrueFlag(hi) ==> r == (language + ":hi", languageName(language) + " HI")
    ensures !IsTrueFlag(hi) && IsTrueFlag(forced) ==> r == (language + ":forced", languageName(language) + " forced")
    ensures !IsTrueFlag(hi) && !IsTrueFlag(forced) ==> r == (language, languageName(language))
  {
    if IsTrueFlag(hi) then (language + ":hi", languageName(language) + " HI")
    else if IsTrueFlag(forced) then (language + ":forced", languageName(language) + " forced")
    else (language, languageName(language))
  }

  /**
    `delete_subtitles(...)`: only ".srt" files are deleted; `removed` says whether
    `os.remove` succeeded. The media is indexed again whatever the removal did, but the
    history entry and the wanted-list update follow a successful removal only.
   */
  function DeleteSubtitles(mediaType: string, language: string, forced: PyValue, hi: PyValue, mediaPath: string,
                           subtitlesPath: string, seriesId: Option<int>, episodeId: Option<int>,
                           movieId: Option<int>, languageName: string -> string, removed: bool): (d: Deletion)
    ensures !EndsWith(subtitlesPath, ".srt") ==> d == Deletion(false, None, None, false)
    ensures EndsWith(subtitlesPath, ".srt") ==> d.reindexed
    ensures d.result <==> EndsWith(subtitlesPath, ".srt") && removed
    ensures d.history.Some? <==> d.result
    ensures d.wantedUpdate.Some? <==> d.result
    ensures d.history.Some? ==>
      var (tag, text) := LanguageTags(language, forced, hi, languageName);
      && d.history.value.language == tag
      && d.history.value.message == text + " subtitles deleted from disk."
      && d.history.value.media == (if mediaType == "series" then EpisodeOf(seriesId, episodeId) else MovieOf(movieId))
      && d.history.value.subtitlesPath == subtitlesPath && d.history.value.videoPath == mediaPath
    ensures d.wantedUpdate.Some? ==>
      d.wantedUpdate.value ==
        (if mediaType == "series" then WantedUpdate("episode-wanted", episodeId) else WantedUpdate("movie-wanted", movieId))
  {
    if !EndsWith(subtitlesPath, ".srt") then Deletion(false, None, None, false)
    else
      var (tag, text) := LanguageTags(language, forced, hi, languageName);
      var message := text + " subtitles deleted from disk.";
      if !removed then Deletion(false, None, None, true)
      else if mediaType == "series" then
        Deletion(true, Some(HistoryEntry(EpisodeOf(seriesId, episodeId), message, tag, mediaPath, subtitlesPath)),
                 Some(WantedUpdate("episode-wanted", episodeId)), true)
      else
        Deletion(true, Some(HistoryEntry(MovieOf(movieId), message, tag, mediaPath, subtitlesPath)),
                 Some(WantedUpdate("movie-wanted", movieId)), true)
  }

  /** The history's language tag marks at most one of hearing impaired and forced, hearing impaired first. */
  lemma DeletedTagMarksOne(language: string, forced: PyValue, hi: PyValue, languageName: string -> string)
    requires ':' !in language
    ensures var tag := LanguageTags(language, forced, hi, languageName).0;
      && (EndsWith(tag, ":hi") <==> IsTrueFlag(hi))
      && (EndsWith(tag, ":forced") <==> !IsTrueFlag(hi) && IsTrueFlag(forced))
  {
    var tag := LanguageTags(language, forced, hi, languageName).0;
    if IsTrueFlag(hi) {
      assert tag[|language|..] == ":hi";
      assert !EndsWith(tag, ":forced") by {
        if |tag| >= 7 {
          assert tag[|tag| - 7] == language[|language| - 4];
          assert language[|language| - 4] in language;
        }
      }
    } else if IsTrueFlag(forced) {
      assert tag[|language|..] == ":forced";
      assert !EndsWith(tag, ":hi") by {
        assert tag[|tag| - 3] == 'c';
      }
    } else {
      assert !EndsWith(tag, ":hi") by {
        if |tag| >= 3 {
          assert tag[|tag| - 3] in language;
        }
      }
      assert !EndsWith(tag, ":forced") by {
        if |tag| >= 7 {
          assert tag[|tag| - 7] in language;
        }
      }
    }
  }

  // ---------------------------------------------------------------- translate_subtitles_file: the blocks

  const MAX_CHARACTERS := 5000
  /** The separator the subtitle lines are joined with. */
  const SEP := "\n\n\n"

  /** The separator starts at position `j` of `s`. */
  predicate SepAt(s: string, j: int) {
    0 <= j && j + 3 <= |s| && s[j..j + 3] == SEP
  }

  /** The last position at or before `k` where the separator starts. */
  function LastSepAtOrBefore(s: string, k: int): (r: Option<nat>)
    ensures r.Some? ==> r.value <= k && SepAt(s, r.value)
    ensures forall j :: (if r.Some? then r.value + 1 else 0) <= j <= k ==> !SepAt(s, j)
    decreases k + 1
  {
    if k < 0 then None
    else if SepAt(s, k) then Some(k)
    else LastSepAtOrBefore(s, k - 1)
  }

  /** `s.rsplit('\n\n\n', 1)[0]`: the text before the last separator, or all of it. */
  function BeforeLastSep(s: string): (r: string)
    ensures |r| <= |s| && r == s[..|r|]
    ensures (forall j :: 0 <= j ==> !SepAt(s, j)) ==> r == s
    ensures r != s ==> SepAt(s, |r|) && forall j :: |r| < j ==> !SepAt(s, j)
  {
    match LastSepAtOrBefore(s, |s| - 3)
    case None => s
    case Some(j) => s[..j]
  }

  /** When the only separator of `s` is at `at`, the text before the last separator ends there. */
  lemma OnlySep(s: string, at: nat)
    requires SepAt(s, at) && forall j :: at < j ==> !SepAt(s, j)
    ensures BeforeLastSep(s) == s[..at]
  {
    var last := LastSepAtOrBefore(s, |s| - 3);
    assert last.Some?;
    assert last.value == at;
  }

  /**
    One pass of the loop as written: the first 5000 characters, cut at their last
    separator when more text follows; then EVERY occurrence of the block is removed from
    the text (`str.replace`), an empty block removing nothing.
   */
  function SplitStepAsWritten(rest: string): (r: (string, string))
    ensures |r.0| <= MAX_CHARACTERS
    ensures |rest| <= MAX_CHARACTERS ==> r == (rest, "")
    ensures |rest| > MAX_CHARACTERS ==> r.0 == BeforeLastSep(rest[..MAX_CHARACTERS])
  {
    var partial := Take(rest, MAX_CHARACTERS);
    var block := if |rest| > MAX_CHARACTERS then BeforeLastSep(partial) else partial;
    RemoveAllSelf(rest);
    (block, RemoveAll(rest, block))
  }

  lemma RemoveAllSelf(s: string)
    ensures RemoveAll(s, s) == ""
  {
    if |s| > 0 {
      assert s[..|s|] == s;
      assert RemoveAll(s, s) == RemoveAll(s[|s|..], s);
    }
  }

  /**
    As written, a long text whose first 5000 characters hold a separator only at the
    very start gives an empty block and stays as it is: the loop never ends.
   */
  lemma StallAsWritten(rest: string)
    requires |rest| > MAX_CHARACTERS && SepAt(rest, 0)
    requires forall j :: 0 < j <= MAX_CHARACTERS - 3 ==> !SepAt(rest, j)
    ensures SplitStepAsWritten(rest) == ("", rest)
  {
    var partial := rest[..MAX_CHARACTERS];
    assert SepAt(partial, 0) by {
      assert partial[0..3] == rest[0..3];
    }
    forall j | 0 < j ensures !SepAt(partial, j) {
      if j + 3 <= MAX_CHARACTERS {
        assert !SepAt(rest, j);
        assert partial[j..j + 3] == rest[j..j + 3];
      }
    }
    OnlySep(partial, 0);
  }

  /** A text of `n` letters "y". */
  function Letters(n: nat): (s: string)
    ensures |s| == n && forall i :: 0 <= i < n ==> s[i] == 'y'
  {
    seq(n, i => 'y')
  }

  /** A subtitle line of 5000 letters after the first one is such a text. */
  lemma StallExample()
    ensures var rest := SEP + Letters(MAX_CHARACTERS);
      SplitStepAsWritten(rest) == ("", rest)
  {
    var rest := SEP + Letters(MAX_CHARACTERS);
    assert SepAt(rest, 0) by {
      assert rest[0..3] == SEP;
    }
    forall j | 0 < j <= MAX_CHARACTERS - 3 ensures !SepAt(rest, j) {
      assert rest[j + 2] == 'y';
      assert rest[j..j + 3][2] == 'y';
    }
    StallAsWritten(rest);
  }

  /** Removing a pattern skips a prefix that does not hold its first character. */
  lemma {:induction false} RemoveAllSkips(x: string, y: string, pat: string)
    requires |pat| > 0 && pat[0] !in x
    ensures RemoveAll(x + y, pat) == x + RemoveAll(y, pat)
    decreases |x|
  {
    if |x| > 0 {
      var s := x + y;
      assert s[0] == x[0] && x[0] in x;
      assert s[1..] == x[1..] + y;
      RemoveAllSkips(x[1..], y, pat);
      assert x == [x[0]] + x[1..];
      if |s| < |pat| {
        assert RemoveAll(y, pat) == y;
      } else {
        assert s[..|pat|][0] == x[0];
        assert RemoveAll(s, pat) == [x[0]] + (x[1..] + RemoveAll(y, pat));
      }
    } else {
      assert x + y == y;
    }
  }

  /**
    As written, a block that occurs again later in the text is removed there too: a first
    line `x` cut off by the separator that also ends the text is lost from the end.
   */
  lemma RepeatedTextLostAsWritten(x: string, mid: string)
    requires 0 < |x| <= MAX_CHARACTERS - 3 && x[0] !in mid && |x| + |mid| >= MAX_CHARACTERS
    requires SepAt(mid, 0) && forall j :: 0 < j <= MAX_CHARACTERS - 3 - |x| ==> !SepAt(mid, j)
    ensures SplitStepAsWritten(x + mid + x) == (x, mid)
  {
    var rest := x + mid + x;
    var partial := rest[..MAX_CHARACTERS];
    assert rest == x + mid + x;
    assert SepAt(partial, |x|) by {
      assert partial[|x|..|x| + 3] == rest[|x|..|x| + 3] == mid[0..3];
    }
    forall j | |x| < j ensures !SepAt(partial, j) {
      if j + 3 <= MAX_CHARACTERS {
        assert !SepAt(mid, j - |x|);
        assert partial[j..j + 3] == rest[j..j + 3] == mid[j - |x|..j - |x| + 3];
      }
    }
    OnlySep(partial, |x|);
    assert partial[..|x|] == x;
    assert rest == x + (mid + x);
    assert (x + (mid + x))[..|x|] == x;
    assert RemoveAll(rest, x) == RemoveAll(mid + x, x);
    RemoveAllSkips(mid, x, x);
    RemoveAllSelf(x);
    assert mid + "" == mid;
  }

  /** The line "ab", then a line of 4996 letters, then "ab" again. */
  lemma RepeatedTextExample()
    ensures SplitStepAsWritten("ab" + (SEP + Letters(4996)) + "ab") == ("ab", SEP + Letters(4996))
  {
    var mid := SEP + Letters(4996);
    assert SepAt(mid, 0) by {
      assert mid[0..3] == SEP;
    }
    forall j | 0 < j <= MAX_CHARACTERS - 5 ensures !SepAt(mid, j) {
      assert mid[j + 2] == 'y';
      assert mid[j..j + 3][2] == 'y';
    }
    assert 'a' !in mid by {
      forall i | 0 <= i < |mid| ensures mid[i] != 'a' {
        if i >= 3 {
          assert mid[i] == Letters(4996)[i - 3];
        }
      }
    }
    RepeatedTextLostAsWritten("ab", mid);
  }

  /**
    One block, as intended: the whole text when it fits, otherwise the first 5000
    characters cut at their last separator, or uncut when that cut would be empty.
   */
  function NextBlock(rest: string): (b: string)
    requires |rest| > 0
    ensures 0 < |b| <= MAX_CHARACTERS && |b| <= |rest| && b == rest[..|b|]
    ensures |rest| <= MAX_CHARACTERS ==> b == rest
    ensures |rest| > MAX_CHARACTERS && BeforeLastSep(rest[..MAX_CHARACTERS]) != "" ==>
      b == BeforeLastSep(rest[..MAX_CHARACTERS])
  {
    if |rest| <= MAX_CHARACTERS then rest
    else
      var cut := BeforeLastSep(rest[..MAX_CHARACTERS]);
      if cut != "" then cut else rest[..MAX_CHARACTERS]
  }

  /** The blocks of a text, each taken off the front. */
  function Blocks(text: string): seq<string>
    decreases |text|
  {
    if |text| == 0 then [] else
      var b := NextBlock(text);
      [b] + Blocks(text[|b|..])
  }

  function Concat(parts: seq<string>): string {
    if |parts| == 0 then "" else parts[0] + Concat(parts[1..])
  }

  /** The blocks put back together give the text, and none is empty or longer than 5000 characters. */
  lemma {:induction false} BlocksRebuild(text: string)
    ensures Concat(Blocks(text)) == text
    ensures forall i :: 0 <= i < |Blocks(text)| ==> 0 < |Blocks(text)[i]| <= MAX_CHARACTERS
    decreases |text|
  {
    if |text| > 0 {
      var b := NextBlock(text);
      BlocksRebuild(text[|b|..]);
      var bs := Blocks(text);
      assert bs[1..] == Blocks(text[|b|..]);
      assert text == b + text[|b|..];
      forall i | 0 <= i < |bs| ensures 0 < |bs[i]| <= MAX_CHARACTERS {
        if i > 0 {
          assert bs[i] == Blocks(text[|b|..])[i - 1];
        }
      }
    }
  }

  /** The loop of `translate_subtitles_file` as intended: blocks are taken off the front until nothing is left. */
  method SplitBlocks(joined: string) returns (blocks: seq<string>)
    ensures blocks == Blocks(joined)
  {
    blocks := [];
    var rest := joined;
    while |rest| > 0
      invariant blocks + Blocks(rest) == Blocks(joined)
      decreases |rest|
    {
      var block := NextBlock(rest);
      assert Blocks(rest) == [block] + Blocks(rest[|block|..]);
      blocks := blocks + [block];
      rest := rest[|block|..];
    }
  }

  // ---------------------------------------------------------------- check_credentials

  /** `check_credentials(user, pw)`: the MD5 of the password and the user name both match the settings. */
  predicate CheckCredentials(user: string, pw: string, values: map<(string, string), string>, md5: Hash) {
    Lookup(values, "auth", "password") == Some(md5(pw)) && Lookup(values, "auth", "username") == Some(user)
  }

  /** A new password submitted through the settings form is stored hashed, so logging in with it succeeds. */
  lemma SavedPasswordChecks(st: SaveState, pw: string, user: string, sections: set<string>, md5: Hash,
                            keys: FlagKeys)
    requires "auth" in sections
    requires pw != "true" && pw != "false" && Lookup(st.values, "auth", "password") != Some(pw)
    requires Lookup(st.values, "auth", "username") == Some(user)
    ensures var r := SaveStep(st, PASSWORD_KEY, Text(pw), sections, md5, keys);
      r.1.None? && CheckCredentials(user, pw, r.0.values, md5)
  {
    PasswordStepStores(st, pw, sections, md5, keys);
  }
}
