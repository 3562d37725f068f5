/**
  The local series indexer: the year stripping and article handling applied to a series
  directory's name, the listing of a root folder's directories, the mapping of a TMDB
  search to candidate matches, and the metadata record of a matched series. The database,
  `os.listdir` and the TMDB calls are inputs: a root folder's path is `None` when its row
  does not exist, a listing is `None` when the folder cannot be read, and a TMDB call is a
  function returning `None` when the call raises.
 */
module SeriesIndexer {
  import opened Wrappers
  import opened Text
  import opened TitleNormalizer

  // ---------------------------------------------------------------- year stripping

  /** `(19|20)\d{2}`: four digits starting with 19 or 20. */
  predicate IsYear(y: string) {
    |y| == 4 && (y[..2] == "19" || y[..2] == "20") && IsDigit(y[2]) && IsDigit(y[3])
  }

  /**
    `\(\b(19|20)\d{2}\b\)` at the start of `s`. Both word boundaries sit between a
    parenthesis and a digit, so they always hold.
   */
  predicate ParenYearAt(s: string) {
    |s| >= 6 && s[0] == '(' && IsYear(s[1..5]) && s[5] == ')'
  }

  /** `re.sub(r"\(\b(19|20)\d{2}\b\)", '', s)`: every parenthesised year, scanning left to right. */
  function StripParenYears(s: string): (r: string)
    ensures |r| <= |s|
    decreases |s|
  {
    if |s| < 6 then s
    else if ParenYearAt(s) then StripParenYears(s[6..])
    else [s[0]] + StripParenYears(s[1..])
  }

  /**
    `\s\b(19|20)\d{2}\b` at the start of `s`: a whitespace, then a year that the next
    character (if any) does not continue as a word.
   */
  predicate SpaceYearAt(s: string) {
    |s| >= 5 && IsSpace(s[0]) && IsYear(s[1..5]) && (|s| == 5 || !IsWordChar(s[5]))
  }

  /** `re.sub(r"\s\b(19|20)\d{2}\b", '', s)` */
  function StripSpaceYears(s: string): (r: string)
    ensures |r| <= |s|
    decreases |s|
  {
    if |s| < 5 then s
    else if SpaceYearAt(s) then StripSpaceYears(s[5..])
    else [s[0]] + StripSpaceYears(s[1..])
  }

  /** The name a directory is searched under: the years removed, the trailing whitespace stripped after each pass. */
  function StripYears(name: string): (r: string)
    ensures |r| > 0 ==> !IsSpace(r[|r| - 1])
  {
    RStrip(StripSpaceYears(RStrip(StripParenYears(name))))
  }

  /**
    ", The" and ", A" names are turned around. `rstrip` strips a SET of characters, so
    "Breathe, The" becomes "The Breath"; only the first character of the result is ever read.
   */
  function MoveArticle(d: string): (r: string)
    ensures EndsWith(d, ", The") ==> StartsWith(r, "The ")
    ensures !EndsWith(d, ", The") && EndsWith(d, ", A") ==> StartsWith(r, "A ")
    ensures !EndsWith(d, ", The") && !EndsWith(d, ", A") ==> r == d
  {
    if EndsWith(d, ", The") then "The " + RStripChars(d, {',', ' ', 'T', 'h', 'e'})
    else if EndsWith(d, ", A") then "A " + RStripChars(d, {',', ' ', 'A'})
    else d
  }

  /** The cleaned name `list_series_directories` tests for a leading "." */
  function CleanName(name: string): string {
    MoveArticle(StripYears(name))
  }

  predicate Listed(name: string) {
    !StartsWith(CleanName(name), ".")
  }

  // ---------------------------------------------------------------- lemmas on the year stripping

  /** A text without "(" holds no parenthesised year. */
  lemma {:induction false} NoParenUnchanged(s: string)
    requires '(' !in s
    ensures StripParenYears(s) == s
    decreases |s|
  {
    if |s| >= 6 {
      NoParenUnchanged(s[1..]);
      assert s == [s[0]] + s[1..];
    }
  }

  /** A text without ")" holds no parenthesised year. */
  lemma {:induction false} NoCloseUnchanged(s: string)
    requires ')' !in s
    ensures StripParenYears(s) == s
    decreases |s|
  {
    if |s| >= 6 {
      assert s[5] in s;
      NoCloseUnchanged(s[1..]);
      assert s == [s[0]] + s[1..];
    }
  }

  /** A text without "(" passes through and the stripping goes on after it. */
  lemma {:induction false} ParenYearsAfterPlain(a: string, b: string)
    requires '(' !in a
    ensures StripParenYears(a + b) == a + StripParenYears(b)
    decreases |a|
  {
    if |a| > 0 {
      var s := a + b;
      assert s[0] == a[0] && a[0] in a;
      assert s[1..] == a[1..] + b;
      ParenYearsAfterPlain(a[1..], b);
      assert a == [a[0]] + a[1..];
      if |s| < 6 {
        assert StripParenYears(b) == b;
      } else {
        assert !ParenYearAt(s);
        assert StripParenYears(s) == [a[0]] + (a[1..] + StripParenYears(b));
      }
    } else {
      assert a + b == b;
    }
  }

  /** A text without ")" after the stripped part is kept as it is. */
  lemma {:induction false} ParenYearsBeforePlain(a: string, b: string)
    requires ')' !in b
    ensures StripParenYears(a + b) == StripParenYears(a) + b
    decreases |a|
  {
    var s := a + b;
    if |a| == 0 {
      assert s == b;
      NoCloseUnchanged(b);
    } else if |s| < 6 {
    } else if ParenYearAt(s) {
      assert s[5] == ')';
      assert |a| >= 6;
      assert s[1..5] == a[1..5];
      assert ParenYearAt(a);
      assert s[6..] == a[6..] + b;
      ParenYearsBeforePlain(a[6..], b);
    } else {
      assert s[1..] == a[1..] + b;
      ParenYearsBeforePlain(a[1..], b);
      if |a| >= 6 {
        assert s[1..5] == a[1..5];
        assert !ParenYearAt(a);
      } else {
        assert StripParenYears(a[1..]) == a[1..];
        assert a == [a[0]] + a[1..];
      }
    }
  }

  predicate NoDigits(s: string) {
    forall i :: 0 <= i < |s| ==> !IsDigit(s[i])
  }

  /** A text without digits holds no year. */
  lemma {:induction false} NoDigitsUnchanged(s: string)
    requires NoDigits(s)
    ensures StripSpaceYears(s) == s
    decreases |s|
  {
    if |s| >= 5 {
      assert s[1..5][2] == s[3];
      NoDigitsUnchanged(s[1..]);
      assert s == [s[0]] + s[1..];
    }
  }

  /**
    A digit-free text that starts with a non-word character is kept as it is: no year
    reaches into it, and the year before it, if any, is still closed by a boundary.
   */
  lemma {:induction false} SpaceYearsBeforePlain(a: string, b: string)
    requires NoDigits(b) && |b| > 0 && !IsWordChar(b[0])
    ensures StripSpaceYears(a + b) == StripSpaceYears(a) + b
    decreases |a|
  {
    var s := a + b;
    if |a| == 0 {
      assert s == b;
      NoDigitsUnchanged(b);
    } else if |a| < 5 {
      assert !SpaceYearAt(s) by {
        if |s| >= 5 {
          // the first character of b falls inside the would-be year and is no digit
          assert s[1..5][|a| - 1] == b[0];
          YearDigits(s[1..5]);
        }
      }
      assert s[1..] == a[1..] + b;
      SpaceYearsBeforePlain(a[1..], b);
      assert StripSpaceYears(s) == [s[0]] + StripSpaceYears(s[1..]);
    } else {
      SpaceYearAtExtended(a, b);
      if SpaceYearAt(a) {
        assert s[5..] == a[5..] + b;
        SpaceYearsBeforePlain(a[5..], b);
        assert StripSpaceYears(s) == StripSpaceYears(s[5..]);
      } else {
        assert s[1..] == a[1..] + b;
        SpaceYearsBeforePlain(a[1..], b);
        assert StripSpaceYears(s) == [s[0]] + StripSpaceYears(s[1..]);
      }
    }
  }

  /** Every character of a year is a digit. */
  lemma YearDigits(y: string)
    ensures IsYear(y) ==> forall i :: 0 <= i < 4 ==> IsDigit(y[i])
  {
    if IsYear(y) {
      assert y[0] == y[..2][0] && y[1] == y[..2][1];
    }
  }

  /**
    Appending text after at least five characters does not change whether a year starts
    them, unless the text continues a year that ends exactly at the fifth character.
   */
  lemma SpaceYearAtExtended(a: string, b: string)
    requires |a| >= 5 && (|b| == 0 || |a| > 5 || !IsWordChar(b[0]))
    ensures SpaceYearAt(a + b) <==> SpaceYearAt(a)
  {
    var s := a + b;
    assert s[1..5] == a[1..5];
    if |a| > 5 {
      assert s[5] == a[5];
    } else if |b| > 0 {
      assert s[5] == b[0];
    } else {
      assert s == a;
    }
  }

  /** A character that is not whitespace is kept, and the stripping goes on after it. */
  lemma KeptBeforeSpaceYears(s: string)
    requires |s| >= 5 && !IsSpace(s[0])
    ensures StripSpaceYears(s) == [s[0]] + StripSpaceYears(s[1..])
  {
  }

  /** A text without whitespace passes through and the stripping goes on after it. */
  lemma {:induction false} SpaceYearsAfterPlain(a: string, b: string)
    requires forall i :: 0 <= i < |a| ==> !IsSpace(a[i])
    ensures StripSpaceYears(a + b) == a + StripSpaceYears(b)
    decreases |a|
  {
    if |a| > 0 {
      var s := a + b;
      if |s| < 5 {
        assert StripSpaceYears(b) == b;
      } else {
        assert s[0] == a[0] && s[1..] == a[1..] + b;
        KeptBeforeSpaceYears(s);
        SpaceYearsAfterPlain(a[1..], b);
        assert a == [a[0]] + a[1..];
      }
    } else {
      assert a + b == b;
    }
  }

  /** "Title (1999)" is searched as "Title". */
  lemma ParenYearRemoved(title: string, year: string)
    requires IsYear(year) && |title| > 0
    requires forall i :: 0 <= i < |title| ==> !IsSpace(title[i]) && title[i] != '('
    ensures StripYears(title + " (" + year + ")") == title
  {
    var paren := " (" + year + ")";
    assert title + " (" + year + ")" == title + paren;
    assert '(' !in title;
    ParenYearsAfterPlain(title, paren);
    ParenYearAlone(year);
    assert RStrip(title + " ") == title by {
      assert (title + " ")[..|title|] == title;
    }
    SpaceYearsAfterPlain(title, "");
    assert title + "" == title;
  }

  /** "Title 1999" is searched as "Title". */
  lemma SpaceYearRemoved(title: string, year: string)
    requires IsYear(year) && |title| > 0
    requires forall i :: 0 <= i < |title| ==> !IsSpace(title[i]) && title[i] != '('
    ensures StripYears(title + " " + year) == title
  {
    var spaced := " " + year;
    assert title + " " + year == title + spaced;
    assert !IsSpace(title[|title| - 1]);
    YearDigits(year);
    assert '(' !in title + spaced by {
      forall i | 0 <= i < |title + spaced| ensures (title + spaced)[i] != '(' {
        if i < |title| {
          assert (title + spaced)[i] == title[i];
        } else if i > |title| {
          assert (title + spaced)[i] == year[i - |title| - 1];
        }
      }
    }
    NoParenUnchanged(title + spaced);
    assert (title + spaced)[|title + spaced| - 1] == year[3];
    SpaceYearsAfterPlain(title, spaced);
    SpaceYearAlone(year);
    assert title + "" == title;
  }

  lemma ParenYearAlone(year: string)
    requires IsYear(year)
    ensures StripParenYears(" (" + year + ")") == " "
  {
    var inner := "(" + year + ")";
    assert inner[1..5] == year;
    assert ParenYearAt(inner);
    assert inner[6..] == "";
    var paren := " (" + year + ")";
    assert paren[0] == ' ';
    assert paren[1..] == inner;
    assert !ParenYearAt(paren);
  }

  lemma SpaceYearAlone(year: string)
    requires IsYear(year)
    ensures StripSpaceYears(" " + year) == ""
  {
    var spaced := " " + year;
    assert spaced[1..5] == year;
    assert SpaceYearAt(spaced);
    assert spaced[5..] == "";
  }

  /** A name ending in ", The" is always listed, even a hidden one, since it is turned into "The ...". */
  lemma ArticleNamesListed(name: string)
    ensures Listed(name + ", The")
  {
    ArticleSurvivesYears(name);
    var r := CleanName(name + ", The");
    assert StartsWith(r, "The ");
    assert r[0] == 'T';
  }

  /** Stripping the years keeps the ", The" at the end of a name. */
  lemma ArticleSurvivesYears(name: string)
    ensures EndsWith(StripYears(name + ", The"), ", The")
  {
    var suffix := ", The";
    assert ')' !in suffix && NoDigits(suffix);
    PlainSuffixSurvivesYears(name, suffix);
    var q := StripSpaceYears(StripParenYears(name));
    assert (q + suffix)[|q|..] == suffix;
  }

  /** A suffix with no ")", no digit, no word character first and no whitespace last passes through the year stripping. */
  lemma PlainSuffixSurvivesYears(name: string, suffix: string)
    requires ')' !in suffix && NoDigits(suffix)
    requires |suffix| > 0 && !IsWordChar(suffix[0]) && !IsSpace(suffix[|suffix| - 1])
    ensures StripYears(name + suffix) == StripSpaceYears(StripParenYears(name)) + suffix
  {
    var p := StripParenYears(name);
    ParenYearsBeforePlain(name, suffix);
    assert RStrip(p + suffix) == p + suffix by {
      assert (p + suffix)[|p + suffix| - 1] == suffix[|suffix| - 1];
    }
    var q := StripSpaceYears(p);
    SpaceYearsBeforePlain(p, suffix);
    assert RStrip(q + suffix) == q + suffix by {
      assert (q + suffix)[|q + suffix| - 1] == suffix[|suffix| - 1];
    }
  }

  /** A name starting with "." that is not turned around stays hidden. */
  lemma HiddenNamesSkipped(name: string)
    requires StartsWith(name, ".")
    requires !EndsWith(StripYears(name), ", The") && !EndsWith(StripYears(name), ", A")
    ensures !Listed(name)
  {
    assert name[0] == '.';
    var p := StripParenYears(name);
    assert |p| > 0 && p[0] == '.' by {
      if |name| >= 6 {
        assert !ParenYearAt(name);
      }
    }
    var p' := RStrip(p);
    assert |p'| > 0 && p'[0] == '.';
    var q := StripSpaceYears(p');
    assert |q| > 0 && q[0] == '.' by {
      if |p'| >= 5 {
        assert !SpaceYearAt(p');
      }
    }
    var q' := RStrip(q);
    assert |q'| > 0 && q'[0] == '.';
    assert StartsWith(CleanName(name), ".") by {
      assert CleanName(name) == q';
      assert CleanName(name)[..1] == ".";
    }
  }

  // ---------------------------------------------------------------- list_series_directories

  datatype SeriesDirectory = SeriesDirectory(id: nat, directory: string, rootDir: int)

  /**
    `list_series_directories(root_dir)`: one entry per listed directory, in listing order,
    whose id is its position in the whole listing and whose directory is the raw name.
    A missing root folder or an unreadable folder yields the empty list.
   */
  method ListSeriesDirectories(rootDir: int, rootPath: Option<string>, listing: string -> Option<seq<string>>)
    returns (r: seq<SeriesDirectory>)
    ensures rootPath.None? || listing(rootPath.value).None? ==> r == []
    ensures forall j :: 0 <= j < |r| ==> r[j].rootDir == rootDir
    ensures rootPath.Some? && listing(rootPath.value).Some? ==>
      var names := listing(rootPath.value).value;
      && (forall j :: 0 <= j < |r| ==>
            r[j].id < |names| && r[j].directory == names[r[j].id] && Listed(names[r[j].id]))
      && (forall j, k :: 0 <= j < k < |r| ==> r[j].id < r[k].id)
      && (forall i :: 0 <= i < |names| && Listed(names[i]) ==> exists j :: 0 <= j < |r| && r[j].id == i)
  {
    r := [];
    if rootPath.None? {
      return;
    }
    var entries := listing(rootPath.value);
    if entries.None? {
      return;
    }
    r := EnumerateKept(entries.value, rootDir, Listed);
  }

  /** What the `enumerate` loop has built after the first `i` names: their accepted entries, in order. */
  ghost predicate EnumeratedUpTo(r: seq<SeriesDirectory>, names: seq<string>, rootDir: int, keep: string -> bool, i: nat)
    requires i <= |names|
  {
    && (forall j :: 0 <= j < |r| ==>
          r[j].rootDir == rootDir && r[j].id < i && r[j].directory == names[r[j].id] && keep(names[r[j].id]))
    && (forall j, k :: 0 <= j < k < |r| ==> r[j].id < r[k].id)
    && (forall n :: 0 <= n < i && keep(names[n]) ==> exists j :: 0 <= j < |r| && r[j].id == n)
  }

  /** An accepted name `i` is appended with its position as id. */
  lemma EnumerateAppends(r: seq<SeriesDirectory>, names: seq<string>, rootDir: int, keep: string -> bool, i: nat)
    requires i < |names| && keep(names[i]) && EnumeratedUpTo(r, names, rootDir, keep, i)
    ensures EnumeratedUpTo(r + [SeriesDirectory(i, names[i], rootDir)], names, rootDir, keep, i + 1)
  {
    var r' := r + [SeriesDirectory(i, names[i], rootDir)];
    forall n | 0 <= n < i + 1 && keep(names[n])
      ensures exists j :: 0 <= j < |r'| && r'[j].id == n
    {
      if n == i {
        assert r'[|r'| - 1].id == n;
      } else {
        var j :| 0 <= j < |r| && r[j].id == n;
        assert r'[j].id == n;
      }
    }
  }

  /** A name `keep` refuses leaves the entries as they are. */
  lemma EnumerateSkips(r: seq<SeriesDirectory>, names: seq<string>, rootDir: int, keep: string -> bool, i: nat)
    requires i < |names| && !keep(names[i]) && EnumeratedUpTo(r, names, rootDir, keep, i)
    ensures EnumeratedUpTo(r, names, rootDir, keep, i + 1)
  {
  }

  /** The `enumerate` loop: the entries of the names `keep` accepts, with their positions as ids. */
  method EnumerateKept(names: seq<string>, rootDir: int, keep: string -> bool) returns (r: seq<SeriesDirectory>)
    ensures forall j :: 0 <= j < |r| ==>
      r[j].rootDir == rootDir && r[j].id < |names| && r[j].directory == names[r[j].id] && keep(names[r[j].id])
    ensures forall j, k :: 0 <= j < k < |r| ==> r[j].id < r[k].id
    ensures forall n :: 0 <= n < |names| && keep(names[n]) ==> exists j :: 0 <= j < |r| && r[j].id == n
  {
    r := [];
    var i := 0;
    while i < |names|
      invariant 0 <= i <= |names|
      invariant EnumeratedUpTo(r, names, rootDir, keep, i)
    {
      if keep(names[i]) {
        EnumerateAppends(r, names, rootDir, keep, i);
        r := r + [SeriesDirectory(i, names[i], rootDir)];
      } else {
        EnumerateSkips(r, names, rootDir, keep, i);
      }
      i := i + 1;
    }
  }

  // ---------------------------------------------------------------- get_series_match

  /** `first_air_date` of a search result: absent, JSON null, or a date text. */
  datatype AirDate = Absent | Null | Date(text: string)

  datatype TvResult = TvResult(originalName: string, firstAirDate: AirDate, id: int)
  datatype TvSearch = TvSearch(totalResults: int, results: seq<TvResult>)
  datatype SeriesMatch = SeriesMatch(title: string, year: string, tmdbId: int)

  /** Slicing `None[:4]` raises. */
  datatype IndexerError = TypeError | DoesNotExist

  /** `year or 'n/a'` */
  function MatchYear(date: AirDate): (y: string)
    requires !date.Null?
    ensures 0 < |y| <= 4
    ensures date.Date? && Take(date.text, 4) != "" ==> y == Take(date.text, 4)
    ensures !(date.Date? && Take(date.text, 4) != "") ==> y == "n/a"
  {
    if date.Date? && Take(date.text, 4) != "" then Take(date.text, 4) else "n/a"
  }

  /**
    `get_series_match(directory)`: the search runs on the name with its years stripped; a
    failing search returns None; no results give []; otherwise one match per result in
    result order. A null air date makes the slice raise.
   */
  method GetSeriesMatch(directory: string, search: string -> Option<TvSearch>)
    returns (r: Result<Option<seq<SeriesMatch>>, IndexerError>)
    ensures search(StripYears(directory)).None? ==> r == Ok(None)
    ensures search(StripYears(directory)).Some? ==>
      var found := search(StripYears(directory)).value;
      && (found.totalResults == 0 ==> r == Ok(Some([])))
      && (found.totalResults != 0 ==>
            (r.Err? <==> exists i :: 0 <= i < |found.results| && found.results[i].firstAirDate.Null?))
      && (r.Ok? && found.totalResults != 0 ==>
            r.value.Some? && |r.value.value| == |found.results| &&
            forall i :: 0 <= i < |found.results| ==>
              r.value.value[i] == SeriesMatch(found.results[i].originalName, MatchYear(found.results[i].firstAirDate),
                                              found.results[i].id))
  {
    var query := StripYears(directory);
    var response := search(query);
    if response.None? {
      return Ok(None);
    }
    var found := response.value;
    var matches: seq<SeriesMatch> := [];
    if found.totalResults != 0 {
      var i := 0;
      while i < |found.results|
        invariant 0 <= i <= |found.results|
        invariant |matches| == i
        invariant forall n :: 0 <= n < i ==> !found.results[n].firstAirDate.Null?
        invariant forall n :: 0 <= n < i ==>
          matches[n] == SeriesMatch(found.results[n].originalName, MatchYear(found.results[n].firstAirDate),
                                    found.results[n].id)
      {
        var item := found.results[i];
        if item.firstAirDate.Null? {
          return Err(TypeError);
        }
        matches := matches + [SeriesMatch(item.originalName, MatchYear(item.firstAirDate), item.id)];
        i := i + 1;
      }
    }
    return Ok(Some(matches));
  }

  // ---------------------------------------------------------------- get_series_metadata

  /** What the three TMDB calls return for a series; None when one of them raises. */
  datatype TvInfo = TvInfo(
    originalName: string,
    firstAirDate: Option<string>,
    overview: string,
    posterPath: Option<string>,
    backdropPath: Option<string>,
    alternativeTitles: seq<string>,
    imdbId: Option<string>)

  datatype SeriesMetadata = SeriesMetadata(
    rootDir: int,
    title: string,
    path: string,
    sortTitle: string,
    year: Option<string>,
    tmdbId: int,
    overview: string,
    poster: Option<string>,
    fanart: Option<string>,
    alternateTitles: seq<string>,
    imdbId: Option<string>)

  /** The function returns None (no id), `{}` (a TMDB call raised), or the record. */
  datatype MetadataOutcome = NoId | Empty | Found(metadata: SeriesMetadata)

  const IMAGES_URL := "https://image.tmdb.org/t/p/w500"

  /** `os.path.join(root, name)` on POSIX. */
  function PathJoin(root: string, name: string): (r: string)
    ensures EndsWith(r, name)
    ensures StartsWith(name, "/") ==> r == name
  {
    if StartsWith(name, "/") then name
    else
      var prefix := if root == "" || EndsWith(root, "/") then root else root + "/";
      assert (prefix + name)[|prefix + name| - |name|..] == name;
      prefix + name
  }

  /** A text field used only when truthy. */
  function Truthy(v: Option<string>): bool {
    v.Some? && v.value != ""
  }

  /**
    `get_series_metadata(tmdbid, root_dir_id, dir_name)`: the root folder's row is read
    first and a missing one raises; a falsy id returns None; a failing TMDB call returns
    the empty record.
   */
  function GetSeriesMetadata(tmdbId: Option<int>, rootDirId: int, dirName: string, rootPath: Option<string>,
                             tmdb: int -> Option<TvInfo>): (r: Result<MetadataOutcome, IndexerError>)
    ensures rootPath.None? <==> r == Err(DoesNotExist)
    ensures rootPath.Some? && (tmdbId.None? || tmdbId.value == 0) ==> r == Ok(NoId)
    ensures r.Ok? && r.value.Empty? <==> rootPath.Some? && tmdbId.Some? && tmdbId.value != 0 && tmdb(tmdbId.value).None?
    ensures r.Ok? && r.value.Found? ==>
      var m := r.value.metadata;
      var info := tmdb(tmdbId.value).value;
      && tmdbId.Some? && m.tmdbId == tmdbId.value && m.rootDir == rootDirId
      && m.title == info.originalName && m.sortTitle == NormalizeTitle(info.originalName)
      && m.path == PathJoin(rootPath.value, dirName) && EndsWith(m.path, dirName)
      && m.overview == info.overview && m.imdbId == info.imdbId
      && (m.year.None? <==> !Truthy(info.firstAirDate))
      && (m.year.Some? ==> m.year.value == Take(info.firstAirDate.value, 4))
      && (m.poster.None? <==> !Truthy(info.posterPath))
      && (m.poster.Some? ==> m.poster.value == IMAGES_URL + info.posterPath.value)
      && (m.fanart.None? <==> !Truthy(info.backdropPath))
      && (m.fanart.Some? ==> m.fanart.value == IMAGES_URL + info.backdropPath.value)
      && m.alternateTitles == info.alternativeTitles
  {
    if rootPath.None? then Err(DoesNotExist)
    else if tmdbId.None? || tmdbId.value == 0 then Ok(NoId)
    else match tmdb(tmdbId.value)
      case None => Ok(Empty)
      case Some(info) =>
        Ok(Found(SeriesMetadata(
          rootDirId,
          info.originalName,
          PathJoin(rootPath.value, dirName),
          NormalizeTitle(info.originalName),
          if Truthy(info.firstAirDate) then Some(Take(info.firstAirDate.value, 4)) else None,
          tmdbId.value,
          info.overview,
          if Truthy(info.posterPath) then Some(IMAGES_URL + info.posterPath.value) else None,
          if Truthy(info.backdropPath) then Some(IMAGES_URL + info.backdropPath.value) else None,
          info.alternativeTitles,
          info.imdbId)))
  }

  /** A found series' sort title is lower case, single-spaced and trimmed. */
  lemma SortTitleNormalized(tmdbId: Option<int>, rootDirId: int, dirName: string, rootPath: Option<string>,
                            tmdb: int -> Option<TvInfo>)
    requires GetSeriesMetadata(tmdbId, rootDirId, dirName, rootPath, tmdb).Ok?
    requires GetSeriesMetadata(tmdbId, rootDirId, dirName, rootPath, tmdb).value.Found?
    ensures var s := GetSeriesMetadata(tmdbId, rootDirId, dirName, rootPath, tmdb).value.metadata.sortTitle;
      LowerWordsAndSpaces(s) && SingleSpaced(s)
  {
    NormalizeTitleShape(tmdb(tmdbId.value).value.originalName);
  }
}
