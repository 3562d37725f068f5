/**
  The show-id index of `Addic7edProvider._get_show_ids` and the lookup of
  `Addic7edProvider.get_show_id`, as values: building the title -> id dictionary from
  the `qsShow` drop-down and looking a key variant up by country, year and bare key.
 */
module Addic7edShowIndex {
  import opened Wrappers
  import opened Text
  import opened Addic7edCommon

  /** A show index: cleaned title -> show id. Ids of 0 are never registered. */
  type ShowIndex = m: map<string, int> | forall k :: k in m ==> m[k] != 0
    witness map[]

  /**
    A child of the `qsShow` element. Text nodes have no `attrs`; an `<option>` carries
    its `value` attribute (None when absent) and its text.
   */
  datatype ShowOption = TextNode | OptionTag(value: Option<string>, title: string)

  // ---------------------------------------------------------------- series_year_re

  /** The character class `[ \w\'.:(),*&!?-]` of `series_year_re`. */
  predicate IsSeriesChar(c: char) {
    c == ' ' || IsWordChar(c) || c in "'.:(),*&!?-"
  }

  /**
    `series_year_re.match(s)` when it matches WITH its year group: the lazy series group
    stops just before a ` (dddd)` that ends the text (or precedes its final line break,
    where `$` also matches). Returns the series group.
   */
  function SeriesWithoutYear(s: string): (r: Option<string>)
    ensures r.Some? ==> |r.value| >= 1
    ensures r.Some? ==> |s| == |r.value| + 7 || (|s| == |r.value| + 8 && s[|s| - 1] == '\n')
    ensures r.Some? ==> s[..|r.value|] == r.value
  {
    var t := DropFinalNewline(s);
    if |t| >= 8 && t[|t| - 7..|t| - 5] == " (" && AllDigits(t[|t| - 5..|t| - 1]) && t[|t| - 1] == ')'
       && AllSeriesChars(t[..|t| - 7])
    then
      assert t[..|t| - 7] == s[..|t| - 7];
      Some(t[..|t| - 7])
    else None
  }

  predicate AllSeriesChars(s: string) {
    forall i :: 0 <= i < |s| ==> IsSeriesChar(s[i])
  }

  /** The text `$` sees as its end: without a final line break. */
  function DropFinalNewline(s: string): (t: string)
    ensures t == s || (|s| > 0 && s[|s| - 1] == '\n' && t == s[..|s| - 1])
  {
    if |s| > 0 && s[|s| - 1] == '\n' then s[..|s| - 1] else s
  }

  /** "Name (YYYY)" yields "Name"; a title whose name part has a character outside the class yields nothing. */
  lemma SeriesWithoutYearExamples()
    ensures SeriesWithoutYear("doctor who (2005)") == Some("doctor who")
    ensures SeriesWithoutYear("doctor who") == None
    ensures SeriesWithoutYear("doctor/who (2005)") == None
  {
    var s := "doctor who (2005)";
    assert DropFinalNewline(s) == s;
    assert s[10..12] == " (" && s[12..16] == "2005" && AllDigits("2005");
    assert s[16] == ')' && s[..10] == "doctor who";
    assert AllSeriesChars(s[..10]);
    var bad := "doctor/who (2005)";
    assert DropFinalNewline(bad) == bad;
    assert bad[..10][6] == '/' && '/' !in "'.:(),*&!?-";
    assert !AllSeriesChars(bad[..10]);
  }

  // ---------------------------------------------------------------- building the index

  /** The id an option contributes: its value parsed as an int, when that is not 0. */
  function KeptId(o: ShowOption): (r: Option<int>)
    ensures r.Some? ==> r.value != 0 && o.OptionTag? && o.value.Some?
  {
    match o
    case TextNode => None
    case OptionTag(value, _) =>
      if value.None? then None
      else match ParseInt(value.value)
        case None => None
        case Some(id) => if id == 0 then None else Some(id)
  }

  /**
    One iteration of the loop over `shows`: text nodes, non-integer values (`ValueError`,
    `continue`) and id 0 leave the index as it is; an option without `value` raises
    `KeyError`; otherwise the cleaned title is (re)assigned and, for "Name (YYYY)",
    "Name" is added when it is not already a key.
   */
  function AddOption(ids: ShowIndex, o: ShowOption, c: Collaborators): (r: Result<ShowIndex, ProviderError>)
    ensures r.Err? <==> o.OptionTag? && o.value.None?
    ensures r.Ok? && KeptId(o).None? ==> r.value == ids
  {
    match o
    case TextNode => Ok(ids)
    case OptionTag(value, title) =>
      if value.None? then Err(MalformedPage)
      else if KeptId(o).None? then Ok(ids)
      else
        var clean := c.sanitizeShow(title);
        var id := KeptId(o).value;
        var withClean := Assign(ids, clean, id);
        var alias := SeriesWithoutYear(clean);
        if alias.Some? && alias.value !in withClean then Ok(Assign(withClean, alias.value, id))
        else Ok(withClean)
  }

  /**
    A kept option assigns its id to its cleaned title, adds at most the year-less alias,
    and leaves every other title's id unchanged.
   */
  lemma AddOptionEffect(ids: ShowIndex, o: ShowOption, c: Collaborators)
    requires KeptId(o).Some?
    ensures AddOption(ids, o, c).Ok?
    ensures var r := AddOption(ids, o, c).value; var clean := c.sanitizeShow(o.title);
      && clean in r && r[clean] == KeptId(o).value
      && r.Keys == ids.Keys + {clean} +
           (if SeriesWithoutYear(clean).Some? then {SeriesWithoutYear(clean).value} else {})
      && (forall k :: k in ids && k != clean ==> r[k] == ids[k])
  {
  }

  /** `show_ids[key] = show_id` */
  function Assign(ids: ShowIndex, key: string, id: int): (r: ShowIndex)
    requires id != 0
    ensures r.Keys == ids.Keys + {key} && r[key] == id
    ensures forall k :: k in ids && k != key ==> r[k] == ids[k]
  {
    ids[key := id]
  }

  /** The index after the first `|opts|` options, failing at the first malformed one. */
  function IndexOf(opts: seq<ShowOption>, c: Collaborators): Result<ShowIndex, ProviderError>
  {
    if |opts| == 0 then Ok(map[])
    else
      match IndexOf(opts[..|opts| - 1], c)
      case Err(e) => Err(e)
      case Ok(ids) => AddOption(ids, opts[|opts| - 1], c)
  }

  /** What `_get_show_ids` returns for a listing once fetched: the index, or the "No show IDs" exception. */
  function ShowIdsOf(opts: seq<ShowOption>, c: Collaborators): Result<ShowIndex, ProviderError>
  {
    match IndexOf(opts, c)
    case Err(e) => Err(e)
    case Ok(ids) => if |ids| == 0 then Err(NoShowIds) else Ok(ids)
  }

  /** The index fails exactly when some option lacks a `value` attribute. */
  lemma {:induction false} IndexFailsOnMissingValue(opts: seq<ShowOption>, c: Collaborators)
    ensures IndexOf(opts, c).Err? <==> exists i :: 0 <= i < |opts| && opts[i].OptionTag? && opts[i].value.None?
  {
    if |opts| > 0 {
      var init := opts[..|opts| - 1];
      IndexFailsOnMissingValue(init, c);
      if IndexOf(init, c).Err? {
        var i :| 0 <= i < |init| && init[i].OptionTag? && init[i].value.None?;
        assert opts[i] == init[i];
      } else {
        forall i | 0 <= i < |opts| - 1 ensures !(opts[i].OptionTag? && opts[i].value.None?) {
          assert opts[i] == init[i];
        }
      }
    }
  }

  /** Keys only accumulate: a later option never removes an earlier title. */
  lemma {:induction false} IndexKeysGrow(opts: seq<ShowOption>, n: nat, c: Collaborators)
    requires n <= |opts|
    requires IndexOf(opts, c).Ok?
    ensures IndexOf(opts[..n], c).Ok?
    ensures IndexOf(opts[..n], c).value.Keys <= IndexOf(opts, c).value.Keys
    decreases |opts|
  {
    if n < |opts| {
      var init := opts[..|opts| - 1];
      assert opts[..n] == init[..n];
      IndexKeysGrow(init, n, c);
    } else {
      assert opts[..n] == opts;
    }
  }

  /**
    A repeated cleaned title keeps the id of its LAST occurrence: a later option with the
    same cleaned title overwrites, a later "Name (YYYY)" alias never does.
   */
  lemma {:induction false} LastTitleWins(opts: seq<ShowOption>, i: nat, c: Collaborators)
    requires i < |opts| && KeptId(opts[i]).Some?
    requires IndexOf(opts, c).Ok?
    requires forall j :: i < j < |opts| && KeptId(opts[j]).Some? ==>
               c.sanitizeShow(opts[j].title) != c.sanitizeShow(opts[i].title)
    ensures c.sanitizeShow(opts[i].title) in IndexOf(opts, c).value
    ensures IndexOf(opts, c).value[c.sanitizeShow(opts[i].title)] == KeptId(opts[i]).value
    decreases |opts|
  {
    var init := opts[..|opts| - 1];
    var last := opts[|opts| - 1];
    var clean := c.sanitizeShow(opts[i].title);
    if i == |opts| - 1 {
      AddOptionEffect(IndexOf(init, c).value, last, c);
    } else {
      assert init[i] == opts[i];
      forall j | i < j < |init| && KeptId(init[j]).Some?
        ensures c.sanitizeShow(init[j].title) != clean
      {
        assert init[j] == opts[j];
      }
      LastTitleWins(init, i, c);
      var before := IndexOf(init, c).value;
      if KeptId(last).Some? {
        assert c.sanitizeShow(last.title) != clean;
        AddOptionEffect(before, last, c);
      }
    }
  }

  /** "Name (YYYY)" always leaves a "Name" key behind, holding the id of the first option that registered it. */
  lemma YearAliasRegistered(ids: ShowIndex, o: ShowOption, c: Collaborators)
    requires KeptId(o).Some?
    requires SeriesWithoutYear(c.sanitizeShow(o.title)).Some?
    ensures AddOption(ids, o, c).Ok?
    ensures var name := SeriesWithoutYear(c.sanitizeShow(o.title)).value;
      name in AddOption(ids, o, c).value &&
      AddOption(ids, o, c).value[name] == (if name in ids then ids[name] else KeptId(o).value)
  {
  }

  /** The "No show IDs found" exception is raised exactly when no option contributes an id. */
  lemma {:induction false} EmptyIndexIffNothingKept(opts: seq<ShowOption>, c: Collaborators)
    requires IndexOf(opts, c).Ok?
    ensures |IndexOf(opts, c).value| == 0 <==> forall i :: 0 <= i < |opts| ==> KeptId(opts[i]).None?
  {
    if |opts| > 0 {
      var init := opts[..|opts| - 1];
      var last := opts[|opts| - 1];
      EmptyIndexIffNothingKept(init, c);
      var before := IndexOf(init, c).value;
      if KeptId(last).Some? {
        AddOptionEffect(before, last, c);
        assert c.sanitizeShow(last.title) in IndexOf(opts, c).value;
      } else {
        assert IndexOf(opts, c).value == before;
        forall i | 0 <= i < |opts| - 1 ensures opts[i] == init[i] { }
      }
    }
  }

  /** Builds the index as `_get_show_ids` does, by assigning into a dictionary in a loop. */
  method BuildShowIds(opts: seq<ShowOption>, c: Collaborators) returns (r: Result<ShowIndex, ProviderError>)
    ensures r == ShowIdsOf(opts, c)
    ensures r.Ok? ==> |r.value| > 0
  {
    var showIds: ShowIndex := map[];
    var i := 0;
    while i < |opts|
      invariant 0 <= i <= |opts|
      invariant IndexOf(opts[..i], c) == Ok(showIds)
    {
      assert opts[..i + 1][..i] == opts[..i];
      var step := AddOption(showIds, opts[i], c);
      if step.Err? {
        assert IndexOf(opts[..i + 1], c).Err?;
        IndexPrefixError(opts, i + 1, c);
        return Err(step.error);
      }
      showIds := step.value;
      i := i + 1;
    }
    assert opts[..i] == opts;
    if |showIds| == 0 {
      return Err(NoShowIds);
    }
    return Ok(showIds);
  }

  /** Once a prefix fails, the whole listing fails with the same error. */
  lemma {:induction false} IndexPrefixError(opts: seq<ShowOption>, n: nat, c: Collaborators)
    requires n <= |opts|
    requires IndexOf(opts[..n], c).Err?
    ensures IndexOf(opts, c) == IndexOf(opts[..n], c)
    decreases |opts| - n
  {
    if n < |opts| {
      assert opts[..n + 1][..n] == opts[..n];
      IndexPrefixError(opts, n + 1, c);
    } else {
      assert opts[..n] == opts;
    }
  }

  // ---------------------------------------------------------------- looking a title up

  /** The three spellings `get_show_id` tries: sanitized, without periods, with `&` spelled `and`. */
  function KeyVariants(series: string, c: Collaborators): (vs: set<string>)
    ensures 1 <= |vs| <= 3
  {
    {Lower(c.sanitize(series)), Lower(c.sanitize(RemoveAll(series, "."))),
     Lower(c.sanitize(SubstChar(series, '&', "and")))}
  }

  function Get(ids: ShowIndex, k: string): (r: Option<int>)
    ensures r.Some? <==> k in ids
    ensures r.Some? ==> r.value == ids[k] && r.value != 0
  {
    if k in ids then Some(ids[k]) else None
  }

  /** `if country_code:` / `if year:` — an empty country code and year 0 count as absent. */
  predicate HasCountry(country: Option<string>) { country.Some? && country.value != "" }
  predicate HasYear(year: Option<int>) { year.Some? && year.value != 0 }

  /** The three tiers tried for one key variant: "<key> <country>", then "<key> <year>", then "<key>". */
  function TierLookup(ids: ShowIndex, key: string, year: Option<int>, country: Option<string>): (r: Option<int>)
    ensures HasCountry(country) && key + " " + Lower(country.value) in ids ==>
              r == Some(ids[key + " " + Lower(country.value)])
    ensures !(HasCountry(country) && key + " " + Lower(country.value) in ids) &&
            HasYear(year) && key + " " + IntToString(year.value) in ids ==>
              r == Some(ids[key + " " + IntToString(year.value)])
    ensures r.None? <==>
              (!HasCountry(country) || key + " " + Lower(country.value) !in ids) &&
              (!HasYear(year) || key + " " + IntToString(year.value) !in ids) &&
              key !in ids
    ensures r.Some? ==> r.value != 0 && r.value in ids.Values
  {
    var byCountry := if HasCountry(country) then Get(ids, key + " " + Lower(country.value)) else None;
    if byCountry.Some? then byCountry
    else
      var byYear := if HasYear(year) then Get(ids, key + " " + IntToString(year.value)) else None;
      if byYear.Some? then byYear else Get(ids, key)
  }

  /** `not ignore_cache and last_fetch != NO_VALUE and last_fetch + 1 day < now` */
  predicate RefreshAllowed(ignoreCache: bool, lastFetch: Option<int>, now: int) {
    !ignoreCache && lastFetch.Some? && lastFetch.value + DAY < now
  }

  const DAY := 24 * 60 * 60

  /** What the loop over key variants ends in, for one fixed iteration order. */
  datatype Scan = Found(id: int) | Missing | Refetch

  /**
    The loop of `get_show_id` over the variants in the order `order`: the first variant with
    a hit wins; a variant that misses all three tiers triggers the refetch when it is allowed.
   */
  function ScanVariants(ids: ShowIndex, order: seq<string>, year: Option<int>, country: Option<string>,
                        refresh: bool): Scan
  {
    if |order| == 0 then Missing
    else match TierLookup(ids, order[0], year, country)
      case Some(id) => Found(id)
      case None => if refresh then Refetch else ScanVariants(ids, order[1..], year, country, refresh)
  }

  /**
    The scan's result is the first variant's hit, never a later one; `Refetch` needs the
    refresh to be allowed; without it a miss means every variant missed.
   */
  lemma {:induction false} ScanFirstHitWins(ids: ShowIndex, order: seq<string>, year: Option<int>,
                                            country: Option<string>, refresh: bool)
    ensures ScanVariants(ids, order, year, country, refresh).Refetch? ==> refresh
    ensures ScanVariants(ids, order, year, country, refresh).Found? <==>
      exists i :: 0 <= i < |order| && TierLookup(ids, order[i], year, country).Some? &&
        (refresh ==> i == 0)
    ensures ScanVariants(ids, order, year, country, refresh).Found? ==>
      exists i :: 0 <= i < |order| &&
        TierLookup(ids, order[i], year, country) == Some(ScanVariants(ids, order, year, country, refresh).id) &&
        forall j :: 0 <= j < i ==> TierLookup(ids, order[j], year, country).None?
    ensures !refresh ==>
      (ScanVariants(ids, order, year, country, refresh).Missing? <==>
        forall i :: 0 <= i < |order| ==> TierLookup(ids, order[i], year, country).None?)
  {
    if |order| > 0 && TierLookup(ids, order[0], year, country).None? && !refresh {
      ScanFirstHitWins(ids, order[1..], year, country, refresh);
      var r := ScanVariants(ids, order, year, country, refresh);
      assert r == ScanVariants(ids, order[1..], year, country, refresh);
      if r.Found? {
        var i :| 0 <= i < |order[1..]| &&
          TierLookup(ids, order[1..][i], year, country) == Some(r.id) &&
          forall j :: 0 <= j < i ==> TierLookup(ids, order[1..][j], year, country).None?;
        assert TierLookup(ids, order[i + 1], year, country) == Some(r.id);
        forall j | 0 <= j < i + 1 ensures TierLookup(ids, order[j], year, country).None? {
          if j > 0 { assert order[j] == order[1..][j - 1]; }
        }
      }
      forall i | 0 <= i < |order| && TierLookup(ids, order[i], year, country).Some?
        ensures r.Found?
      {
        assert i > 0 && order[i] == order[1..][i - 1];
      }
      if r.Missing? {
        forall i | 0 <= i < |order| ensures TierLookup(ids, order[i], year, country).None? {
          if i > 0 { assert order[i] == order[1..][i - 1]; }
        }
      }
    } else if |order| > 0 && TierLookup(ids, order[0], year, country).Some? {
      assert TierLookup(ids, order[0], year, country).Some?;
    }
  }

  /**
    Scanning `a` then `b` is scanning `a`, unless `a` ends in nothing, in which case it is
    scanning `b`: the loop's state after a prefix decides the rest.
   */
  lemma {:induction false} ScanAppend(ids: ShowIndex, a: seq<string>, b: seq<string>, year: Option<int>,
                                      country: Option<string>, refresh: bool)
    ensures ScanVariants(ids, a + b, year, country, refresh) ==
      if ScanVariants(ids, a, year, country, refresh).Missing? then ScanVariants(ids, b, year, country, refresh)
      else ScanVariants(ids, a, year, country, refresh)
    decreases |a|
  {
    if |a| == 0 {
      assert a + b == b;
    } else {
      assert (a + b)[0] == a[0] && (a + b)[1..] == a[1..] + b;
      ScanAppend(ids, a[1..], b, year, country, refresh);
    }
  }

  /** `order` lists every element of `s` exactly once: one iteration order of the set. */
  predicate Enumerates(order: seq<string>, s: set<string>) {
    |order| == |s| && (forall v :: v in order ==> v in s) && (forall v :: v in s ==> v in order)
  }

  /** Some iteration order of a set. */
  ghost function SetOrder(s: set<string>): (order: seq<string>)
    ensures Enumerates(order, s)
    decreases |s|
  {
    if s == {} then []
    else
      var v :| v in s;
      [v] + SetOrder(s - {v})
  }

  /** The `show_id` a finished scan hands back: None when it found nothing. */
  function FoundId(scan: Scan): (r: Option<int>)
    ensures r.Some? <==> scan.Found?
  {
    if scan.Found? then Some(scan.id) else None
  }

  /** Some key variant of `series` finds `id` in one of its tiers. */
  predicate ShowIdHit(ids: ShowIndex, series: string, year: Option<int>, country: Option<string>, c: Collaborators,
                      id: int) {
    exists v :: v in KeyVariants(series, c) && TierLookup(ids, v, year, country) == Some(id)
  }

  /** Every key variant of `series` misses all three tiers. */
  predicate NoShowId(ids: ShowIndex, series: string, year: Option<int>, country: Option<string>, c: Collaborators) {
    forall v :: v in KeyVariants(series, c) ==> TierLookup(ids, v, year, country).None?
  }

  /** Some key variant of `series` misses all three tiers: what a refetch of the index needs. */
  predicate VariantMissed(ids: ShowIndex, series: string, year: Option<int>, country: Option<string>,
                          c: Collaborators) {
    exists v :: v in KeyVariants(series, c) && TierLookup(ids, v, year, country).None?
  }

  /**
    The scan over an enumeration of a title's key variants, read on the variant set: a
    refetch needs the refresh to be allowed and a variant that misses every tier, and
    follows when no variant hits; otherwise the
    first variant hit if the refresh was allowed, the scan agrees with one that never
    refetches, and its id is a hit of some variant, its miss a miss of every variant.
   */
  lemma ScanOfVariants(ids: ShowIndex, series: string, c: Collaborators, order: seq<string>,
                       year: Option<int>, country: Option<string>, refresh: bool)
    requires Enumerates(order, KeyVariants(series, c))
    ensures var scan := ScanVariants(ids, order, year, country, refresh);
      && (scan.Refetch? ==> refresh && VariantMissed(ids, series, year, country, c))
      && (refresh && NoShowId(ids, series, year, country, c) ==> scan.Refetch?)
      && (!scan.Refetch? ==>
            && (refresh ==> |order| > 0 && TierLookup(ids, order[0], year, country).Some?)
            && scan == ScanVariants(ids, order, year, country, false)
            && (scan.Found? ==> ShowIdHit(ids, series, year, country, c, scan.id))
            && (scan.Missing? ==> NoShowId(ids, series, year, country, c)))
  {
    var variants := KeyVariants(series, c);
    var scan := ScanVariants(ids, order, year, country, refresh);
    ScanFirstHitWins(ids, order, year, country, refresh);
    ScanFirstHitWins(ids, order, year, country, false);
    assert |order| > 0 && order[0] in variants;
    if !scan.Refetch? && refresh {
      assert TierLookup(ids, order[0], year, country).Some?;
    }
    if scan.Refetch? {
      assert TierLookup(ids, order[0], year, country).None?;
    }
    if scan.Found? {
      var i :| 0 <= i < |order| && TierLookup(ids, order[i], year, country) == Some(scan.id) &&
        forall j :: 0 <= j < i ==> TierLookup(ids, order[j], year, country).None?;
      assert order[i] in variants;
    }
  }

  /** The example index {"the show": 1, "the show 2020": 2}: the year tier beats the bare key. */
  lemma YearTierBeatsBareKey()
    ensures var ids: ShowIndex := map["the show" := 1, "the show 2020" := 2];
      TierLookup(ids, "the show", Some(2020), None) == Some(2) &&
      TierLookup(ids, "the show", None, None) == Some(1) &&
      TierLookup(ids, "the show", Some(1999), None) == Some(1)
  {
    var ids: ShowIndex := map["the show" := 1, "the show 2020" := 2];
    assert "the show" + " " + "2020" == "the show 2020";
    assert "the show" + " " + "1999" != "the show 2020" by {
      assert ("the show" + " " + "1999")[9] != "the show 2020"[9];
    }
    YearTexts();
  }

  lemma YearTexts()
    ensures IntToString(2020) == "2020" && IntToString(1999) == "1999"
  {
    assert NatToString(202) == "202" by {
      assert NatToString(20) == "20";
    }
    assert NatToString(199) == "199" by {
      assert NatToString(19) == "19";
    }
  }

  // ---------------------------------------------------------------- get_movie_id

  /** A `<tr>` of the search results: the `href` of its first link (None without a link) and the link text. */
  datatype SearchRow = SearchRow(href: Option<string>, linkText: string)

  /** The text after the last line break (`.` does not match a newline, so `re.search` starts there). */
  function AfterLastNewline(s: string): (r: string)
    ensures '\n' !in r && |r| <= |s| && r == s[|s| - |r|..]
  {
    if '\n' !in s then s
    else if s[|s| - 1] == '\n' then ""
    else AfterLastNewline(s[..|s| - 1]) + [s[|s| - 1]]
  }

  /**
    `re.search(r'(.+)\s\((\d{4})\)$', title)`: the (name, year) groups when it matches.
    `$` also matches just before a final line break, and `.` never matches a line break, so
    the name is the longest line-break-free text in front of the ` (dddd)`.
   */
  function TitleAndYear(title: string): (r: Option<(string, string)>)
    ensures r.Some? ==> |r.value.0| > 0 && '\n' !in r.value.0 && |r.value.1| == 4 && AllDigits(r.value.1)
  {
    var t := if |title| > 0 && title[|title| - 1] == '\n' then title[..|title| - 1] else title;
    if |t| >= 8 && IsSpace(t[|t| - 7]) && t[|t| - 6] == '(' && AllDigits(t[|t| - 5..|t| - 1]) && t[|t| - 1] == ')'
       && |AfterLastNewline(t[..|t| - 7])| > 0
    then Some((AfterLastNewline(t[..|t| - 7]), t[|t| - 5..|t| - 1]))
    else None
  }

  /** `str(year)` for an optional year: `None` prints as "None". */
  function YearString(year: Option<int>): string {
    if year.Some? then IntToString(year.value) else "None"
  }

  /**
    One row of the search results: a link whose href does not split into exactly two parts
    raises (`ValueError` on unpacking); a "movie/<id>" link whose title and year agree gives its id.
   */
  function MovieRowId(row: SearchRow, movie: string, year: Option<int>, c: Collaborators): (r: Result<Option<string>, ProviderError>)
    ensures r.Err? <==> row.href.Some? && |Split(row.href.value, '/')| != 2
    ensures r.Ok? && r.value.Some? <==>
      && row.href.Some? && |Split(row.href.value, '/')| == 2 && Split(row.href.value, '/')[0] == "movie"
      && TitleAndYear(row.linkText).Some?
      && c.sanitize(Lower(TitleAndYear(row.linkText).value.0)) == c.sanitize(Lower(movie))
      && TitleAndYear(row.linkText).value.1 == YearString(year)
    ensures r.Ok? && r.value.Some? ==> Split(row.href.value, '/') == ["movie", r.value.value]
  {
    if row.href.None? then Ok(None)
    else
      var parts := Split(row.href.value, '/');
      if |parts| != 2 then Err(MalformedPage)
      else if parts[0] != "movie" then Ok(None)
      else
        var titled := TitleAndYear(row.linkText);
        if titled.Some? && c.sanitize(Lower(titled.value.0)) == c.sanitize(Lower(movie))
           && titled.value.1 == YearString(year)
        then Ok(Some(parts[1]))
        else Ok(None)
  }

  /** What each row of the results table contributes. */
  function RowOutcomes(rows: seq<SearchRow>, movie: string, year: Option<int>, c: Collaborators)
    : (outs: seq<Result<Option<string>, ProviderError>>)
    ensures |outs| == |rows|
    ensures forall i :: 0 <= i < |rows| ==> outs[i] == MovieRowId(rows[i], movie, year, c)
  {
    seq(|rows|, i requires 0 <= i < |rows| => MovieRowId(rows[i], movie, year, c))
  }

  /** The movie id after a run of row outcomes: the first error stops the loop, the LAST id found wins. */
  function LastFound(outs: seq<Result<Option<string>, ProviderError>>): Result<Option<string>, ProviderError>
  {
    if |outs| == 0 then Ok(None)
    else
      match LastFound(outs[..|outs| - 1])
      case Err(e) => Err(e)
      case Ok(found) =>
        match outs[|outs| - 1]
        case Err(e) => Err(e)
        case Ok(None) => Ok(found)
        case Ok(Some(id)) => Ok(Some(id))
  }

  /** What `get_movie_id` returns for a fetched results table. */
  function MovieIdOf(rows: seq<SearchRow>, movie: string, year: Option<int>, c: Collaborators): Result<Option<string>, ProviderError>
  {
    LastFound(RowOutcomes(rows, movie, year, c))
  }

  /** The search fails exactly when some row is malformed, and then with the first such row's error. */
  lemma {:induction false} LastFoundFailsOnFirstError(outs: seq<Result<Option<string>, ProviderError>>)
    ensures LastFound(outs).Err? <==> exists i :: 0 <= i < |outs| && outs[i].Err?
    ensures LastFound(outs).Err? ==>
      exists i :: 0 <= i < |outs| && outs[i] == LastFound(outs) && forall j :: 0 <= j < i ==> outs[j].Ok?
  {
    if |outs| > 0 {
      var init := outs[..|outs| - 1];
      LastFoundFailsOnFirstError(init);
      forall i | 0 <= i < |outs| - 1 ensures outs[i] == init[i] { }
      if LastFound(init).Err? {
        var i :| 0 <= i < |init| && init[i] == LastFound(init) && forall j :: 0 <= j < i ==> init[j].Ok?;
        assert outs[i] == LastFound(outs);
      }
    }
  }

  /** No id is found exactly when no row matches. */
  lemma {:induction false} LastFoundNoneIffNoMatch(outs: seq<Result<Option<string>, ProviderError>>)
    requires LastFound(outs).Ok?
    ensures LastFound(outs).value.None? <==> forall i :: 0 <= i < |outs| ==> outs[i] == Ok(None)
  {
    if |outs| > 0 {
      var init := outs[..|outs| - 1];
      LastFoundNoneIffNoMatch(init);
      forall i | 0 <= i < |outs| - 1 ensures outs[i] == init[i] { }
    }
  }

  /** The id found is that of a matching row after which no row matches: the last match wins. */
  lemma {:induction false} LastFoundIsLastMatch(outs: seq<Result<Option<string>, ProviderError>>)
    requires LastFound(outs).Ok? && LastFound(outs).value.Some?
    ensures exists i :: 0 <= i < |outs| && LastMatchAt(outs, i, LastFound(outs))
  {
    var r := LastFound(outs);
    var init := outs[..|outs| - 1];
    if outs[|outs| - 1] == Ok(None) {
      LastFoundIsLastMatch(init);
      var i :| 0 <= i < |init| && LastMatchAt(init, i, r);
      forall j | i <= j < |init| ensures outs[j] == init[j] { }
      assert LastMatchAt(outs, i, r);
    } else {
      assert LastMatchAt(outs, |outs| - 1, r);
    }
  }

  /** Outcome `i` is the id `r` and no later row matches. */
  predicate LastMatchAt(outs: seq<Result<Option<string>, ProviderError>>, i: int, r: Result<Option<string>, ProviderError>)
    requires 0 <= i < |outs|
  {
    outs[i] == r && forall j :: i < j < |outs| ==> outs[j] == Ok(None)
  }

  /** `get_movie_id`'s loop over the rows of the results table. */
  method GetMovieIdFromRows(rows: seq<SearchRow>, movie: string, year: Option<int>, c: Collaborators)
    returns (r: Result<Option<string>, ProviderError>)
    ensures r == MovieIdOf(rows, movie, year, c)
  {
    ghost var outs := RowOutcomes(rows, movie, year, c);
    var movieId: Option<string> := None;
    var i := 0;
    while i < |rows|
      invariant 0 <= i <= |rows|
      invariant LastFound(outs[..i]) == Ok(movieId)
    {
      var row := MovieRowId(rows[i], movie, year, c);
      assert row == outs[i];
      LastFoundStep(outs, i);
      if row.Err? {
        LastFoundPrefixError(outs, i + 1);
        return Err(row.error);
      }
      if row.value.Some? {
        movieId := row.value;
      }
      i := i + 1;
    }
    assert outs[..i] == outs;
    return Ok(movieId);
  }

  /** Extending the rows read by one: an earlier error stays, a new error or a new id replaces the answer. */
  lemma LastFoundStep(outs: seq<Result<Option<string>, ProviderError>>, i: nat)
    requires i < |outs|
    ensures LastFound(outs[..i + 1]) ==
      if LastFound(outs[..i]).Err? || outs[i] == Ok(None) then LastFound(outs[..i]) else outs[i]
  {
    assert outs[..i + 1][..i] == outs[..i];
  }

  /** Once a prefix fails, the whole search fails with the same error. */
  lemma {:induction false} LastFoundPrefixError(outs: seq<Result<Option<string>, ProviderError>>, n: nat)
    requires n <= |outs|
    requires LastFound(outs[..n]).Err?
    ensures LastFound(outs) == LastFound(outs[..n])
    decreases |outs| - n
  {
    if n < |outs| {
      assert outs[..n + 1][..n] == outs[..n];
      LastFoundPrefixError(outs, n + 1);
    } else {
      assert outs[..n] == outs;
    }
  }
}
