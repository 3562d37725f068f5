/**
  The post-processing the web API applies to database rows before sending them
  (`postprocess`, `postprocessEpisode`, `postprocessMovie`), the language code written to
  the history after a download, the releases shown on the system page and the time frame
  of the history statistics.

  A row is a dictionary from column names to values (`Row` below); the post-processors
  replace the values of some of its columns in place by parsed values.
 */
module Api {
  import opened Wrappers
  import opened Text

  // ---------------------------------------------------------------- language tags

  /** A language as the API shows it. */
  datatype LanguageInfo = LanguageInfo(name: string, code2: string, code3: string, forced: bool, hi: bool)

  /** `language_from_alpha2` and `alpha3_from_alpha2`, which look codes up in a table. */
  datatype Codes = Codes(name: string -> string, alpha3: string -> string)

  /** The language named by a two-letter code. */
  function Named(code2: string, codes: Codes, forced: bool, hi: bool): LanguageInfo {
    LanguageInfo(codes.name(code2), code2, codes.alpha3(code2), forced, hi)
  }

  /** The first part of `s.split(c)` is the text before the first `c`. */
  lemma {:induction false} SplitHead(s: string, c: char)
    ensures var h := Split(s, c)[0];
      StartsWith(s, h) && (|h| < |s| ==> s[|h|] == c)
    decreases |s|
  {
    if |s| > 0 && s[0] != c {
      SplitHead(s[1..], c);
      var h := Split(s[1..], c)[0];
      assert Split(s, c)[0] == [s[0]] + h;
      assert s == [s[0]] + s[1..];
    }
  }

  /** A text without `c` is one part. */
  lemma SplitWithout(s: string, c: char)
    ensures c !in s ==> Split(s, c) == [s]
  {
    if c !in s {
      SplitOfPlain(s, c);
    }
  }

  /**
    The `language` column of a row, "code2", "code2:forced" or "code2:hi": the code is the
    text before the first ":", and the flags look at how the whole text ends.
   */
  function ParseLanguage(s: string, codes: Codes): (l: LanguageInfo)
    ensures l == Named(l.code2, codes, l.forced, l.hi)
    ensures ':' !in l.code2 && StartsWith(s, l.code2) && (|l.code2| < |s| ==> s[|l.code2|] == ':')
    ensures l.forced <==> EndsWith(s, ":forced")
    ensures l.hi <==> EndsWith(s, ":hi")
    ensures !(l.forced && l.hi)
  {
    var code2 := Split(s, ':')[0];
    SplitHead(s, ':');
    EndingsDiffer(s);
    Named(code2, codes, EndsWith(s, ":forced"), EndsWith(s, ":hi"))
  }

  /**
    One entry of the `subtitles` or `missing_subtitles` column, "code2" or "code2:forced"
    or "code2:hi": here the flags look at the second part of the split.
   */
  function ParseEntry(tag: string, codes: Codes): (l: LanguageInfo)
    ensures l == Named(l.code2, codes, l.forced, l.hi)
    ensures ':' !in l.code2 && StartsWith(tag, l.code2) && (|l.code2| < |tag| ==> tag[|l.code2|] == ':')
    ensures !(l.forced && l.hi)
    ensures ':' !in tag ==> !l.forced && !l.hi
  {
    var parts := Split(tag, ':');
    SplitHead(tag, ':');
    SplitWithout(tag, ':');
    Named(parts[0], codes, |parts| > 1 && parts[1] == "forced", |parts| > 1 && parts[1] == "hi")
  }

  /** No text ends both in ":hi" and in ":forced". */
  lemma EndingsDiffer(s: string)
    ensures !(EndsWith(s, ":hi") && EndsWith(s, ":forced"))
  {
    if EndsWith(s, ":hi") {
      assert s[|s| - 1] == ":hi"[2];
      if |s| >= 7 {
        assert s[|s| - 7..][6] == s[|s| - 1];
      }
    }
  }

  /** The language code written to the history after a download: hearing impaired first, then forced. */
  function HistoryLanguageCode(code: string, forced: bool, hi: bool): string {
    if hi then code + ":hi" else if forced then code + ":forced" else code
  }

  /** The history code splits at its one ':' into the code and the flag's name. */
  lemma HistoryCodeSplits(code: string, forced: bool, hi: bool)
    requires ':' !in code
    ensures var s := HistoryLanguageCode(code, forced, hi);
      Split(s, ':') == if hi then [code, "hi"] else if forced then [code, "forced"] else [code]
  {
    var s := HistoryLanguageCode(code, forced, hi);
    if hi || forced {
      var suffix := if hi then "hi" else "forced";
      assert Join([code, suffix], [':']) == s;
      SplitJoin([code, suffix], ':');
    } else {
      SplitOfPlain(code, ':');
    }
  }

  /** The history code ends in ":hi" exactly when hearing impaired, in ":forced" exactly when only forced. */
  lemma HistoryCodeEnds(code: string, forced: bool, hi: bool)
    requires ':' !in code
    ensures var s := HistoryLanguageCode(code, forced, hi);
      (EndsWith(s, ":hi") <==> hi) && (EndsWith(s, ":forced") <==> forced && !hi)
  {
    var s := HistoryLanguageCode(code, forced, hi);
    EndingsDiffer(s);
    if hi {
      assert s[|code|..] == ":hi";
    } else if forced {
      assert s[|code|..] == ":forced";
    } else {
      assert !EndsWith(s, ":hi") by {
        if |s| >= 3 {
          assert s[|s| - 3] in code;
        }
      }
      assert !EndsWith(s, ":forced") by {
        if |s| >= 7 {
          assert s[|s| - 7] in code;
        }
      }
    }
  }

  /** Parsing a history language code as a `language` column gives back the code and the flags, hearing impaired winning. */
  lemma HistoryCodeParses(code: string, forced: bool, hi: bool, codes: Codes)
    requires ':' !in code
    ensures ParseLanguage(HistoryLanguageCode(code, forced, hi), codes) == Named(code, codes, forced && !hi, hi)
  {
    HistoryCodeSplits(code, forced, hi);
    HistoryCodeEnds(code, forced, hi);
  }

  /** Parsing a history language code as a subtitles entry gives back the same. */
  lemma HistoryCodeEntry(code: string, forced: bool, hi: bool, codes: Codes)
    requires ':' !in code
    ensures ParseEntry(HistoryLanguageCode(code, forced, hi), codes) == Named(code, codes, forced && !hi, hi)
  {
    HistoryCodeSplits(code, forced, hi);
  }

  // ---------------------------------------------------------------- rows

  /** A column value: what the database returns (None, text, integer), then what the post-processors put instead. */
  datatype Field =
    | Null
    | Str(s: string)
    | Int(i: int)
    | Flag(b: bool)
    | Texts(items: seq<string>)
    | Lang(lang: LanguageInfo)
    | Entries(subs: seq<SubtitleInfo>)
    | Missing(langs: seq<LanguageInfo>)
    | Audio(names: seq<string>)

  /** A subtitles file of a row: its language and its path, None for embedded subtitles. */
  datatype SubtitleInfo = SubtitleInfo(lang: LanguageInfo, path: Option<string>)

  /**
    A row as a dictionary: each column the post-processors look at is None when the row
    has no such key; every other column is in `others`.
   */
  datatype Row = Row(
    ffprobeCache: Option<Field>,
    tags: Option<Field>,
    monitored: Option<Field>,
    hearingImpaired: Option<Field>,
    language: Option<Field>,
    audioLanguage: Option<Field>,
    subtitles: Option<Field>,
    missingSubtitles: Option<Field>,
    alternativeTitles: Option<Field>,
    failedAttempts: Option<Field>,
    others: map<string, Field>)

  /** `ast.literal_eval` of the text columns: a list of texts, or a list of `[language, path]` pairs. */
  datatype Literals = Literals(texts: string -> seq<string>, pairs: string -> seq<(string, Option<string>)>)

  /** The column is absent or holds text or None, so it can be split or literal-evaluated. */
  predicate TextOrNull(c: Option<Field>) {
    c.Some? ==> c.value.Null? || c.value.Str?
  }

  /** The columns that are split or literal-evaluated hold text or None, as the database stores them. */
  predicate FromDatabase(r: Row) {
    && TextOrNull(r.tags) && TextOrNull(r.language) && TextOrNull(r.subtitles)
    && TextOrNull(r.missingSubtitles) && TextOrNull(r.alternativeTitles) && TextOrNull(r.failedAttempts)
  }

  /** The list literal-evaluated from a column; None gives the empty list. */
  function Listed(v: Field, eval: string -> seq<string>): seq<string> {
    if v.Str? then eval(v.s) else []
  }

  /** The `[language, path]` pairs of a `subtitles` column; None gives none. */
  function Pairs(v: Field, lit: Literals): seq<(string, Option<string>)> {
    if v.Str? then lit.pairs(v.s) else []
  }

  /**
    `item['tags']`, and `item['alternativeTitles']` of a movie, which is parsed the same way:
    None becomes the empty list, a text its literal value.
   */
  function LiteralListColumn(c: Option<Field>, lit: Literals): (t: Option<Field>)
    requires TextOrNull(c)
    ensures t.Some? <==> c.Some?
    ensures c == Some(Null) ==> t == Some(Texts([]))
    ensures c.Some? && c.value.Str? ==> t == Some(Texts(lit.texts(c.value.s)))
  {
    if c.None? then None else Some(Texts(Listed(c.value, lit.texts)))
  }

  /** `item['monitored']`: a flag, true only for the text "True" (None gives false). */
  function MonitoredColumn(c: Option<Field>): (m: Option<Field>)
    ensures m.Some? <==> c.Some?
    ensures c.Some? ==> m == Some(Flag(c.value == Str("True")))
  {
    if c.None? then None
    else if c.value.Null? then Some(Flag(false))
    else Some(Flag(c.value == Str("True")))
  }

  /** `item['hearing_impaired']`: None stays None, any other value becomes whether it is the text "True". */
  function HearingImpairedColumn(c: Option<Field>): (h: Option<Field>)
    ensures h.Some? <==> c.Some?
    ensures c == Some(Null) ==> h == Some(Null)
    ensures c.Some? && !c.value.Null? ==> h == Some(Flag(c.value == Str("True")))
  {
    if c.None? || c.value.Null? then c
    else Some(Flag(c.value == Str("True")))
  }

  /** `item['language']`: "None" and None give None, any other text the language parsed from it. */
  function LanguageColumn(c: Option<Field>, codes: Codes): (l: Option<Field>)
    requires TextOrNull(c)
    ensures l.Some? <==> c.Some?
    ensures c == Some(Str("None")) || c == Some(Null) ==> l == Some(Null)
    ensures c.Some? && c.value.Str? && c.value.s != "None" ==> l == Some(Lang(ParseLanguage(c.value.s, codes)))
    ensures l.Some? && l.value.Lang? ==> !(l.value.lang.forced && l.value.lang.hi)
  {
    if c.None? || c.value.Null? then c
    else if c.value == Str("None") then Some(Null)
    else Some(Lang(ParseLanguage(c.value.s, codes)))
  }

  /** `postprocess(item)`: the cache column dropped, then tags, monitored, hearing_impaired and language parsed. */
  function Postprocessed(r: Row, codes: Codes, lit: Literals): (p: Row)
    requires FromDatabase(r)
    ensures p.ffprobeCache.None?
    ensures p.(ffprobeCache := r.ffprobeCache, tags := r.tags, monitored := r.monitored,
               hearingImpaired := r.hearingImpaired, language := r.language) == r
  {
    r.(ffprobeCache := None, tags := LiteralListColumn(r.tags, lit), monitored := MonitoredColumn(r.monitored),
       hearingImpaired := HearingImpairedColumn(r.hearingImpaired), language := LanguageColumn(r.language, codes))
  }

  /** The audio languages of the episode or movie replace a column that is not None. */
  function AudioReplaced(c: Option<Field>, audio: Field): (a: Option<Field>)
    ensures c.None? || c == Some(Null) ==> a == c
    ensures c.Some? && !c.value.Null? ==> a == Some(audio)
  {
    if c.Some? && !c.value.Null? then Some(audio) else c
  }

  /** The parsed `subtitles` column. */
  function ParsedSubtitles(raw: seq<(string, Option<string>)>, codes: Codes): (subs: seq<SubtitleInfo>)
    ensures |subs| == |raw|
    ensures forall i :: 0 <= i < |raw| ==> subs[i] == SubtitleInfo(ParseEntry(raw[i].0, codes), raw[i].1)
  {
    seq(|raw|, i requires 0 <= i < |raw| => SubtitleInfo(ParseEntry(raw[i].0, codes), raw[i].1))
  }

  /** The parsed `missing_subtitles` column. */
  function ParsedMissing(raw: seq<string>, codes: Codes): (langs: seq<LanguageInfo>)
    ensures |langs| == |raw|
    ensures forall i :: 0 <= i < |raw| ==> langs[i] == ParseEntry(raw[i], codes)
  {
    seq(|raw|, i requires 0 <= i < |raw| => ParseEntry(raw[i], codes))
  }

  /** The `for subs in raw_subtitles` loop: one entry appended per pair. */
  method ParseSubtitles(raw: seq<(string, Option<string>)>, codes: Codes) returns (subs: seq<SubtitleInfo>)
    ensures subs == ParsedSubtitles(raw, codes)
  {
    subs := [];
    for i := 0 to |raw|
      invariant subs == ParsedSubtitles(raw[..i], codes)
    {
      subs := subs + [SubtitleInfo(ParseEntry(raw[i].0, codes), raw[i].1)];
    }
    assert raw[..|raw|] == raw;
  }

  /** The `for i, subs in enumerate(...)` loop: each entry replaced by its parsed language. */
  method ParseMissing(raw: seq<string>, codes: Codes) returns (langs: seq<LanguageInfo>)
    ensures langs == ParsedMissing(raw, codes)
  {
    langs := [];
    for i := 0 to |raw|
      invariant langs == ParsedMissing(raw[..i], codes)
    {
      langs := langs + [ParseEntry(raw[i], codes)];
    }
    assert raw[..|raw|] == raw;
  }

  /** The `missing_subtitles` column of episodes and movies. */
  function MissingColumn(c: Option<Field>, codes: Codes, lit: Literals): Option<Field> {
    if c.None? then None else Some(Missing(ParsedMissing(Listed(c.value, lit.texts), codes)))
  }

  /** `postprocessEpisode(item)`: `postprocess`, then the audio, subtitles and missing subtitles columns. */
  function EpisodePostprocessed(r: Row, codes: Codes, lit: Literals, audio: Field): (p: Row)
    requires FromDatabase(r)
    ensures var q := Postprocessed(r, codes, lit);
      p.(audioLanguage := q.audioLanguage, subtitles := q.subtitles, missingSubtitles := q.missingSubtitles) == q
    ensures p.audioLanguage == AudioReplaced(r.audioLanguage, audio)
    ensures p.subtitles.Some? <==> r.subtitles.Some?
    ensures r.subtitles.Some? ==> p.subtitles == Some(Entries(ParsedSubtitles(Pairs(r.subtitles.value, lit), codes)))
    ensures p.missingSubtitles.Some? <==> r.missingSubtitles.Some?
    ensures r.missingSubtitles.Some? ==>
      p.missingSubtitles == Some(Missing(ParsedMissing(Listed(r.missingSubtitles.value, lit.texts), codes)))
  {
    var q := Postprocessed(r, codes, lit);
    var subtitles := if q.subtitles.None? then None else Some(Entries(ParsedSubtitles(Pairs(q.subtitles.value, lit), codes)));
    q.(audioLanguage := AudioReplaced(q.audioLanguage, audio), subtitles := subtitles,
       missingSubtitles := MissingColumn(q.missingSubtitles, codes, lit))
  }

  /** Every parsed subtitles entry of a row has at most one of forced and hearing impaired. */
  lemma EntriesFlagAtMostOne(r: Row, codes: Codes, lit: Literals, audio: Field)
    requires FromDatabase(r) && r.subtitles.Some? && r.missingSubtitles.Some?
    ensures var p := EpisodePostprocessed(r, codes, lit, audio);
      && (forall x :: x in p.subtitles.value.subs ==> !(x.lang.forced && x.lang.hi))
      && (forall l :: l in p.missingSubtitles.value.langs ==> !(l.forced && l.hi))
  {
    var p := EpisodePostprocessed(r, codes, lit, audio);
    forall x | x in p.subtitles.value.subs ensures !(x.lang.forced && x.lang.hi) {
      var i :| 0 <= i < |p.subtitles.value.subs| && p.subtitles.value.subs[i] == x;
    }
    forall l | l in p.missingSubtitles.value.langs ensures !(l.forced && l.hi) {
      var i :| 0 <= i < |p.missingSubtitles.value.langs| && p.missingSubtitles.value.langs[i] == l;
    }
  }

  // ---------------------------------------------------------------- movie subtitles order

  /** Python's `<` on texts: code point by code point, a proper prefix first. */
  predicate StrLess(a: string, b: string)
    decreases |a|
  {
    |b| > 0 && (|a| == 0 || a[0] < b[0] || (a[0] == b[0] && StrLess(a[1..], b[1..])))
  }

  lemma {:induction false} StrLessTotal(a: string, b: string)
    ensures a == b || StrLess(a, b) || StrLess(b, a)
    decreases |a|
  {
    if |a| > 0 && |b| > 0 && a[0] == b[0] {
      StrLessTotal(a[1..], b[1..]);
      if a[1..] == b[1..] {
        assert a == [a[0]] + a[1..] && b == [b[0]] + b[1..];
      }
    }
  }

  lemma {:induction false} StrLessTransitive(a: string, b: string, c: string)
    requires StrLess(a, b) && StrLess(b, c)
    ensures StrLess(a, c)
    decreases |a|
  {
    if |a| > 0 && a[0] == b[0] && b[0] == c[0] {
      StrLessTransitive(a[1..], b[1..], c[1..]);
    }
  }

  /** `key=itemgetter('name', 'forced')`: by name, then not forced before forced. */
  predicate KeyLeq(a: SubtitleInfo, b: SubtitleInfo) {
    StrLess(a.lang.name, b.lang.name) || (a.lang.name == b.lang.name && (!a.lang.forced || b.lang.forced))
  }

  lemma KeyTotal(a: SubtitleInfo, b: SubtitleInfo)
    ensures KeyLeq(a, b) || KeyLeq(b, a)
  {
    StrLessTotal(a.lang.name, b.lang.name);
  }

  lemma KeyTransitive(a: SubtitleInfo, b: SubtitleInfo, c: SubtitleInfo)
    requires KeyLeq(a, b) && KeyLeq(b, c)
    ensures KeyLeq(a, c)
  {
    if StrLess(a.lang.name, b.lang.name) && StrLess(b.lang.name, c.lang.name) {
      StrLessTransitive(a.lang.name, b.lang.name, c.lang.name);
    }
  }

  predicate SortedByKey(s: seq<SubtitleInfo>) {
    forall i, j :: 0 <= i < j < |s| ==> KeyLeq(s[i], s[j])
  }

  /** `x` placed after every entry whose key is not above its own. */
  function Insert(s: seq<SubtitleInfo>, x: SubtitleInfo): (r: seq<SubtitleInfo>)
    ensures multiset(r) == multiset(s) + multiset{x}
    decreases |s|
  {
    if |s| == 0 || KeyLeq(s[|s| - 1], x) then s + [x]
    else
      assert s == s[..|s| - 1] + [s[|s| - 1]];
      Insert(s[..|s| - 1], x) + [s[|s| - 1]]
  }

  /** `sorted(subs, key=itemgetter('name', 'forced'))`, by insertion, stable like Python's sort. */
  function SortByKey(s: seq<SubtitleInfo>): (r: seq<SubtitleInfo>)
    ensures multiset(r) == multiset(s)
    decreases |s|
  {
    if |s| == 0 then []
    else
      assert s == s[..|s| - 1] + [s[|s| - 1]];
      Insert(SortByKey(s[..|s| - 1]), s[|s| - 1])
  }

  lemma {:induction false} InsertSorted(s: seq<SubtitleInfo>, x: SubtitleInfo)
    requires SortedByKey(s)
    ensures SortedByKey(Insert(s, x))
    decreases |s|
  {
    if |s| == 0 {
    } else if KeyLeq(s[|s| - 1], x) {
      var r := s + [x];
      forall i, j | 0 <= i < j < |r| ensures KeyLeq(r[i], r[j]) {
        if j == |s| && i < |s| - 1 {
          KeyTransitive(s[i], s[|s| - 1], x);
        }
      }
    } else {
      var last := s[|s| - 1];
      var init := s[..|s| - 1];
      KeyTotal(last, x);
      InsertSorted(init, x);
      var t := Insert(init, x);
      var r := t + [last];
      forall i, j | 0 <= i < j < |r| ensures KeyLeq(r[i], r[j]) {
        if j == |t| {
          assert r[i] == t[i] && t[i] in multiset(t);
          if t[i] != x {
            assert t[i] in multiset(init);
            var k :| 0 <= k < |init| && init[k] == t[i];
            assert s[k] == t[i];
          }
        } else {
          assert r[i] == t[i] && r[j] == t[j];
        }
      }
    }
  }

  /** The sorted entries are in order of name, then forced, and are the same entries. */
  lemma {:induction false} SortSorted(s: seq<SubtitleInfo>)
    ensures SortedByKey(SortByKey(s)) && multiset(SortByKey(s)) == multiset(s)
    decreases |s|
  {
    if |s| > 0 {
      SortSorted(s[..|s| - 1]);
      InsertSorted(SortByKey(s[..|s| - 1]), s[|s| - 1]);
    }
  }

  /** The entry is kept when its language is desired or when it has a (non-empty) path. */
  predicate Kept(x: SubtitleInfo, desired: seq<string>) {
    x.lang.code2 in desired || (x.path.Some? && x.path.value != "")
  }

  /** `[x for x in subs if x['code2'] in desired or x['path']]` */
  function KeepDesired(subs: seq<SubtitleInfo>, desired: seq<string>): (r: seq<SubtitleInfo>)
    ensures forall x :: x in r <==> x in subs && Kept(x, desired)
    ensures forall x :: multiset(r)[x] == if Kept(x, desired) then multiset(subs)[x] else 0
    decreases |subs|
  {
    if |subs| == 0 then []
    else
      var rest := KeepDesired(subs[1..], desired);
      assert subs == [subs[0]] + subs[1..];
      assert forall x :: x in subs <==> x == subs[0] || x in subs[1..];
      if Kept(subs[0], desired) then [subs[0]] + rest else rest
  }

  /** The filter keeps the order: filtering a concatenation concatenates the filtered parts. */
  lemma {:induction false} KeepDesiredConcat(a: seq<SubtitleInfo>, b: seq<SubtitleInfo>, desired: seq<string>)
    ensures KeepDesired(a + b, desired) == KeepDesired(a, desired) + KeepDesired(b, desired)
    decreases |a|
  {
    if |a| > 0 {
      assert (a + b)[0] == a[0] && (a + b)[1..] == a[1..] + b;
      KeepDesiredConcat(a[1..], b, desired);
    } else {
      assert a + b == b;
    }
  }

  /** The entries a movie row shows: filtered when only desired ones are shown, then sorted. */
  function MovieSubtitles(parsed: seq<SubtitleInfo>, showDesired: bool, desired: seq<string>): seq<SubtitleInfo> {
    SortByKey(if showDesired then KeepDesired(parsed, desired) else parsed)
  }

  /** A movie row shows its parsed entries, in order of name then forced, keeping only the desired ones when so set. */
  lemma MovieSubtitlesShown(parsed: seq<SubtitleInfo>, showDesired: bool, desired: seq<string>)
    ensures var shown := MovieSubtitles(parsed, showDesired, desired);
      && SortedByKey(shown)
      && (forall x :: x in shown <==> x in parsed && (!showDesired || Kept(x, desired)))
      && multiset(shown) == multiset(if showDesired then KeepDesired(parsed, desired) else parsed)
  {
    var kept := if showDesired then KeepDesired(parsed, desired) else parsed;
    SortSorted(kept);
    var shown := MovieSubtitles(parsed, showDesired, desired);
    forall x ensures x in shown <==> x in kept {
      assert x in shown <==> x in multiset(shown);
      assert x in kept <==> x in multiset(kept);
    }
  }

  /** Python truthiness of a column. */
  predicate Truthy(v: Field) {
    match v
    case Null => false
    case Str(s) => s != ""
    case Int(i) => i != 0
    case Flag(b) => b
    case Texts(items) => items != []
    case Lang(_) => true
    case Entries(subs) => subs != []
    case Missing(langs) => langs != []
    case Audio(names) => names != []
  }

  /** `item['failedAttempts']`: literal-evaluated only when truthy. */
  function AttemptsColumn(c: Option<Field>, lit: Literals): (a: Option<Field>)
    requires TextOrNull(c)
    ensures c.None? || !Truthy(c.value) ==> a == c
    ensures c.Some? && Truthy(c.value) ==> a == Some(Texts(lit.texts(c.value.s)))
  {
    if c.Some? && Truthy(c.value) then Some(Texts(lit.texts(c.value.s))) else c
  }

  /** `item['subtitles']` of a movie: parsed, filtered when only desired languages are shown, then sorted. */
  function MovieSubtitlesColumn(c: Option<Field>, codes: Codes, lit: Literals, showDesired: bool, desired: seq<string>)
    : Option<Field>
  {
    if c.None? then None
    else Some(Entries(MovieSubtitles(ParsedSubtitles(Pairs(c.value, lit), codes), showDesired, desired)))
  }

  /** The columns only movie rows parse. */
  function MovieColumns(q: Row, codes: Codes, lit: Literals, showDesired: bool, desired: seq<string>): Row
    requires TextOrNull(q.alternativeTitles) && TextOrNull(q.failedAttempts)
  {
    q.(alternativeTitles := LiteralListColumn(q.alternativeTitles, lit),
       failedAttempts := AttemptsColumn(q.failedAttempts, lit),
       subtitles := MovieSubtitlesColumn(q.subtitles, codes, lit, showDesired, desired),
       missingSubtitles := MissingColumn(q.missingSubtitles, codes, lit))
  }

  /** `postprocessMovie(item)`; `desired` is `get_desired_languages` of the row's profile. */
  function MoviePostprocessed(r: Row, codes: Codes, lit: Literals, audio: Field, showDesired: bool,
                              desired: seq<string>): (p: Row)
    requires FromDatabase(r)
    ensures var q := Postprocessed(r, codes, lit);
      p.(audioLanguage := q.audioLanguage, subtitles := q.subtitles, missingSubtitles := q.missingSubtitles,
         alternativeTitles := q.alternativeTitles, failedAttempts := q.failedAttempts) == q
    ensures p.audioLanguage == AudioReplaced(r.audioLanguage, audio)
    ensures p.alternativeTitles == LiteralListColumn(r.alternativeTitles, lit)
    ensures p.failedAttempts == AttemptsColumn(r.failedAttempts, lit)
    ensures p.subtitles.Some? <==> r.subtitles.Some?
    ensures r.subtitles.Some? ==>
      p.subtitles == Some(Entries(MovieSubtitles(ParsedSubtitles(Pairs(r.subtitles.value, lit), codes), showDesired, desired)))
    ensures p.missingSubtitles == MissingColumn(r.missingSubtitles, codes, lit)
  {
    var q := Postprocessed(r, codes, lit);
    MovieColumns(q.(audioLanguage := AudioReplaced(q.audioLanguage, audio)), codes, lit, showDesired, desired)
  }

  /** A row being prepared for the API: the dictionary the post-processors change in place. */
  class Item {
    var row: Row

    constructor (row: Row)
      ensures this.row == row
    {
      this.row := row;
    }

    /** `postprocess(item)`: each column replaced in place. */
    method Postprocess(codes: Codes, lit: Literals)
      requires FromDatabase(row)
      modifies this
      ensures row == Postprocessed(old(row), codes, lit)
    {
      var tags := row.tags;
      if tags.Some? {
        if tags.value.Null? {
          tags := Some(Texts([]));
        } else {
          tags := Some(Texts(lit.texts(tags.value.s)));
        }
      }
      assert tags == LiteralListColumn(row.tags, lit);
      var monitored := row.monitored;
      if monitored.Some? {
        if monitored.value.Null? {
          monitored := Some(Flag(false));
        } else {
          monitored := Some(Flag(monitored.value == Str("True")));
        }
      }
      assert monitored == MonitoredColumn(row.monitored);
      var hearingImpaired := row.hearingImpaired;
      if hearingImpaired.Some? && !hearingImpaired.value.Null? {
        hearingImpaired := Some(Flag(hearingImpaired.value == Str("True")));
      }
      assert hearingImpaired == HearingImpairedColumn(row.hearingImpaired);
      var language := row.language;
      if language.Some? {
        if language.value == Str("None") {
          language := Some(Null);
        } else if !language.value.Null? {
          language := Some(Lang(ParseLanguage(language.value.s, codes)));
        }
      }
      assert language == LanguageColumn(row.language, codes);
      row := row.(ffprobeCache := None, tags := tags, monitored := monitored,
                  hearingImpaired := hearingImpaired, language := language);
    }

    /** The audio languages replace a column that is not None. */
    method ReplaceAudio(audio: Field)
      modifies this
      ensures row == old(row).(audioLanguage := AudioReplaced(old(row).audioLanguage, audio))
    {
      if row.audioLanguage.Some? && !row.audioLanguage.value.Null? {
        row := row.(audioLanguage := Some(audio));
      }
    }

    /** The `missing_subtitles` column: literal-evaluated, then each entry parsed in place. */
    method ParseMissingColumn(codes: Codes, lit: Literals)
      modifies this
      ensures row == old(row).(missingSubtitles := MissingColumn(old(row).missingSubtitles, codes, lit))
    {
      if row.missingSubtitles.Some? {
        var langs := ParseMissing(Listed(row.missingSubtitles.value, lit.texts), codes);
        row := row.(missingSubtitles := Some(Missing(langs)));
      }
    }

    /** `postprocessEpisode(item)` */
    method PostprocessEpisode(codes: Codes, lit: Literals, audio: Field)
      requires FromDatabase(row)
      modifies this
      ensures row == EpisodePostprocessed(old(row), codes, lit, audio)
    {
      Postprocess(codes, lit);
      ReplaceAudio(audio);
      if row.subtitles.Some? {
        var subs := ParseSubtitles(Pairs(row.subtitles.value, lit), codes);
        row := row.(subtitles := Some(Entries(subs)));
      }
      ParseMissingColumn(codes, lit);
    }

    /** The columns only movie rows parse, each replaced in place. */
    method ParseMovieColumns(codes: Codes, lit: Literals, showDesired: bool, desired: seq<string>)
      requires TextOrNull(row.alternativeTitles) && TextOrNull(row.failedAttempts)
      modifies this
      ensures row == MovieColumns(old(row), codes, lit, showDesired, desired)
    {
      if row.alternativeTitles.Some? {
        row := row.(alternativeTitles := Some(Texts(Listed(row.alternativeTitles.value, lit.texts))));
      }
      if row.failedAttempts.Some? && Truthy(row.failedAttempts.value) {
        row := row.(failedAttempts := Some(Texts(lit.texts(row.failedAttempts.value.s))));
      }
      if row.subtitles.Some? {
        var subs := ParseSubtitles(Pairs(row.subtitles.value, lit), codes);
        if showDesired {
          subs := KeepDesired(subs, desired);
        }
        row := row.(subtitles := Some(Entries(SortByKey(subs))));
      }
      ParseMissingColumn(codes, lit);
    }

    /** `postprocessMovie(item)` */
    method PostprocessMovie(codes: Codes, lit: Literals, audio: Field, showDesired: bool, desired: seq<string>)
      requires FromDatabase(row)
      modifies this
      ensures row == MoviePostprocessed(old(row), codes, lit, audio, showDesired, desired)
    {
      Postprocess(codes, lit);
      ReplaceAudio(audio);
      ParseMovieColumns(codes, lit, showDesired, desired);
    }
  }

  // ---------------------------------------------------------------- releases

  /** One release of `releases.txt`. */
  datatype Release = Release(name: string, date: string, body: string, prerelease: bool)

  /** A release as the system page shows it. */
  datatype ReleaseView = ReleaseView(body: seq<string>, name: string, date: string, prerelease: bool, current: bool)

  /** What the endpoint sends: the filtered releases reshaped, or as read when reshaping raised. */
  datatype ReleaseList = Raw(releases: seq<Release>) | Shown(views: seq<ReleaseView>)

  predicate HasStable(rs: seq<Release>) {
    exists j :: 0 <= j < |rs| && !rs[j].prerelease
  }

  /** The releases that are not prereleases, in their order. */
  function StableReleases(rs: seq<Release>): (r: seq<Release>)
    ensures forall x :: x in r <==> x in rs && !x.prerelease
    ensures |r| <= |rs|
    decreases |rs|
  {
    if |rs| == 0 then []
    else
      var init := rs[..|rs| - 1];
      var last := rs[|rs| - 1];
      assert forall x :: x in rs <==> x in init || x == last;
      StableReleases(init) + (if last.prerelease then [] else [last])
  }

  /** The releases up to and including the first one that is not a prerelease (all of them when there is none). */
  function ThroughFirstStable(rs: seq<Release>): (r: seq<Release>)
    ensures |r| <= |rs| && r == rs[..|r|]
    ensures forall j :: 0 <= j < |r| - 1 ==> r[j].prerelease
    ensures HasStable(rs) ==> |r| > 0 && !r[|r| - 1].prerelease
    ensures !HasStable(rs) ==> r == rs
    decreases |rs|
  {
    if |rs| == 0 then []
    else
      var prior := ThroughFirstStable(rs[..|rs| - 1]);
      assert rs[..|rs| - 1][..|prior|] == rs[..|prior|];
      if HasStable(prior) then prior else prior + [rs[|rs| - 1]]
  }

  /**
    The `for release in releases` loop: on master every stable release, on other branches
    every release until a stable one has been kept; master then keeps the first five.
   */
  method FilterReleases(releases: seq<Release>, master: bool) returns (filtered: seq<Release>)
    ensures master ==> filtered == Take(StableReleases(releases), 5)
    ensures !master ==> filtered == ThroughFirstStable(releases)
  {
    filtered := [];
    for i := 0 to |releases|
      invariant master ==> filtered == StableReleases(releases[..i])
      invariant !master ==> filtered == ThroughFirstStable(releases[..i])
    {
      if master {
        StableStep(releases, i);
      } else {
        ThroughStep(releases, i);
      }
      var release := releases[i];
      if master && !release.prerelease {
        filtered := filtered + [release];
      } else if !master && HasStable(filtered) {
        continue;
      } else if !master {
        filtered := filtered + [release];
      }
    }
    assert releases[..|releases|] == releases;
    if master {
      filtered := Take(filtered, 5);
    }
  }

  /** The stable releases of two runs of releases are those of the first, then those of the second. */
  lemma {:induction false} StableReleasesConcat(a: seq<Release>, b: seq<Release>)
    ensures StableReleases(a + b) == StableReleases(a) + StableReleases(b)
    decreases |b|
  {
    if |b| == 0 {
      assert a + b == a;
    } else {
      var init, x := b[..|b| - 1], b[|b| - 1];
      var kept := if x.prerelease then [] else [x];
      assert (a + b)[..|a + b| - 1] == a + init;
      assert StableReleases(a + b) == StableReleases(a + init) + kept;
      assert StableReleases(b) == StableReleases(init) + kept;
      StableReleasesConcat(a, init);
    }
  }

  /** One release keeps itself when stable and is dropped when a prerelease. */
  lemma StableReleasesOne(x: Release)
    ensures StableReleases([x]) == if x.prerelease then [] else [x]
  {
    assert [x][..0] == [];
  }

  /** One release more: it is kept when it is stable. */
  lemma StableStep(rs: seq<Release>, i: nat)
    requires i < |rs|
    ensures StableReleases(rs[..i + 1]) == StableReleases(rs[..i]) + (if rs[i].prerelease then [] else [rs[i]])
  {
    assert rs[..i + 1][..i] == rs[..i];
  }

  /** One release more: it is kept unless a stable release already was. */
  lemma ThroughStep(rs: seq<Release>, i: nat)
    requires i < |rs|
    ensures var prior := ThroughFirstStable(rs[..i]);
      ThroughFirstStable(rs[..i + 1]) == if HasStable(prior) then prior else prior + [rs[i]]
  {
    assert rs[..i + 1][..i] == rs[..i];
  }

  /** On master at most five releases are shown, all stable and in the order read. */
  lemma MasterShowsStable(releases: seq<Release>)
    ensures var r := Take(StableReleases(releases), 5);
      |r| <= 5 && forall j :: 0 <= j < |r| ==> r[j] in releases && !r[j].prerelease
  {
    var all := StableReleases(releases);
    var r := Take(all, 5);
    forall j | 0 <= j < |r| ensures r[j] in releases && !r[j].prerelease {
      assert r[j] == all[j] && all[j] in all;
    }
  }

  /** `release['body'].replace('- ', '').split('\n')[1:]`: the lines of the cleaned body after the first. */
  function BodyLines(body: string): seq<string> {
    Split(RemoveAll(body, "- "), '\n')[1..]
  }

  /** The first line, which is dropped, and the body lines joined back give the cleaned body. */
  lemma BodyLinesRejoin(body: string)
    ensures exists first :: '\n' !in first && Join([first] + BodyLines(body), "\n") == RemoveAll(body, "- ")
  {
    var all := Split(RemoveAll(body, "- "), '\n');
    JoinSplit(RemoveAll(body, "- "), '\n');
    assert all == [all[0]] + BodyLines(body);
  }

  /** One release reshaped; `version` is the running version. */
  function View(r: Release, version: string): ReleaseView {
    ReleaseView(BodyLines(r.body), r.name, Take(r.date, 10), r.prerelease, LStripChar(r.name, 'v') == version)
  }

  /**
    A view keeps the name and the prerelease flag, shows the date cut to its first ten
    characters, and is current exactly when the name without its leading "v"s is the
    running version.
   */
  lemma ViewShape(r: Release, version: string)
    ensures var v := View(r, version);
      && v.name == r.name && v.prerelease == r.prerelease
      && |v.date| <= 10 && StartsWith(r.date, v.date) && (|r.date| >= 10 ==> |v.date| == 10)
      && (v.current <==> LStripChar(r.name, 'v') == version)
      && v.body == BodyLines(r.body)
  {
  }

  /** Every release of `rs` replaced by its view, in order. */
  function Views(rs: seq<Release>, version: string): (vs: seq<ReleaseView>)
    ensures |vs| == |rs|
    ensures forall i :: 0 <= i < |rs| ==> vs[i] == View(rs[i], version)
  {
    seq(|rs|, i requires 0 <= i < |rs| => View(rs[i], version))
  }

  /** The `for i, release in enumerate(filtered_releases)` loop: each release replaced by its view. */
  method ShowReleases(filtered: seq<Release>, version: string) returns (views: seq<ReleaseView>)
    ensures views == Views(filtered, version)
  {
    views := [];
    for i := 0 to |filtered|
      invariant views == Views(filtered[..i], version)
    {
      ViewsStep(filtered, i, version);
      views := views + [View(filtered[i], version)];
    }
    assert filtered[..|filtered|] == filtered;
  }

  /** Viewing one more release appends its view. */
  lemma ViewsStep(rs: seq<Release>, i: nat, version: string)
    requires i < |rs|
    ensures Views(rs[..i + 1], version) == Views(rs[..i], version) + [View(rs[i], version)]
  {
    var a := Views(rs[..i + 1], version);
    var b := Views(rs[..i], version) + [View(rs[i], version)];
    assert |a| == |b|;
    forall k | 0 <= k < |a| ensures a[k] == b[k] {
      assert rs[..i + 1][k] == rs[k];
    }
  }

  /**
    `SystemReleases.get`: an unreadable releases file shows nothing; a missing
    `BAZARR_VERSION` raises after the filtering, so the releases are shown as read.
   */
  method SystemReleases(releases: Option<seq<Release>>, branch: string, version: Option<string>)
    returns (out: ReleaseList)
    ensures releases.None? ==> out == Raw([])
    ensures releases.Some? && version.None? ==>
      && out.Raw?
      && out.releases == (if branch == "master" then Take(StableReleases(releases.value), 5)
                          else ThroughFirstStable(releases.value))
    ensures releases.Some? && version.Some? ==>
      && out.Shown?
      && out.views == Views(if branch == "master" then Take(StableReleases(releases.value), 5)
                            else ThroughFirstStable(releases.value), version.value)
    ensures out.Shown? ==> version.Some? && forall i :: 0 <= i < |out.views| ==>
      (out.views[i].current <==> LStripChar(out.views[i].name, 'v') == version.value)
  {
    if releases.None? {
      return Raw([]);
    }
    var filtered := FilterReleases(releases.value, branch == "master");
    if version.None? {
      return Raw(filtered);
    }
    var views := ShowReleases(filtered, version.value);
    return Shown(views);
  }

  // ---------------------------------------------------------------- history statistics

  const DAY := 24 * 60 * 60

  /** `delay` used before it is bound: the time frame is none of the four. */
  datatype ApiError = UnboundLocalError

  /** The time frame of `HistoryStats.get`: missing or empty means "month". */
  function HistoryDelay(timeframe: Option<string>): (r: Result<int, ApiError>)
    ensures (timeframe.None? || timeframe == Some("")) ==> r == Ok(30 * DAY)
    ensures r.Ok? ==> r.value % DAY == 0 && 6 * DAY <= r.value <= 364 * DAY
    ensures timeframe.Some? && timeframe.value != "" ==>
      (r.Ok? <==> timeframe.value == "year" || timeframe.value == "trimester" ||
                  timeframe.value == "month" || timeframe.value == "week")
  {
    var t := if timeframe.None? || timeframe.value == "" then "month" else timeframe.value;
    if t == "year" then Ok(364 * DAY)
    else if t == "trimester" then Ok(90 * DAY)
    else if t == "month" then Ok(30 * DAY)
    else if t == "week" then Ok(6 * DAY)
    else Err(UnboundLocalError)
  }
}
