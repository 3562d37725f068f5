/**
  `normalize_title` of the local series indexer: the sort title of a series. The title is
  lower-cased; runs of delimiters become one space; other punctuation is dropped; the
  words "a", "an", "the", "and", "or" and "of" are dropped with one space after them;
  runs of two or more spaces become one; the result is stripped.
 */
module TitleNormalizer {
  import opened Text

  /** `(\s|\.|,|_|-|=|\|)` */
  predicate IsDelimiter(c: char) {
    IsSpace(c) || c == '.' || c == ',' || c == '_' || c == '-' || c == '=' || c == '|'
  }

  /** The length of the run of delimiters `s` starts with. */
  function DelimiterRun(s: string): (n: nat)
    ensures n <= |s|
    ensures forall i :: 0 <= i < n ==> IsDelimiter(s[i])
    ensures n < |s| ==> !IsDelimiter(s[n])
  {
    if |s| == 0 || !IsDelimiter(s[0]) then 0 else 1 + DelimiterRun(s[1..])
  }

  /** `re.sub(WordDelimiterRegex, " ", s)`: each maximal run of delimiters becomes one space. */
  function ReplaceDelimiters(s: string): (r: string)
    ensures forall i :: 0 <= i < |r| ==> r[i] == ' ' || (r[i] in s && !IsDelimiter(r[i]))
    decreases |s|
  {
    if |s| == 0 then ""
    else if IsDelimiter(s[0]) then
      var n := DelimiterRun(s);
      " " + ReplaceDelimiters(s[n..])
    else [s[0]] + ReplaceDelimiters(s[1..])
  }

  /** `re.sub(PunctuationRegex, "", s)`: only word characters and whitespace are kept, in order. */
  function RemovePunctuation(s: string): (r: string)
    ensures forall i :: 0 <= i < |r| ==> r[i] in s && (IsWordChar(r[i]) || IsSpace(r[i]))
    ensures (forall i :: 0 <= i < |s| ==> IsWordChar(s[i]) || IsSpace(s[i])) ==> r == s
  {
    if |s| == 0 then ""
    else if IsWordChar(s[0]) || IsSpace(s[0]) then [s[0]] + RemovePunctuation(s[1..])
    else RemovePunctuation(s[1..])
  }

  /** The words `CommonWordRegex` removes. */
  const COMMON_WORDS: set<string> := {"a", "an", "the", "and", "or", "of"}

  /** The length of the run of word characters `s` starts with. */
  function WordLength(s: string): (n: nat)
    ensures n <= |s|
    ensures forall i :: 0 <= i < n ==> IsWordChar(s[i])
    ensures n < |s| ==> !IsWordChar(s[n])
  {
    if |s| == 0 || !IsWordChar(s[0]) then 0 else 1 + WordLength(s[1..])
  }

  /**
    `re.sub(CommonWordRegex, "", s)`: a common word standing as a whole word (`\b` on both
    sides) is removed together with the one whitespace character after it, if any. The
    scan moves word by word, so a match can only start where a word starts.
   */
  function RemoveCommonWords(s: string): (r: string)
    ensures forall i :: 0 <= i < |r| ==> r[i] in s
    ensures |s| > 0 && !IsWordChar(s[0]) ==> |r| > 0 && r[0] == s[0]
    decreases |s|
  {
    if |s| == 0 then ""
    else if !IsWordChar(s[0]) then [s[0]] + RemoveCommonWords(s[1..])
    else
      var n := WordLength(s);
      var rest := s[n..];
      if s[..n] in COMMON_WORDS then
        if |rest| > 0 && IsSpace(rest[0]) then RemoveCommonWords(rest[1..]) else RemoveCommonWords(rest)
      else s[..n] + RemoveCommonWords(rest)
  }

  /** The length of the run of whitespace `s` starts with. */
  function SpaceRun(s: string): (n: nat)
    ensures n <= |s|
    ensures forall i :: 0 <= i < n ==> IsSpace(s[i])
    ensures n < |s| ==> !IsSpace(s[n])
  {
    if |s| == 0 || !IsSpace(s[0]) then 0 else 1 + SpaceRun(s[1..])
  }

  /** `re.sub(DuplicateSpacesRegex, " ", s)`: a run of two or more whitespace characters becomes one space. */
  function CollapseSpaces(s: string): (r: string)
    ensures forall i :: 0 <= i < |r| ==> r[i] == ' ' || r[i] in s
    ensures forall i :: 0 <= i < |r| - 1 ==> !(IsSpace(r[i]) && IsSpace(r[i + 1]))
    ensures |r| > 0 <==> |s| > 0
    ensures |r| > 0 ==> (IsSpace(r[0]) <==> IsSpace(s[0])) && (IsWordChar(r[0]) <==> IsWordChar(s[0]))
    decreases |s|
  {
    if |s| == 0 then ""
    else if IsSpace(s[0]) then
      var n := SpaceRun(s);
      (if n >= 2 then " " else [s[0]]) + CollapseSpaces(s[n..])
    else [s[0]] + CollapseSpaces(s[1..])
  }

  /** `normalize_title(title)` */
  function NormalizeTitle(title: string): string {
    Strip(CollapseSpaces(RemoveCommonWords(RemovePunctuation(ReplaceDelimiters(Lower(title))))))
  }

  /** Only lower-case word characters and spaces. */
  predicate LowerWordsAndSpaces(s: string) {
    forall i :: 0 <= i < |s| ==> s[i] == ' ' || (IsWordChar(s[i]) && !IsUpper(s[i]))
  }

  /** No two whitespace characters in a row. */
  predicate SingleSpaced(s: string) {
    forall i :: 0 <= i < |s| - 1 ==> !(IsSpace(s[i]) && IsSpace(s[i + 1]))
  }

  /**
    A normalised title is made of lower-case word characters and single spaces, with no
    space at either end.
   */
  lemma NormalizeTitleShape(title: string)
    ensures var r := NormalizeTitle(title);
      && LowerWordsAndSpaces(r)
      && SingleSpaced(r)
      && (|r| > 0 ==> r[0] != ' ' && r[|r| - 1] != ' ')
  {
    var lowered := Lower(title);
    var delimited := ReplaceDelimiters(lowered);
    assert forall i :: 0 <= i < |delimited| ==> delimited[i] == ' ' || !IsUpper(delimited[i]);
    var plain := RemovePunctuation(delimited);
    assert forall i :: 0 <= i < |plain| ==> plain[i] in delimited;
    assert LowerWordsAndSpaces(plain) by {
      forall i | 0 <= i < |plain|
        ensures plain[i] == ' ' || (IsWordChar(plain[i]) && !IsUpper(plain[i]))
      {
        var j :| 0 <= j < |delimited| && delimited[j] == plain[i];
        assert delimited[j] == ' ' || !IsDelimiter(delimited[j]);
      }
    }
    var pruned := RemoveCommonWords(plain);
    assert LowerWordsAndSpaces(pruned) by {
      forall i | 0 <= i < |pruned|
        ensures pruned[i] == ' ' || (IsWordChar(pruned[i]) && !IsUpper(pruned[i]))
      {
        var j :| 0 <= j < |plain| && plain[j] == pruned[i];
      }
    }
    var collapsed := CollapseSpaces(pruned);
    assert LowerWordsAndSpaces(collapsed) by {
      forall i | 0 <= i < |collapsed|
        ensures collapsed[i] == ' ' || (IsWordChar(collapsed[i]) && !IsUpper(collapsed[i]))
      {
        if collapsed[i] != ' ' {
          var j :| 0 <= j < |pruned| && pruned[j] == collapsed[i];
        }
      }
    }
    StripKeepsShape(collapsed);
  }

  /** `strip()` keeps both shapes, and leaves no whitespace at either end. */
  lemma StripKeepsShape(s: string)
    requires LowerWordsAndSpaces(s) && SingleSpaced(s)
    ensures LowerWordsAndSpaces(Strip(s)) && SingleSpaced(Strip(s))
  {
    var l := LStrip(s);
    var k := |s| - |l|;
    var r := RStrip(l);
    assert l == s[k..];
    assert r == l[..|r|];
    SliceKeepsShape(s, k, |s|);
    SliceKeepsShape(l, 0, |r|);
  }

  /** Any slice of a text of that shape has it too. */
  lemma SliceKeepsShape(s: string, a: nat, b: nat)
    requires a <= b <= |s| && LowerWordsAndSpaces(s) && SingleSpaced(s)
    ensures LowerWordsAndSpaces(s[a..b]) && SingleSpaced(s[a..b])
  {
    forall i | 0 <= i < b - a ensures s[a..b][i] == s[a + i] { }
  }

  // ---------------------------------------------------------------- words

  /** The maximal runs of word characters of `s`, in order: what the title's words are. */
  function Words(s: string): (ws: seq<string>)
    ensures |s| > 0 && IsWordChar(s[0]) ==> |ws| > 0
    decreases |s|
  {
    if |s| == 0 then []
    else if !IsWordChar(s[0]) then Words(s[1..])
    else if |s| > 1 && IsWordChar(s[1]) then
      var rest := Words(s[1..]);
      [[s[0]] + rest[0]] + rest[1..]
    else [[s[0]]] + Words(s[1..])
  }

  /** The words `normalize_title` keeps. */
  function KeptWords(ws: seq<string>): (r: seq<string>)
    ensures forall i :: 0 <= i < |r| ==> r[i] !in COMMON_WORDS
  {
    if |ws| == 0 then []
    else if ws[0] in COMMON_WORDS then KeptWords(ws[1..])
    else [ws[0]] + KeptWords(ws[1..])
  }

  /** Characters outside words in front do not change the words. */
  lemma {:induction false} WordsAfterNonWords(x: string, y: string)
    requires forall i :: 0 <= i < |x| ==> !IsWordChar(x[i])
    ensures Words(x + y) == Words(y)
    decreases |x|
  {
    if |x| > 0 {
      assert (x + y)[0] == x[0];
      assert (x + y)[1..] == x[1..] + y;
      WordsAfterNonWords(x[1..], y);
    } else {
      assert x + y == y;
    }
  }

  /** Characters outside words at the end do not change the words. */
  lemma {:induction false} WordsBeforeNonWords(x: string, y: string)
    requires forall i :: 0 <= i < |y| ==> !IsWordChar(y[i])
    ensures Words(x + y) == Words(x)
    decreases |x|
  {
    if |x| == 0 {
      assert x + y == y + "";
      WordsAfterNonWords(y, "");
    } else {
      assert (x + y)[1..] == x[1..] + y;
      WordsBeforeNonWords(x[1..], y);
    }
  }

  /** A whole word in front is the first word. */
  lemma {:induction false} WordsOfLeadingWord(w: string, y: string)
    requires |w| > 0 && forall i :: 0 <= i < |w| ==> IsWordChar(w[i])
    requires |y| > 0 ==> !IsWordChar(y[0])
    ensures Words(w + y) == [w] + Words(y)
    decreases |w|
  {
    var s := w + y;
    assert s[0] == w[0] && s[1..] == w[1..] + y;
    if |w| > 1 {
      assert s[1] == w[1];
      WordsOfLeadingWord(w[1..], y);
      assert [w[0]] + w[1..] == w;
    } else {
      assert s[1..] == y;
      assert w == [w[0]];
    }
  }

  /** Collapsing whitespace keeps the words. */
  lemma {:induction false} CollapseKeepsWords(s: string)
    ensures Words(CollapseSpaces(s)) == Words(s)
    decreases |s|
  {
    if |s| == 0 {
    } else if IsSpace(s[0]) {
      CollapseKeepsWords(s[SpaceRun(s)..]);
      CollapsedSpaceRun(s);
      SpaceRunSkipped(s);
    } else {
      CollapseKeepsWords(s[1..]);
      CollapseWordHead(s);
    }
  }

  /** A run of whitespace in front collapses to characters outside any word. */
  lemma {:induction false} CollapsedSpaceRun(s: string)
    requires |s| > 0 && IsSpace(s[0])
    ensures Words(CollapseSpaces(s)) == Words(CollapseSpaces(s[SpaceRun(s)..]))
  {
    var n := SpaceRun(s);
    var head := if n >= 2 then " " else [s[0]];
    var rest := CollapseSpaces(s[n..]);
    assert CollapseSpaces(s) == head + rest;
    WordsAfterNonWords(head, rest);
  }

  /** Leading whitespace is outside any word. */
  lemma SpaceRunSkipped(s: string)
    ensures Words(s) == Words(s[SpaceRun(s)..])
  {
    var n := SpaceRun(s);
    assert s == s[..n] + s[n..];
    WordsAfterNonWords(s[..n], s[n..]);
  }

  /** A character that is not whitespace in front is kept, and so are the words. */
  lemma {:induction false} CollapseWordHead(s: string)
    requires |s| > 0 && !IsSpace(s[0])
    requires Words(CollapseSpaces(s[1..])) == Words(s[1..])
    ensures Words(CollapseSpaces(s)) == Words(s)
  {
    var c := CollapseSpaces(s);
    assert c[1..] == CollapseSpaces(s[1..]);
  }

  /** Stripping keeps the words. */
  lemma StripKeepsWords(s: string)
    ensures Words(Strip(s)) == Words(s)
  {
    StripKeepsWordsLeft(s);
    StripKeepsWordsRight(LStrip(s));
  }

  lemma StripKeepsWordsRight(s: string)
    ensures Words(RStrip(s)) == Words(s)
  {
    var r := RStrip(s);
    var tail := s[|r|..];
    assert s == r + tail;
    assert forall i :: 0 <= i < |tail| ==> IsSpace(tail[i]);
    WordsBeforeNonWords(r, tail);
  }

  lemma StripKeepsWordsLeft(s: string)
    ensures Words(LStrip(s)) == Words(s)
  {
    var l := LStrip(s);
    var k := |s| - |l|;
    assert s == s[..k] + l;
    assert forall i :: 0 <= i < k ==> IsSpace(s[..k][i]);
    WordsAfterNonWords(s[..k], l);
  }

  /** Removing the common words removes exactly the words that are common. */
  lemma {:induction false} RemoveCommonWordsKeepsOthers(s: string)
    ensures Words(RemoveCommonWords(s)) == KeptWords(Words(s))
    decreases |s|
  {
    if |s| == 0 {
    } else if !IsWordChar(s[0]) {
      RemoveCommonWordsKeepsOthers(s[1..]);
      var r := RemoveCommonWords(s);
      assert r[1..] == RemoveCommonWords(s[1..]);
    } else {
      var n := WordLength(s);
      var w := s[..n];
      var rest := s[n..];
      assert s == w + rest;
      WordsOfLeadingWord(w, rest);
      RemoveCommonWordsKeepsOthers(rest);
      if w in COMMON_WORDS {
        if |rest| > 0 && IsSpace(rest[0]) {
          RemoveCommonWordsKeepsOthers(rest[1..]);
        }
      } else {
        WordsOfLeadingWord(w, RemoveCommonWords(rest));
      }
    }
  }

  /**
    The words of a normalised title are the words of the lower-cased, de-punctuated title
    that are not common words, in order: "a", "an", "the", "and", "or" and "of" go only
    where they stand as whole words.
   */
  lemma NormalizeTitleWords(title: string)
    ensures Words(NormalizeTitle(title)) ==
      KeptWords(Words(RemovePunctuation(ReplaceDelimiters(Lower(title)))))
  {
    var plain := RemovePunctuation(ReplaceDelimiters(Lower(title)));
    RemoveCommonWordsKeepsOthers(plain);
    CollapseKeepsWords(RemoveCommonWords(plain));
    StripKeepsWords(CollapseSpaces(RemoveCommonWords(plain)));
  }
}
