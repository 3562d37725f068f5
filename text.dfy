/**
  Python string operations used throughout the model, written out on `seq<char>`.
  Character classes are the ASCII ones: `\w` is a letter, a digit or `_`, `\s` is a
  space or one of the control characters 9 to 13, and `lower()` folds `A`..`Z` only.
 */
module Text {
  import opened Wrappers

  // ---------------------------------------------------------------- predicates

  predicate StartsWith(s: string, p: string) {
    |p| <= |s| && s[..|p|] == p
  }

  predicate EndsWith(s: string, p: string) {
    |p| <= |s| && s[|s| - |p|..] == p
  }

  /** `sub in s` */
  predicate Contains(s: string, sub: string) {
    exists i :: 0 <= i <= |s| - |sub| && OccursAt(s, sub, i)
  }

  predicate OccursAt(s: string, sub: string, i: int)
    requires 0 <= i <= |s| - |sub|
  {
    s[i..i + |sub|] == sub
  }

  predicate IsDigit(c: char) {
    '0' <= c <= '9'
  }

  predicate IsUpper(c: char) {
    'A' <= c <= 'Z'
  }

  predicate IsLowerLetter(c: char) {
    'a' <= c <= 'z'
  }

  /** Python's `\w` restricted to ASCII. */
  predicate IsWordChar(c: char) {
    IsUpper(c) || IsLowerLetter(c) || IsDigit(c) || c == '_'
  }

  /** Python's `\s` (and `str.strip()`'s notion of whitespace) restricted to ASCII. */
  predicate IsSpace(c: char) {
    c == ' ' || 9 <= c as int <= 13 || 28 <= c as int <= 31
  }

  predicate AllDigits(s: string) {
    forall i :: 0 <= i < |s| ==> IsDigit(s[i])
  }

  // ---------------------------------------------------------------- case

  function LowerChar(c: char): (r: char)
    ensures !IsUpper(r)
    ensures IsWordChar(r) <==> IsWordChar(c)
    ensures IsSpace(r) <==> IsSpace(c)
    ensures c != r ==> IsUpper(c)
  {
    if IsUpper(c) then (c as int + 32) as char else c
  }

  /** `s.lower()` */
  function Lower(s: string): (r: string)
    ensures |r| == |s|
    ensures forall i :: 0 <= i < |s| ==> r[i] == LowerChar(s[i])
  {
    seq(|s|, i requires 0 <= i < |s| => LowerChar(s[i]))
  }

  // ---------------------------------------------------------------- slicing helpers

  /** `s[:n]` for a non-negative `n` (Python clamps the bound). */
  function Take<T>(s: seq<T>, n: nat): (r: seq<T>)
    ensures |r| == if n <= |s| then n else |s|
    ensures r == s[..|r|]
  {
    if n <= |s| then s[..n] else s
  }

  /** `s[n:]` for a non-negative `n`. */
  function Drop<T>(s: seq<T>, n: nat): (r: seq<T>)
    ensures |r| == if n <= |s| then |s| - n else 0
    ensures n <= |s| ==> r == s[n..]
  {
    if n <= |s| then s[n..] else []
  }

  // ---------------------------------------------------------------- split and join

  /** `s.split(c)` for a one-character separator: never empty, and no part holds `c`. */
  function Split(s: string, c: char): (parts: seq<string>)
    ensures |parts| >= 1
    ensures forall i :: 0 <= i < |parts| ==> c !in parts[i]
    decreases |s|
  {
    if |s| == 0 then [""]
    else if s[0] == c then [""] + Split(s[1..], c)
    else
      var rest := Split(s[1..], c);
      [[s[0]] + rest[0]] + rest[1..]
  }

  /** `sep.join(parts)` */
  function Join(parts: seq<string>, sep: string): string
  {
    if |parts| == 0 then ""
    else if |parts| == 1 then parts[0]
    else parts[0] + sep + Join(parts[1..], sep)
  }

  lemma {:induction false} JoinSplit(s: string, c: char)
    ensures Join(Split(s, c), [c]) == s
    decreases |s|
  {
    if |s| == 0 {
    } else if s[0] == c {
      JoinSplit(s[1..], c);
      assert s == [c] + s[1..];
    } else {
      JoinSplit(s[1..], c);
      var rest := Split(s[1..], c);
      if |rest| > 1 {
        assert rest == [rest[0]] + rest[1..];
        assert Join(rest, [c]) == rest[0] + [c] + Join(rest[1..], [c]);
      }
      assert s == [s[0]] + s[1..];
    }
  }

  lemma {:induction false} SplitJoin(parts: seq<string>, c: char)
    requires |parts| >= 1
    requires forall i :: 0 <= i < |parts| ==> c !in parts[i]
    ensures Split(Join(parts, [c]), c) == parts
    decreases |parts|, |parts[0]|
  {
    var p := parts[0];
    if |parts| == 1 {
      SplitOfPlain(p, c);
    } else if |p| == 0 {
      var tail := parts[1..];
      SplitJoin(tail, c);
      assert Join(parts, [c]) == [c] + Join(tail, [c]);
      assert (([c] + Join(tail, [c]))[1..]) == Join(tail, [c]);
    } else {
      var shorter := [p[1..]] + parts[1..];
      assert forall i :: 0 <= i < |shorter| ==> c !in shorter[i] by {
        forall i | 0 <= i < |shorter| ensures c !in shorter[i] {
          if i == 0 {
            assert c !in p;
          } else {
            assert shorter[i] == parts[i];
          }
        }
      }
      SplitJoin(shorter, c);
      assert shorter[1..] == parts[1..];
      var j := Join(parts, [c]);
      assert j == p + [c] + Join(parts[1..], [c]);
      assert Join(shorter, [c]) == p[1..] + [c] + Join(parts[1..], [c]);
      assert j == [p[0]] + Join(shorter, [c]);
      assert j[0] == p[0] && j[0] != c;
      assert j[1..] == Join(shorter, [c]);
      var rest := Split(j[1..], c);
      assert rest == shorter;
      assert [p[0]] + rest[0] == p;
      assert parts == [p] + parts[1..];
    }
  }

  lemma {:induction false} SplitOfPlain(s: string, c: char)
    requires c !in s
    ensures Split(s, c) == [s]
    decreases |s|
  {
    if |s| > 0 {
      SplitOfPlain(s[1..], c);
      assert s == [s[0]] + s[1..];
    }
  }

  // ---------------------------------------------------------------- replace

  /** `s.replace(pat, '')`: every non-overlapping occurrence, scanning left to right. */
  function RemoveAll(s: string, pat: string): (r: string)
    ensures |r| <= |s|
    decreases |s|
  {
    if |pat| == 0 || |s| < |pat| then s
    else if s[..|pat|] == pat then RemoveAll(s[|pat|..], pat)
    else [s[0]] + RemoveAll(s[1..], pat)
  }

  /** Each occurrence of `pat` in `s` is removed, so at least `|pat|` characters go. */
  lemma {:induction false} RemoveAllShrinks(s: string, pat: string, i: nat)
    requires |pat| > 0 && i + |pat| <= |s| && s[i..i + |pat|] == pat
    ensures |RemoveAll(s, pat)| <= |s| - |pat|
    decreases |s|
  {
    if s[..|pat|] == pat {
    } else {
      assert i > 0;
      assert s[1..][i - 1..i - 1 + |pat|] == pat;
      RemoveAllShrinks(s[1..], pat, i - 1);
    }
  }

  /** `s.replace(c, rep)` for a one-character `c`. */
  function SubstChar(s: string, c: char, rep: string): (r: string)
    ensures c !in rep ==> c !in r
    ensures (forall i :: 0 <= i < |rep| ==> rep[i] != c) && |rep| == 1 ==> |r| == |s|
  {
    if |s| == 0 then ""
    else (if s[0] == c then rep else [s[0]]) + SubstChar(s[1..], c, rep)
  }

  // ---------------------------------------------------------------- strip

  /** `s.lstrip(c)` for one character. */
  function LStripChar(s: string, c: char): (r: string)
    ensures |r| <= |s| && r == s[|s| - |r|..]
    ensures |r| > 0 ==> r[0] != c
    ensures forall i :: 0 <= i < |s| - |r| ==> s[i] == c
  {
    if |s| > 0 && s[0] == c then LStripChar(s[1..], c) else s
  }

  /** `s.rstrip(chars)`: drops trailing characters that belong to the SET `chars`. */
  function RStripChars(s: string, chars: set<char>): (r: string)
    ensures |r| <= |s| && r == s[..|r|]
    ensures |r| > 0 ==> r[|r| - 1] !in chars
    ensures forall i :: |r| <= i < |s| ==> s[i] in chars
  {
    if |s| > 0 && s[|s| - 1] in chars then RStripChars(s[..|s| - 1], chars) else s
  }

  /** `s.rstrip()` */
  function RStrip(s: string): (r: string)
    ensures |r| <= |s| && r == s[..|r|]
    ensures |r| > 0 ==> !IsSpace(r[|r| - 1])
    ensures forall i :: |r| <= i < |s| ==> IsSpace(s[i])
  {
    if |s| > 0 && IsSpace(s[|s| - 1]) then RStrip(s[..|s| - 1]) else s
  }

  /** `s.lstrip()` */
  function LStrip(s: string): (r: string)
    ensures |r| <= |s| && r == s[|s| - |r|..]
    ensures |r| > 0 ==> !IsSpace(r[0])
    ensures forall i :: 0 <= i < |s| - |r| ==> IsSpace(s[i])
  {
    if |s| > 0 && IsSpace(s[0]) then
      var r := LStrip(s[1..]);
      assert forall i :: 1 <= i < |s| ==> s[i] == s[1..][i - 1];
      r
    else s
  }

  /** `s.strip()` */
  function Strip(s: string): (r: string)
    ensures |r| > 0 ==> !IsSpace(r[0]) && !IsSpace(r[|r| - 1])
  {
    RStrip(LStrip(s))
  }

  // ---------------------------------------------------------------- integers

  function DigitValue(c: char): nat
    requires IsDigit(c)
  {
    c as int - '0' as int
  }

  function DigitsValue(s: string): nat
    requires AllDigits(s)
  {
    if |s| == 0 then 0 else DigitsValue(s[..|s| - 1]) * 10 + DigitValue(s[|s| - 1])
  }

  /**
    The digits of a decimal integer literal as `int()` reads them: digits, with single
    underscores allowed between two of them.
   */
  predicate DecimalLiteral(s: string) {
    && |s| > 0 && IsDigit(s[0]) && IsDigit(s[|s| - 1])
    && (forall i :: 0 <= i < |s| ==> IsDigit(s[i]) || s[i] == '_')
    && (forall i :: 0 <= i < |s| - 1 ==> s[i] == '_' ==> s[i + 1] != '_')
  }

  /** The digits of `s`, its underscores dropped. */
  function DigitsOf(s: string): (r: string)
    requires forall i :: 0 <= i < |s| ==> IsDigit(s[i]) || s[i] == '_'
    ensures AllDigits(r) && |r| <= |s|
    ensures AllDigits(s) ==> r == s
  {
    if s == [] then []
    else if s[|s| - 1] == '_' then DigitsOf(s[..|s| - 1])
    else DigitsOf(s[..|s| - 1]) + [s[|s| - 1]]
  }

  /**
    `int(s)`: surrounding whitespace, an optional sign, then ASCII digits with single
    underscores between them; anything else is a `ValueError` (None).
   */
  function ParseInt(text: string): Option<int>
  {
    var s := Strip(text);
    if |s| > 1 && (s[0] == '-' || s[0] == '+') && DecimalLiteral(s[1..]) then
      var v: int := DigitsValue(DigitsOf(s[1..]));
      Some(if s[0] == '-' then -v else v)
    else if DecimalLiteral(s) then Some(DigitsValue(DigitsOf(s)))
    else None
  }

  /** A plain run of digits is a decimal literal with no underscore to drop. */
  lemma DigitsAreLiteral(s: string)
    requires |s| > 0 && AllDigits(s)
    ensures DecimalLiteral(s) && DigitsOf(s) == s
  {
  }

  lemma {:induction false} DigitsOfAppend(x: string, y: string)
    requires forall i :: 0 <= i < |x| ==> IsDigit(x[i]) || x[i] == '_'
    requires forall i :: 0 <= i < |y| ==> IsDigit(y[i]) || y[i] == '_'
    ensures DigitsOf(x + y) == DigitsOf(x) + DigitsOf(y)
    decreases |y|
  {
    if y != [] {
      var init := y[..|y| - 1];
      assert (x + y)[..|x + y| - 1] == x + init;
      DigitsOfAppend(x, init);
    } else {
      assert x + y == x;
    }
  }

  /** Two digit groups joined by one underscore form a literal whose digits are the two groups. */
  lemma UnderscoredLiteral(a: string, b: string)
    requires |a| > 0 && |b| > 0 && AllDigits(a) && AllDigits(b)
    ensures DecimalLiteral(a + "_" + b) && DigitsOf(a + "_" + b) == a + b
  {
    var s := a + "_" + b;
    assert forall i :: 0 <= i < |s| ==> (i == |a| && s[i] == '_') || (i != |a| && IsDigit(s[i]));
    DigitsOfAppend(a + "_", b);
    DigitsOfAppend(a, "_");
    DigitsAreLiteral(a);
    DigitsAreLiteral(b);
    assert DigitsOf("_") == DigitsOf("_"[..0]) by { assert "_"[..0] == []; }
  }

  /** A decimal literal reads as the value of its digits. */
  lemma ParseLiteral(s: string)
    requires DecimalLiteral(s)
    ensures ParseInt(s) == Some(DigitsValue(DigitsOf(s)))
  {
    StripPlain(s);
  }

  /** `int("1_000") == int("1000")`: an underscore between two digit groups is dropped. */
  lemma DigitGroupsJoin(a: string, b: string)
    requires |a| > 0 && |b| > 0 && AllDigits(a) && AllDigits(b)
    ensures ParseInt(a + "_" + b) == ParseInt(a + b)
  {
    UnderscoredLiteral(a, b);
    DigitsAreLiteral(a + b);
    ParseLiteral(a + "_" + b);
    ParseLiteral(a + b);
  }

  /** A doubled or trailing underscore is a `ValueError`. */
  lemma MisplacedUnderscoresFail(a: string, b: string)
    requires |a| > 0 && |b| > 0 && AllDigits(a) && AllDigits(b)
    ensures ParseInt(a + "__" + b) == None && ParseInt(a + "_") == None
  {
    var s, t := a + "__" + b, a + "_";
    assert s[0] == a[0] && s[|s| - 1] == b[|b| - 1] && t[0] == a[0];
    StripPlain(s);
    StripPlain(t);
    assert s[|a|] == '_' && s[|a| + 1] == '_';
  }

  function DigitChar(d: nat): (c: char)
    requires d < 10
    ensures IsDigit(c) && DigitValue(c) == d
  {
    ('0' as int + d) as char
  }

  function NatToString(n: nat): (r: string)
    ensures |r| > 0 && AllDigits(r)
  {
    if n < 10 then [DigitChar(n)] else NatToString(n / 10) + [DigitChar(n % 10)]
  }

  /** `'%d' % n` and `str(n)` */
  function IntToString(n: int): (r: string)
    ensures |r| > 0 && (r[0] == '-' || IsDigit(r[0]))
  {
    if n < 0 then "-" + NatToString(-n) else NatToString(n)
  }

  lemma {:induction false} NatToStringValue(n: nat)
    ensures DigitsValue(NatToString(n)) == n
  {
    if n >= 10 {
      NatToStringValue(n / 10);
      var s := NatToString(n);
      assert s[..|s| - 1] == NatToString(n / 10);
    }
  }

  /** `int(str(n)) == n` */
  lemma ParseIntToString(n: int)
    ensures ParseInt(IntToString(n)) == Some(n)
  {
    var s := IntToString(n);
    if n < 0 {
      assert s[1..] == NatToString(-n);
      StripNumeral(s);
      DigitsAreLiteral(s[1..]);
      NatToStringValue(-n);
    } else {
      assert s[1..] == NatToString(n)[1..];
      StripNumeral(s);
      DigitsAreLiteral(s);
      NatToStringValue(n);
    }
  }

  /** A numeral has no surrounding whitespace. */
  lemma StripNumeral(s: string)
    requires |s| > 0 && (s[0] == '-' || IsDigit(s[0])) && AllDigits(s[1..])
    ensures Strip(s) == s
  {
    assert LStrip(s) == s;
    if |s| > 1 {
      assert s[|s| - 1] == s[1..][|s| - 2];
    }
    assert RStrip(s) == s;
  }

  /** Text that starts and ends with a non-space character has no surrounding whitespace. */
  lemma StripPlain(s: string)
    requires |s| > 0 && !IsSpace(s[0]) && !IsSpace(s[|s| - 1])
    ensures Strip(s) == s
  {
    assert LStrip(s) == s;
    assert RStrip(s) == s;
  }
}
