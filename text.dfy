/**
 * String helpers with the exact semantics of the Python and JavaScript built-ins the
 * source relies on: whitespace classes, strip/trim, whitespace splitting, joining,
 * single-character splitting, ASCII case mapping and decimal rendering.
 */
module Text {

  /** Whose notion of whitespace applies: Python's `str.isspace` or JavaScript's `\s` / `trim`. */
  datatype Dialect = Python | JavaScript

  /** Python `str.isspace` (Python) or the JavaScript WhiteSpace/LineTerminator set (JavaScript). */
  predicate IsSpace(d: Dialect, c: char) {
    var n := c as int;
    (9 <= n <= 13) || n == 0x20 || n == 0xA0 || n == 0x1680 || (0x2000 <= n <= 0x200A)
    || n == 0x2028 || n == 0x2029 || n == 0x202F || n == 0x205F || n == 0x3000
    || (d == Python && ((0x1C <= n <= 0x1F) || n == 0x85))
    || (d == JavaScript && n == 0xFEFF)
  }

  predicate AllSpace(d: Dialect, s: string) {
    forall i :: 0 <= i < |s| ==> IsSpace(d, s[i])
  }

  /** Neither the first nor the last character is whitespace. */
  predicate NoEdgeSpace(d: Dialect, s: string) {
    s == [] || (!IsSpace(d, s[0]) && !IsSpace(d, s[|s| - 1]))
  }

  // ---------------------------------------------------------------------------
  // strip / trim

  function TrimStart(d: Dialect, s: string): (r: string)
    ensures |r| <= |s|
    ensures forall i :: 0 <= i < |s| - |r| ==> IsSpace(d, s[i])
    ensures r == [] || !IsSpace(d, r[0])
    decreases |s|
  {
    if s != [] && IsSpace(d, s[0]) then TrimStart(d, s[1..]) else s
  }

  function TrimEnd(d: Dialect, s: string): (r: string)
    ensures |r| <= |s|
    ensures forall i :: |r| <= i < |s| ==> IsSpace(d, s[i])
    ensures r == [] || !IsSpace(d, r[|r| - 1])
    decreases |s|
  {
    if s != [] && IsSpace(d, s[|s| - 1]) then TrimEnd(d, s[..|s| - 1]) else s
  }

  /** What `TrimStart` keeps is a suffix of its input. */
  lemma {:induction false} TrimStartIsSuffix(d: Dialect, s: string)
    ensures var r := TrimStart(d, s); r == s[|s| - |r|..]
    decreases |s|
  {
    if s != [] && IsSpace(d, s[0]) {
      TrimStartIsSuffix(d, s[1..]);
    }
  }

  /** What `TrimEnd` keeps is a prefix of its input. */
  lemma {:induction false} TrimEndIsPrefix(d: Dialect, s: string)
    ensures var r := TrimEnd(d, s); r == s[..|r|]
    decreases |s|
  {
    if s != [] && IsSpace(d, s[|s| - 1]) {
      TrimEndIsPrefix(d, s[..|s| - 1]);
    }
  }

  /** Python `str.strip()` with no argument / JavaScript `String.prototype.trim`. */
  function Strip(d: Dialect, s: string): (r: string)
    ensures NoEdgeSpace(d, r)
    ensures |r| <= |s|
    ensures r == [] <==> AllSpace(d, s)
  {
    StripIsInfix(d, s);
    TrimEndIsPrefix(d, TrimStart(d, s));
    TrimEnd(d, TrimStart(d, s))
  }

  /**
   * The stripped text is the slice of `s` that starts after the leading whitespace, and it
   * is empty exactly when `s` is all whitespace.
   */
  lemma StripIsInfix(d: Dialect, s: string)
    ensures var a := TrimStart(d, s); var r := TrimEnd(d, a);
      r == s[|s| - |a|..|s| - |a| + |r|] && (r == [] <==> AllSpace(d, s))
  {
    var a := TrimStart(d, s);
    var r := TrimEnd(d, a);
    TrimStartIsSuffix(d, s);
    TrimEndIsPrefix(d, a);
    if r == [] {
      EmptyTrimIsAllSpace(d, s, a);
    } else {
      assert s[|s| - |a|] == r[0];
    }
  }

  lemma EmptyTrimIsAllSpace(d: Dialect, s: string, a: string)
    requires a == TrimStart(d, s) && TrimEnd(d, a) == []
    ensures AllSpace(d, s)
  {
    assert a == [];
  }

  lemma {:induction false} TrimStartOfNoEdge(d: Dialect, s: string)
    requires NoEdgeSpace(d, s)
    ensures TrimStart(d, s) == s && TrimEnd(d, s) == s && Strip(d, s) == s
  {
  }

  // ---------------------------------------------------------------------------
  // whitespace-separated words (Python `str.split()` with no argument)

  /** Length of the leading run of non-whitespace characters. */
  function RunLength(d: Dialect, s: string): (k: nat)
    ensures k <= |s|
    ensures forall i :: 0 <= i < k ==> !IsSpace(d, s[i])
    ensures k == |s| || IsSpace(d, s[k])
    decreases |s|
  {
    if s == [] || IsSpace(d, s[0]) then 0 else 1 + RunLength(d, s[1..])
  }

  /** Length of the leading run of whitespace characters. */
  function SpaceRunLength(d: Dialect, s: string): (k: nat)
    ensures k <= |s|
    ensures AllSpace(d, s[..k])
    ensures k == |s| || !IsSpace(d, s[k])
    decreases |s|
  {
    if s == [] || !IsSpace(d, s[0]) then 0 else 1 + SpaceRunLength(d, s[1..])
  }

  predicate IsWord(d: Dialect, w: string) {
    w != [] && forall i :: 0 <= i < |w| ==> !IsSpace(d, w[i])
  }

  /** The maximal runs of non-whitespace characters, in order. */
  function Words(d: Dialect, s: string): (ws: seq<string>)
    ensures forall i :: 0 <= i < |ws| ==> IsWord(d, ws[i])
    decreases |s|
  {
    if s == [] then []
    else if IsSpace(d, s[0]) then Words(d, s[1..])
    else
      var k := RunLength(d, s);
      [s[..k]] + Words(d, s[k..])
  }

  /** Python `sep.join(ws)`. */
  function Join(sep: string, ws: seq<string>): string {
    if ws == [] then "" else if |ws| == 1 then ws[0] else ws[0] + sep + Join(sep, ws[1..])
  }

  lemma {:induction false} WordsOfAllSpace(d: Dialect, s: string)
    requires AllSpace(d, s)
    ensures Words(d, s) == []
    decreases |s|
  {
    if s != [] {
      WordsOfAllSpace(d, s[1..]);
    }
  }

  lemma {:induction false} WordsSkipSpaces(d: Dialect, a: string, b: string)
    requires AllSpace(d, a)
    ensures Words(d, a + b) == Words(d, b)
    decreases |a|
  {
    if a != [] {
      assert (a + b)[0] == a[0];
      assert (a + b)[1..] == a[1..] + b;
      WordsSkipSpaces(d, a[1..], b);
    } else {
      assert a + b == b;
    }
  }

  /** Dropping a leading whitespace prefix keeps the words. */
  lemma WordsSkipSpacePrefix(d: Dialect, u: string, i: nat)
    requires i <= |u| && AllSpace(d, u[..i])
    ensures Words(d, u) == Words(d, u[i..])
  {
    assert u == u[..i] + u[i..];
    WordsSkipSpaces(d, u[..i], u[i..]);
  }

  lemma {:induction false} RunLengthOfWordThenSpace(d: Dialect, w: string, t: string)
    requires forall i :: 0 <= i < |w| ==> !IsSpace(d, w[i])
    requires t == [] || IsSpace(d, t[0])
    ensures RunLength(d, w + t) == |w|
    decreases |w|
  {
    if w != [] {
      assert (w + t)[1..] == w[1..] + t;
      RunLengthOfWordThenSpace(d, w[1..], t);
    }
  }

  /** A word followed by whitespace (or nothing) contributes exactly itself. */
  lemma {:induction false} WordsOfWordThen(d: Dialect, w: string, t: string)
    requires IsWord(d, w)
    requires t == [] || IsSpace(d, t[0])
    ensures Words(d, w + t) == [w] + Words(d, t)
  {
    RunLengthOfWordThenSpace(d, w, t);
    assert (w + t)[..|w|] == w;
    assert (w + t)[|w|..] == t;
  }

  /** Trailing whitespace never adds a word. */
  lemma {:induction false} WordsDropTrailing(d: Dialect, s: string, t: string)
    requires AllSpace(d, t)
    ensures Words(d, s + t) == Words(d, s)
    decreases |s|
  {
    if s == [] {
      assert s + t == t;
      WordsOfAllSpace(d, t);
    } else if IsSpace(d, s[0]) {
      assert (s + t)[1..] == s[1..] + t;
      WordsDropTrailing(d, s[1..], t);
    } else {
      var k := RunLength(d, s);
      if k < |s| {
        RunLengthOfWordThenSpace(d, s[..k], s[k..] + t);
        assert s[..k] + (s[k..] + t) == s + t;
      } else {
        RunLengthOfWordThenSpace(d, s, t);
      }
      WordsStep(d, s, k);
      assert (s + t)[0] == s[0];
      WordsStep(d, s + t, k);
      assert (s + t)[..k] == s[..k];
      assert (s + t)[k..] == s[k..] + t;
      WordsDropTrailing(d, s[k..], t);
    }
  }

  /** Stripping does not change the words. */
  lemma WordsOfStrip(d: Dialect, s: string)
    ensures Words(d, Strip(d, s)) == Words(d, s)
  {
    WordsOfTrimStart(d, s);
    WordsOfTrimEnd(d, TrimStart(d, s));
  }

  lemma WordsOfTrimStart(d: Dialect, s: string)
    ensures Words(d, TrimStart(d, s)) == Words(d, s)
  {
    var a := TrimStart(d, s);
    TrimStartIsSuffix(d, s);
    var o := |s| - |a|;
    assert AllSpace(d, s[..o]);
    WordsSkipSpacePrefix(d, s, o);
  }

  lemma WordsOfTrimEnd(d: Dialect, a: string)
    ensures Words(d, TrimEnd(d, a)) == Words(d, a)
  {
    var r := TrimEnd(d, a);
    TrimEndIsPrefix(d, a);
    var trail := a[|r|..];
    assert a == r + trail;
    assert AllSpace(d, trail) by {
      forall i | 0 <= i < |trail| ensures IsSpace(d, trail[i]) {
        assert trail[i] == a[|r| + i];
      }
    }
    WordsDropTrailing(d, r, trail);
  }

  /** Re-splitting words joined by single spaces gives the words back. */
  lemma {:induction false} WordsOfJoin(d: Dialect, ws: seq<string>)
    requires forall i :: 0 <= i < |ws| ==> IsWord(d, ws[i])
    ensures Words(d, Join(" ", ws)) == ws
  {
    if ws == [] {
    } else if |ws| == 1 {
      WordsOfWordThen(d, ws[0], "");
      assert ws[0] + "" == ws[0];
    } else {
      var rest := Join(" ", ws[1..]);
      assert Join(" ", ws) == ws[0] + (" " + rest);
      WordsOfWordThen(d, ws[0], " " + rest);
      WordsSkipSpaces(d, " ", rest);
      WordsOfJoin(d, ws[1..]);
      assert ws == [ws[0]] + ws[1..];
    }
  }

  /**
   * Every whitespace character is a single ' ' strictly inside the string with
   * non-whitespace characters on both sides.
   */
  predicate SingleSpaced(d: Dialect, s: string) {
    forall i :: 0 <= i < |s| && IsSpace(d, s[i]) ==>
      s[i] == ' ' && 0 < i < |s| - 1 && !IsSpace(d, s[i - 1]) && !IsSpace(d, s[i + 1])
  }

  lemma {:induction false} JoinOfWordsShape(d: Dialect, ws: seq<string>)
    requires forall i :: 0 <= i < |ws| ==> IsWord(d, ws[i])
    ensures var j := Join(" ", ws);
      (j == [] <==> ws == []) && SingleSpaced(d, j) &&
      (ws != [] ==> !IsSpace(d, j[0]) && !IsSpace(d, j[|j| - 1]))
  {
    if |ws| == 1 {
    } else if |ws| > 1 {
      var w := ws[0];
      var rest := Join(" ", ws[1..]);
      JoinOfWordsShape(d, ws[1..]);
      var j := w + " " + rest;
      assert Join(" ", ws) == j;
      forall i | 0 <= i < |j| && IsSpace(d, j[i])
        ensures j[i] == ' ' && 0 < i < |j| - 1 && !IsSpace(d, j[i - 1]) && !IsSpace(d, j[i + 1])
      {
        if i == |w| {
          assert j[i - 1] == w[|w| - 1];
          assert j[i + 1] == rest[0];
        } else if i > |w| {
          var k := i - |w| - 1;
          assert j[i] == rest[k];
          assert 0 < k < |rest| - 1;
          assert j[i - 1] == rest[k - 1];
          assert j[i + 1] == rest[k + 1];
        }
      }
      assert j[|j| - 1] == rest[|rest| - 1];
    }
  }

  /** A single-spaced string with words has no whitespace at its ends. */
  lemma SingleSpacedNoEdge(d: Dialect, s: string)
    requires SingleSpaced(d, s)
    ensures NoEdgeSpace(d, s)
  {
    if s != [] {
      assert !IsSpace(d, s[0]);
      assert !IsSpace(d, s[|s| - 1]);
    }
  }

  // ---------------------------------------------------------------------------
  // JavaScript `t.split(/\s+/)`: the pieces between maximal whitespace runs

  function SplitOnSpaceRuns(d: Dialect, t: string): (parts: seq<string>)
    ensures |parts| >= 1
    decreases |t|
  {
    var k := RunLength(d, t);
    if k == |t| then [t]
    else
      var j := k + SpaceRunLength(d, t[k..]);
      [t[..k]] + SplitOnSpaceRuns(d, t[j..])
  }

  lemma SplitOnSpaceRunsStep(d: Dialect, t: string, k: nat, j: nat)
    requires k == RunLength(d, t) < |t| && j == k + SpaceRunLength(d, t[k..])
    ensures SplitOnSpaceRuns(d, t) == [t[..k]] + SplitOnSpaceRuns(d, t[j..])
  {
  }

  lemma WordsStep(d: Dialect, t: string, k: nat)
    requires t != [] && !IsSpace(d, t[0]) && k == RunLength(d, t)
    ensures Words(d, t) == [t[..k]] + Words(d, t[k..])
  {
  }

  /** Past the first word, the whitespace run before the next word adds no word. */
  lemma SkipSpaceRun(d: Dialect, t: string, k: nat, j: nat)
    requires NoEdgeSpace(d, t) && t != []
    requires k == RunLength(d, t) < |t| && j == k + SpaceRunLength(d, t[k..])
    ensures j < |t| && NoEdgeSpace(d, t[j..]) && Words(d, t[k..]) == Words(d, t[j..])
  {
    var m := j - k;
    assert j < |t|;
    assert t[j] == t[k..][m];
    assert t[j..][|t[j..]| - 1] == t[|t| - 1];
    assert t[k..][m..] == t[j..];
    WordsSkipSpacePrefix(d, t[k..], m);
  }

  /** On a string without whitespace at its ends the regex split yields exactly the words. */
  lemma {:induction false} SplitOnSpaceRunsOfTrimmed(d: Dialect, t: string)
    requires NoEdgeSpace(d, t) && t != []
    ensures SplitOnSpaceRuns(d, t) == Words(d, t)
    decreases |t|
  {
    var k := RunLength(d, t);
    WordsStep(d, t, k);
    if k == |t| {
      assert t[..k] == t && t[k..] == [];
    } else {
      var j := k + SpaceRunLength(d, t[k..]);
      SkipSpaceRun(d, t, k, j);
      SplitOnSpaceRunsStep(d, t, k, j);
      SplitOnSpaceRunsOfTrimmed(d, t[j..]);
    }
  }

  /** The empty string splits into one empty piece. */
  lemma SplitOnSpaceRunsOfEmpty(d: Dialect)
    ensures SplitOnSpaceRuns(d, "") == [""]
  {
  }

  // ---------------------------------------------------------------------------
  // splitting on a single separator character (Python `s.split(",")`, JavaScript `s.split(".")`)

  function Count(s: string, c: char): nat {
    if s == [] then 0 else (if s[0] == c then 1 else 0) + Count(s[1..], c)
  }

  function SplitOn(s: string, sep: char): (parts: seq<string>)
    ensures |parts| == Count(s, sep) + 1
    ensures forall i :: 0 <= i < |parts| ==> sep !in parts[i]
    decreases |s|
  {
    if s == [] then [""]
    else
      var rest := SplitOn(s[1..], sep);
      if s[0] == sep then [""] + rest else [[s[0]] + rest[0]] + rest[1..]
  }

  lemma {:induction false} SplitOnPrefix(a: string, b: string, sep: char)
    requires sep !in a
    ensures var p := SplitOn(b, sep); SplitOn(a + b, sep) == [a + p[0]] + p[1..]
    decreases |a|
  {
    if a != [] {
      assert (a + b)[1..] == a[1..] + b;
      SplitOnPrefix(a[1..], b, sep);
      assert [a[0]] + (a[1..] + SplitOn(b, sep)[0]) == a + SplitOn(b, sep)[0];
    } else {
      var p := SplitOn(b, sep);
      assert a + b == b;
      assert a + p[0] == p[0];
      assert p == [p[0]] + p[1..];
    }
  }

  /** Joining pieces free of the separator and splitting again returns the pieces. */
  lemma {:induction false} SplitOnJoin(ps: seq<string>, sep: char)
    requires |ps| >= 1
    requires forall i :: 0 <= i < |ps| ==> sep !in ps[i]
    ensures SplitOn(Join([sep], ps), sep) == ps
  {
    if |ps| == 1 {
      SplitOnPrefix(ps[0], "", sep);
      assert ps[0] + "" == ps[0];
    } else {
      var rest := Join([sep], ps[1..]);
      SplitOnJoin(ps[1..], sep);
      assert Join([sep], ps) == ps[0] + ([sep] + rest);
      SplitOnPrefix(ps[0], [sep] + rest, sep);
      assert ([sep] + rest)[1..] == rest;
      assert ps[0] + "" == ps[0];
      assert ps == [ps[0]] + ps[1..];
    }
  }

  /** Text before the first occurrence of `sep` (JavaScript `s.split(sep)[0]`). */
  function Before(s: string, sep: char): (r: string)
    ensures sep !in r
    ensures |r| <= |s| && r == s[..|r|]
    ensures |r| < |s| ==> s[|r|] == sep
  {
    SplitOnFirst(s, sep);
    SplitOn(s, sep)[0]
  }

  lemma {:induction false} SplitOnFirst(s: string, sep: char)
    ensures var r := SplitOn(s, sep)[0]; |r| <= |s| && r == s[..|r|] && (|r| < |s| ==> s[|r|] == sep)
    decreases |s|
  {
    if s != [] {
      SplitOnFirst(s[1..], sep);
    }
  }

  // ---------------------------------------------------------------------------
  // prefixes, suffixes, stripping one character, ASCII case

  predicate StartsWith(s: string, p: string) {
    |p| <= |s| && s[..|p|] == p
  }

  predicate EndsWith(s: string, p: string) {
    |p| <= |s| && s[|s| - |p|..] == p
  }

  /** Python `s.rstrip(c)` for one character `c`. */
  function RStripChar(s: string, c: char): (r: string)
    ensures |r| <= |s| && r == s[..|r|]
    ensures forall i :: |r| <= i < |s| ==> s[i] == c
    ensures r == [] || r[|r| - 1] != c
    decreases |s|
  {
    if s != [] && s[|s| - 1] == c then RStripChar(s[..|s| - 1], c) else s
  }

  function LowerChar(c: char): char {
    if 'A' <= c <= 'Z' then (c as int + 32) as char else c
  }

  function UpperChar(c: char): char {
    if 'a' <= c <= 'z' then (c as int - 32) as char else c
  }

  /** `str.lower()` restricted to the ASCII letters. */
  function Lower(s: string): (r: string)
    ensures |r| == |s|
    ensures forall i :: 0 <= i < |s| ==> r[i] == LowerChar(s[i])
  {
    seq(|s|, i requires 0 <= i < |s| => LowerChar(s[i]))
  }

  /** Lowercasing commutes with slicing. */
  lemma LowerSlice(s: string, i: int, j: int)
    requires 0 <= i <= j <= |s|
    ensures Lower(s)[i..j] == Lower(s[i..j])
  {
  }

  predicate HasNoAsciiUpper(s: string) {
    forall i :: 0 <= i < |s| ==> !('A' <= s[i] <= 'Z')
  }

  // ---------------------------------------------------------------------------
  // decimal rendering of integers (Python f-strings, JavaScript `String(n)`)

  function DigitChar(v: nat): char
    requires v < 10
  {
    ('0' as int + v) as char
  }

  function NatToString(n: nat): (s: string)
    ensures |s| >= 1
    ensures forall i :: 0 <= i < |s| ==> '0' <= s[i] <= '9'
  {
    if n < 10 then [DigitChar(n)] else NatToString(n / 10) + [DigitChar(n % 10)]
  }

  function IntToString(i: int): string {
    if i < 0 then "-" + NatToString(-i) else NatToString(i)
  }

  /** The value of a string of decimal digits. */
  function DigitsValue(s: string): nat
    requires forall i :: 0 <= i < |s| ==> '0' <= s[i] <= '9'
  {
    if s == [] then 0 else 10 * DigitsValue(s[..|s| - 1]) + (s[|s| - 1] as int - '0' as int)
  }

  /** Reading back the rendered digits gives the number. */
  lemma {:induction false} DigitsValueOfNatToString(n: nat)
    ensures DigitsValue(NatToString(n)) == n
  {
    if n >= 10 {
      var s := NatToString(n);
      assert s[..|s| - 1] == NatToString(n / 10);
      DigitsValueOfNatToString(n / 10);
    }
  }

  lemma NatToStringLength(n: nat)
    ensures |NatToString(n)| == 1 <==> n < 10
  {
  }
}
