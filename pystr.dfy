/** Python `str` semantics that the linter relies on, stated over `seq<char>`.
    Whitespace is Python's `str.isspace()` set (also what `\s` matches in a `str`
    regular expression); word characters, digits and case mapping are ASCII. */
module PyStr {

  /** `c.isspace()` in Python 3. */
  predicate IsSpace(c: char) {
    c == ' ' || ('\t' <= c <= '\r') || ('\U{1c}' <= c <= '\U{1f}')
    || c == '\U{85}' || c == '\U{a0}' || c == '\U{1680}'
    || ('\U{2000}' <= c <= '\U{200a}') || c == '\U{2028}' || c == '\U{2029}'
    || c == '\U{202f}' || c == '\U{205f}' || c == '\U{3000}'
  }

  predicate IsDigit(c: char) { '0' <= c <= '9' }
  predicate IsUpperAscii(c: char) { 'A' <= c <= 'Z' }
  predicate IsLowerAscii(c: char) { 'a' <= c <= 'z' }
  predicate IsAsciiLetter(c: char) { IsUpperAscii(c) || IsLowerAscii(c) }
  predicate IsAlnum(c: char) { IsAsciiLetter(c) || IsDigit(c) }
  /** `\w`: letters, digits and the underscore. */
  predicate IsWordChar(c: char) { IsAlnum(c) || c == '_' }

  predicate AllSpace(s: string) { forall i :: 0 <= i < |s| ==> IsSpace(s[i]) }

  /** `s.lstrip()` */
  function LStrip(s: string): (r: string)
    ensures |r| <= |s|
    ensures r == [] || !IsSpace(r[0])
  {
    if |s| > 0 && IsSpace(s[0]) then LStrip(s[1..]) else s
  }

  /** What `lstrip` removes is whitespace, and it removes it only from the front. */
  lemma {:induction false} LStripSplit(s: string)
    ensures LStrip(s) == s[|s| - |LStrip(s)|..]
    ensures AllSpace(s[..|s| - |LStrip(s)|])
  {
    if |s| > 0 && IsSpace(s[0]) {
      LStripSplit(s[1..]);
      var k := |s| - |LStrip(s)|;
      assert s[1..][..k - 1] == s[1..k];
      assert s[1..][k - 1..] == s[k..];
    }
  }

  /** `s.rstrip()` */
  function RStrip(s: string): (r: string)
    ensures |r| <= |s|
    ensures r == [] || !IsSpace(r[|r| - 1])
  {
    if |s| > 0 && IsSpace(s[|s| - 1]) then RStrip(s[..|s| - 1]) else s
  }

  /** What `rstrip` removes is whitespace, and it removes it only from the back. */
  lemma {:induction false} RStripSplit(s: string)
    ensures RStrip(s) == s[..|RStrip(s)|]
    ensures AllSpace(s[|RStrip(s)|..])
  {
    if |s| > 0 && IsSpace(s[|s| - 1]) {
      RStripSplit(s[..|s| - 1]);
      var k := |RStrip(s)|;
      assert s[..|s| - 1][..k] == s[..k];
      assert s[k..] == s[..|s| - 1][k..] + [s[|s| - 1]];
    }
  }

  /** `s.strip()` */
  function Strip(s: string): (r: string)
    ensures |r| <= |s|
    ensures r == [] || (!IsSpace(r[0]) && !IsSpace(r[|r| - 1]))
    ensures r == [] <==> AllSpace(s)
  {
    var t := LStrip(s);
    var r := RStrip(t);
    LStripSplit(s);
    RStripSplit(t);
    assert r != [] ==> r[0] == t[0];
    assert r == [] ==> t == t[0..] && AllSpace(t);
    assert s == s[..|s| - |t|] + t;
    r
  }

  /** `s.lstrip(chars)`: drops leading characters that occur in `chars`. */
  function LStripChars(s: string, chars: string): (r: string)
    ensures |r| <= |s| && r == s[|s| - |r|..]
    ensures r == [] || r[0] !in chars
  {
    if |s| > 0 && s[0] in chars then LStripChars(s[1..], chars) else s
  }

  predicate StartsWith(s: string, p: string) { p <= s }

  predicate EndsWith(s: string, p: string) { |p| <= |s| && s[|s| - |p|..] == p }

  /** Python slicing `s[a:b]`: negative bounds count from the end, and both bounds
      are clamped to the sequence. */
  function Slice<T>(s: seq<T>, a: int, b: int): (r: seq<T>)
    ensures |r| <= |s|
  {
    var lo := Clamp(if a < 0 then a + |s| else a, |s|);
    var hi := Clamp(if b < 0 then b + |s| else b, |s|);
    if lo < hi then s[lo..hi] else []
  }

  function Clamp(i: int, n: nat): (r: nat)
    ensures r <= n
  {
    if i < 0 then 0 else if i > n then n else i
  }

  /** `p in s` for strings. */
  predicate Contains(s: string, p: string) {
    StartsWith(s, p) || (|s| > 0 && Contains(s[1..], p))
  }

  /** `s.split(sep)` for a one-character separator. */
  function Split(s: string, sep: char): (r: seq<string>)
    ensures |r| >= 1
    ensures forall k :: 0 <= k < |r| ==> sep !in r[k]
  {
    if |s| == 0 then [""]
    else
      var rest := Split(s[1..], sep);
      if s[0] == sep then [""] + rest else [[s[0]] + rest[0]] + rest[1..]
  }

  /** The first piece of a split is a prefix of the string, the last piece a
      suffix, and a single piece is the whole string. */
  lemma {:induction false} SplitShape(s: string, sep: char)
    ensures Split(s, sep)[0] <= s
    ensures |Split(s, sep)| == 1 ==> Split(s, sep)[0] == s
    ensures var r := Split(s, sep); |r[|r| - 1]| <= |s| && r[|r| - 1] == s[|s| - |r[|r| - 1]|..]
  {
    if |s| > 0 {
      SplitShape(s[1..], sep);
      assert s == [s[0]] + s[1..];
    }
  }

  /** A string splits into several pieces exactly when it holds the separator. */
  lemma {:induction false} SplitCount(s: string, sep: char)
    ensures |Split(s, sep)| > 1 <==> sep in s
  {
    if |s| > 0 {
      SplitCount(s[1..], sep);
      assert sep in s <==> s[0] == sep || sep in s[1..];
    }
  }

  /** Splitting a string without the separator gives the string itself. */
  lemma {:induction false} SplitNoSeparator(a: string, sep: char)
    requires sep !in a
    ensures Split(a, sep) == [a]
  {
    if |a| > 0 {
      SplitNoSeparator(a[1..], sep);
      assert [a[0]] + a[1..] == a;
    }
  }

  /** A separator after a separator-free prefix ends the first piece there. */
  lemma {:induction false} SplitAfterPiece(a: string, rest: string, sep: char)
    requires sep !in a
    ensures Split(a + [sep] + rest, sep) == [a] + Split(rest, sep)
  {
    if |a| == 0 {
      assert a + [sep] + rest == [sep] + rest;
      assert (a + [sep] + rest)[1..] == rest;
    } else {
      assert (a + [sep] + rest)[1..] == a[1..] + [sep] + rest;
      SplitAfterPiece(a[1..], rest, sep);
      assert [a[0]] + a[1..] == a;
    }
  }

  /** `sep.join(xs).split(sep) == xs` when no piece holds the separator. */
  lemma {:induction false} SplitJoin(xs: seq<string>, sep: char)
    requires |xs| > 0 && forall k :: 0 <= k < |xs| ==> sep !in xs[k]
    ensures Split(Join(xs, [sep]), sep) == xs
  {
    if |xs| == 1 {
      SplitNoSeparator(xs[0], sep);
    } else {
      SplitJoin(xs[1..], sep);
      SplitAfterPiece(xs[0], Join(xs[1..], [sep]), sep);
      assert [xs[0]] + xs[1..] == xs;
    }
  }

  /** `sep.join(xs)` for a one-character separator. */
  function Join(xs: seq<string>, sep: string): string {
    if |xs| == 0 then ""
    else if |xs| == 1 then xs[0]
    else xs[0] + sep + Join(xs[1..], sep)
  }

  /** `s.split(sep, 1)[0]`: everything before the first `sep`. */
  function Before(s: string, sep: char): (r: string)
    ensures r <= s && sep !in r
    ensures |r| < |s| ==> s[|r|] == sep
  {
    if |s| == 0 || s[0] == sep then "" else [s[0]] + Before(s[1..], sep)
  }

  function LowerChar(c: char): char { if IsUpperAscii(c) then (c as int + 32) as char else c }
  function UpperChar(c: char): char { if IsLowerAscii(c) then (c as int - 32) as char else c }

  /** `s.lower()` */
  function Lower(s: string): (r: string)
    ensures |r| == |s| && forall i :: 0 <= i < |s| ==> r[i] == LowerChar(s[i])
  {
    if |s| == 0 then "" else [LowerChar(s[0])] + Lower(s[1..])
  }

  /** `s.upper()` */
  function Upper(s: string): (r: string)
    ensures |r| == |s| && forall i :: 0 <= i < |s| ==> r[i] == UpperChar(s[i])
  {
    if |s| == 0 then "" else [UpperChar(s[0])] + Upper(s[1..])
  }

  /** `s.capitalize()`: first character upper case, the rest lower case. */
  function Capitalize(s: string): (r: string)
    ensures |r| == |s|
  {
    if |s| == 0 then "" else [UpperChar(s[0])] + Lower(s[1..])
  }

  /** `s.title()`: a letter is upper-cased when the character before it is not a
      letter, and lower-cased otherwise. */
  function Title(s: string): (r: string)
    ensures |r| == |s|
  {
    TitleAfter(s, false)
  }

  function TitleAfter(s: string, prevCased: bool): (r: string)
    ensures |r| == |s|
  {
    if |s| == 0 then ""
    else
      var c := if IsAsciiLetter(s[0]) then (if prevCased then LowerChar(s[0]) else UpperChar(s[0])) else s[0];
      [c] + TitleAfter(s[1..], IsAsciiLetter(s[0]))
  }

  /** Python's `a < b` on strings: lexicographic by code point. */
  predicate Less(a: string, b: string) {
    if |a| == 0 then |b| > 0
    else if |b| == 0 then false
    else if a[0] != b[0] then a[0] < b[0]
    else Less(a[1..], b[1..])
  }

  /** String order is a strict total order. */
  lemma {:induction false} LessIrreflexive(a: string)
    ensures !Less(a, a)
  {
    if |a| > 0 { LessIrreflexive(a[1..]); }
  }

  lemma {:induction false} LessAsymmetric(a: string, b: string)
    ensures !(Less(a, b) && Less(b, a))
  {
    if |a| > 0 && |b| > 0 && a[0] == b[0] { LessAsymmetric(a[1..], b[1..]); }
  }

  lemma {:induction false} LessTransitive(a: string, b: string, c: string)
    requires Less(a, b) && Less(b, c)
    ensures Less(a, c)
  {
    if |a| > 0 && a[0] == b[0] && b[0] == c[0] { LessTransitive(a[1..], b[1..], c[1..]); }
  }

  lemma {:induction false} LessTotal(a: string, b: string)
    ensures a == b || Less(a, b) || Less(b, a)
  {
    if |a| > 0 && |b| > 0 && a[0] == b[0] {
      LessTotal(a[1..], b[1..]);
      assert a == [a[0]] + a[1..] && b == [b[0]] + b[1..];
    }
  }

  /** `s.replace(' ', '')` */
  function RemoveSpaces(s: string): (r: string)
    ensures ' ' !in r
  {
    if |s| == 0 then "" else (if s[0] == ' ' then "" else [s[0]]) + RemoveSpaces(s[1..])
  }

  /** `s.replace('\\\n', '')`, scanning left to right. */
  function RemoveLineContinuations(s: string): string {
    if |s| == 0 then ""
    else if |s| >= 2 && s[0] == '\\' && s[1] == '\n' then RemoveLineContinuations(s[2..])
    else [s[0]] + RemoveLineContinuations(s[1..])
  }

  /** `s.expandtabs()`: a tab advances to the next multiple of 8 columns; `\n` and
      `\r` reset the column. */
  function ExpandTabs(s: string): (r: string)
    ensures '\t' !in r
  {
    ExpandTabsAt(s, 0)
  }

  function ExpandTabsAt(s: string, column: nat): (r: string)
    ensures '\t' !in r
  {
    if |s| == 0 then ""
    else if s[0] == '\t' then
      var n := 8 - column % 8;
      Spaces(n) + ExpandTabsAt(s[1..], column + n)
    else if s[0] == '\n' || s[0] == '\r' then [s[0]] + ExpandTabsAt(s[1..], 0)
    else [s[0]] + ExpandTabsAt(s[1..], column + 1)
  }

  /** Expanding tabs changes nothing in a string that holds no tab. */
  lemma {:induction false} ExpandTabsWithoutTabs(s: string, column: nat)
    requires '\t' !in s
    ensures ExpandTabsAt(s, column) == s
  {
    if |s| > 0 {
      assert s[0] in s;
      if s[0] == '\n' || s[0] == '\r' {
        ExpandTabsWithoutTabs(s[1..], 0);
      } else {
        ExpandTabsWithoutTabs(s[1..], column + 1);
      }
      assert [s[0]] + s[1..] == s;
    }
  }

  /** `' ' * n` */
  function Spaces(n: nat): (r: string)
    ensures |r| == n && forall i :: 0 <= i < n ==> r[i] == ' '
  {
    if n == 0 then "" else [' '] + Spaces(n - 1)
  }

  /** `s.split()[0]` on a string that has a non-space character: the first maximal
      run of non-space characters. */
  function FirstToken(s: string): (r: string)
    requires !AllSpace(s)
    ensures |r| > 0 && forall i :: 0 <= i < |r| ==> !IsSpace(r[i])
  {
    var t := LStrip(s);
    LStripSplit(s);
    assert t != [];
    NonSpacePrefix(t)
  }

  /** Strip leaves a string that starts and ends with non-space characters unchanged. */
  lemma StripUnchanged(s: string)
    requires |s| > 0 && !IsSpace(s[0]) && !IsSpace(s[|s| - 1])
    ensures Strip(s) == s
  {
    assert LStrip(s) == s;
    assert RStrip(s) == s;
  }

  /** A word without whitespace is its own strip and its own first token. */
  lemma WordIsItsOwnToken(w: string)
    requires |w| > 0 && forall i :: 0 <= i < |w| ==> !IsSpace(w[i])
    ensures Strip(w) == w && FirstToken(w) == w
  {
    StripUnchanged(w);
  }

  function NonSpacePrefix(s: string): (r: string)
    ensures r <= s && forall i :: 0 <= i < |r| ==> !IsSpace(s[i])
    ensures |r| < |s| ==> IsSpace(s[|r|])
    ensures |s| > 0 && !IsSpace(s[0]) ==> |r| > 0
  {
    if |s| == 0 || IsSpace(s[0]) then "" else [s[0]] + NonSpacePrefix(s[1..])
  }

  /** Characters that end a line for `str.splitlines()`. */
  predicate IsLineBreak(c: char) {
    c == '\n' || c == '\r' || c == '\U{0b}' || c == '\U{0c}' || ('\U{1c}' <= c <= '\U{1e}')
    || c == '\U{85}' || c == '\U{2028}' || c == '\U{2029}'
  }

  /** `s.splitlines(keepends=True)`; `\r\n` counts as one line end. */
  function SplitLinesKeepEnds(s: string): (r: seq<string>)
    ensures s == [] <==> r == []
    ensures forall k :: 0 <= k < |r| ==> |r[k]| > 0
    decreases |s|
  {
    if |s| == 0 then []
    else
      var n := LineLength(s);
      [s[..n]] + SplitLinesKeepEnds(s[n..])
  }

  /** Length of the first line of `s` including its line end, if any. */
  function LineLength(s: string): (n: nat)
    requires |s| > 0
    ensures 0 < n <= |s|
  {
    if s[0] == '\r' && |s| >= 2 && s[1] == '\n' then 2
    else if IsLineBreak(s[0]) then 1
    else if |s| == 1 then 1
    else 1 + LineLength(s[1..])
  }

  /** `s.splitlines()[0]`, when `s` is not empty: the text before the first line break. */
  function FirstLine(s: string): (r: string)
    ensures r <= s
    ensures forall i :: 0 <= i < |r| ==> !IsLineBreak(r[i])
  {
    if |s| == 0 || IsLineBreak(s[0]) then "" else [s[0]] + FirstLine(s[1..])
  }

  /** `''.join(xs)` is all whitespace exactly when every piece is. */
  lemma {:induction false} JoinAllSpace(xs: seq<string>)
    ensures AllSpace(Join(xs, "")) <==> forall k :: 0 <= k < |xs| ==> AllSpace(xs[k])
  {
    if |xs| > 1 {
      JoinAllSpace(xs[1..]);
      var rest := Join(xs[1..], "");
      assert Join(xs, "") == xs[0] + rest;
      AllSpaceConcat(xs[0], rest);
      assert forall k :: 1 <= k < |xs| ==> xs[k] == xs[1..][k - 1];
      assert (forall k :: 0 <= k < |xs| ==> AllSpace(xs[k])) <==>
             AllSpace(xs[0]) && forall k :: 0 <= k < |xs[1..]| ==> AllSpace(xs[1..][k]);
    }
  }

  lemma AllSpaceConcat(a: string, b: string)
    ensures AllSpace(a + b) <==> AllSpace(a) && AllSpace(b)
  {
    if AllSpace(a + b) {
      forall i | 0 <= i < |b| ensures IsSpace(b[i]) {
        assert b[i] == (a + b)[|a| + i];
      }
      forall i | 0 <= i < |a| ensures IsSpace(a[i]) {
        assert a[i] == (a + b)[i];
      }
    }
  }

  /** `(w + rest).lstrip(w)` removes all of `w` and stops at `rest`, when `rest`
      does not start with a character of `w`. */
  lemma {:induction false} LStripCharsOwnChars(w: string, i: nat, rest: string)
    requires i <= |w|
    requires rest == [] || rest[0] !in w
    ensures LStripChars(w[i..] + rest, w) == rest
    decreases |w| - i
  {
    if i < |w| {
      assert (w[i..] + rest)[0] == w[i];
      assert (w[i..] + rest)[1..] == w[i + 1..] + rest;
      LStripCharsOwnChars(w, i + 1, rest);
    } else {
      assert w[i..] + rest == rest;
    }
  }
}
