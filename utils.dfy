/** The text helpers of `utils.py`. */
module Utils {
  import opened PyStr

  /** `is_blank`: the string holds nothing but whitespace. */
  predicate IsBlank(s: string): (b: bool)
    ensures b <==> AllSpace(s)
  {
    Strip(s) == ""
  }

  /** `has_content`: the exact negation of `is_blank`. */
  predicate HasContent(s: string): (b: bool)
    ensures b <==> exists i :: 0 <= i < |s| && !IsSpace(s[i])
  {
    !IsBlank(s)
  }

  /** The length of the leading run of blank lines (`takewhile(is_blank, ...)`). */
  function LeadingBlanks(lines: seq<string>): (n: nat)
    ensures n <= |lines|
    ensures forall k :: 0 <= k < n ==> IsBlank(lines[k])
    ensures n < |lines| ==> !IsBlank(lines[n])
  {
    if |lines| == 0 || !IsBlank(lines[0]) then 0 else 1 + LeadingBlanks(lines[1..])
  }

  /** Any count of leading blank lines that stops at a non-blank line or at the
      end is the one `LeadingBlanks` gives. */
  lemma {:induction false} LeadingBlanksUnique(lines: seq<string>, n: nat)
    requires n <= |lines|
    requires forall k :: 0 <= k < n ==> IsBlank(lines[k])
    requires n < |lines| ==> !IsBlank(lines[n])
    ensures LeadingBlanks(lines) == n
  {
    if n > 0 {
      assert IsBlank(lines[0]);
      LeadingBlanksUnique(lines[1..], n - 1);
    }
  }

  /** `pairwise(xs, d)`: each element paired with its successor, the last one with `d`. */
  function Pairwise<T>(xs: seq<T>, d: T): (r: seq<(T, T)>)
    ensures |r| == |xs|
    ensures forall k :: 0 <= k < |xs| - 1 ==> r[k] == (xs[k], xs[k + 1])
    ensures |xs| > 0 ==> r[|xs| - 1] == (xs[|xs| - 1], d)
  {
    if |xs| == 0 then []
    else if |xs| == 1 then [(xs[0], d)]
    else [(xs[0], xs[1])] + Pairwise(xs[1..], d)
  }

  /** The length of the longest common prefix of `a` and `b`. */
  function CommonPrefix(a: string, b: string): (n: nat)
    ensures n <= |a| && n <= |b|
    ensures a[..n] == b[..n]
    ensures n == |a| || n == |b| || a[n] != b[n]
  {
    if |a| == 0 || |b| == 0 || a[0] != b[0] then 0
    else
      var m := CommonPrefix(a[1..], b[1..]);
      assert a[..m + 1] == [a[0]] + a[1..][..m];
      assert b[..m + 1] == [b[0]] + b[1..][..m];
      1 + m
  }

  /** Every common prefix is at most as long as the longest one. */
  lemma {:induction false} CommonPrefixLongest(a: string, b: string, c: string)
    requires c <= a && c <= b
    ensures |c| <= CommonPrefix(a, b)
  {
    if |c| > 0 {
      assert a[0] == c[0] == b[0];
      CommonPrefixLongest(a[1..], b[1..], c[1..]);
    }
  }

  /** `common_prefix_length`: walks both strings together and returns at the first
      difference, or the shorter length when one is a prefix of the other. */
  method CommonPrefixLength(a: string, b: string) returns (common: nat)
    ensures common == CommonPrefix(a, b)
  {
    common := 0;
    while common < |a| && common < |b|
      invariant common <= |a| && common <= |b|
      invariant a[..common] == b[..common]
    {
      if a[common] != b[common] {
        CommonPrefixUnique(a, b, common);
        return;
      }
      assert a[..common + 1] == a[..common] + [a[common]];
      assert b[..common + 1] == b[..common] + [b[common]];
      common := common + 1;
    }
    CommonPrefixUnique(a, b, common);
  }

  /** Any position where the two strings agree before and differ (or one ends) is
      the common prefix length. */
  lemma {:induction false} CommonPrefixUnique(a: string, b: string, n: nat)
    requires n <= |a| && n <= |b| && a[..n] == b[..n]
    requires n == |a| || n == |b| || a[n] != b[n]
    ensures CommonPrefix(a, b) == n
  {
    if n > 0 {
      assert a[0] == a[..n][0] && b[0] == b[..n][0];
      assert a[1..][..n - 1] == a[..n][1..] && b[1..][..n - 1] == b[..n][1..];
      CommonPrefixUnique(a[1..], b[1..], n - 1);
    }
  }

  /** The examples the unit tests give for `common_prefix_length`. */
  lemma CommonPrefixExamples()
    ensures CommonPrefix("abcd", "abce") == 3
    ensures CommonPrefix("abcd", "cdef") == 0
    ensures CommonPrefix("abcd", "ab") == 2
    ensures CommonPrefix("abcd", "") == 0
  {
    CommonPrefixUnique("abcd", "abce", 3);
    CommonPrefixUnique("abcd", "ab", 2);
  }

  /** `strip_non_alphanumeric`: removes every non-word character and every underscore. */
  function StripNonAlphanumeric(s: string): (r: string)
    ensures forall i :: 0 <= i < |r| ==> IsAlnum(r[i])
    ensures |r| <= |s|
    ensures (forall i :: 0 <= i < |s| ==> IsAlnum(s[i])) ==> r == s
    ensures (forall i :: 0 <= i < |s| ==> !IsAlnum(s[i])) ==> r == ""
  {
    if |s| == 0 then ""
    else (if IsAlnum(s[0]) then [s[0]] else "") + StripNonAlphanumeric(s[1..])
  }

  /** Stripping works character by character, so it distributes over concatenation. */
  lemma {:induction false} StripNonAlphanumericAppend(a: string, b: string)
    ensures StripNonAlphanumeric(a + b) == StripNonAlphanumeric(a) + StripNonAlphanumeric(b)
  {
    if |a| > 0 {
      assert (a + b)[1..] == a[1..] + b;
      StripNonAlphanumericAppend(a[1..], b);
    } else {
      assert a + b == b;
    }
  }

  /** `leading_space`: the maximal whitespace prefix, so that `s` is that prefix
      followed by its left-stripped remainder. */
  function LeadingSpace(s: string): (r: string)
    ensures r <= s && AllSpace(r)
    ensures |r| == |s| || !IsSpace(s[|r|])
    ensures s == r + LStrip(s)
  {
    LStripSplit(s);
    s[..|s| - |LStrip(s)|]
  }

  predicate IsLeadingWordChar(c: char) { IsWordChar(c) || c == ' ' }

  /** `get_leading_words`: the longest prefix of the stripped line made of word
      characters and spaces. */
  function GetLeadingWords(line: string): (r: string)
    ensures r <= Strip(line)
    ensures forall i :: 0 <= i < |r| ==> IsLeadingWordChar(r[i])
    ensures |r| == |Strip(line)| || !IsLeadingWordChar(Strip(line)[|r|])
  {
    LeadingWordPrefix(Strip(line))
  }

  function LeadingWordPrefix(s: string): (r: string)
    ensures r <= s
    ensures forall i :: 0 <= i < |r| ==> IsLeadingWordChar(r[i])
    ensures |r| == |s| || !IsLeadingWordChar(s[|r|])
  {
    if |s| == 0 || !IsLeadingWordChar(s[0]) then "" else [s[0]] + LeadingWordPrefix(s[1..])
  }

  /** `is_dunder`: the name starts and ends with two underscores. */
  predicate IsDunder(name: string) {
    StartsWith(name, "__") && EndsWith(name, "__")
  }
}
