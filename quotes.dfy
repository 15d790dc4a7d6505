/** The quotation rules of `old_checks/quotation.py`: D300 asks for triple
    double quotes, D301 for a raw string when the docstring holds a backslash.
    The regular expressions of the source are written out as predicates over
    positions of `raw`; as in Python's `re`, `.` does not match a line feed. */
module QuotationRules {
  import opened Basics
  import opened PyStr
  import opened Tree

  predicate IsQuote(c: char) { c == '"' || c == '\'' }

  /** `'"""' in content` */
  predicate HasTripleDouble(content: string) {
    Contains(content, "\"\"\"")
  }

  /** `.*?[uU]?[rR]?([^"]|^)"""[^"\n]` matches with its `"""` at `p`: the quotes
      are at the very start, or they follow a character other than `"` with no
      line feed before that character; the character after them is neither `"`
      nor a line feed. */
  predicate DoubleQuotesAt(raw: string, p: nat) {
    p + 3 < |raw| && raw[p..p + 3] == "\"\"\"" && raw[p + 3] != '"' && raw[p + 3] != '\n'
    && (p == 0 || (raw[p - 1] != '"' && '\n' !in raw[..p - 1]))
  }

  /** `.*?[uU]?[rR]?[^']'''[^']` matches with its `'''` at `p`. */
  predicate SingleQuotesAt(raw: string, p: nat) {
    1 <= p && p + 3 < |raw| && raw[p..p + 3] == "'''" && raw[p + 3] != '\''
    && raw[p - 1] != '\'' && '\n' !in raw[..p - 1]
  }

  /** The first regular expression matches `raw`: `'''` quotes are accepted only
      when the content itself holds `"""`. */
  predicate QuotesAccepted(content: string, raw: string) {
    if HasTripleDouble(content) then exists p :: 0 <= p < |raw| && SingleQuotesAt(raw, p)
    else exists p :: 0 <= p < |raw| && DoubleQuotesAt(raw, p)
  }

  /** A quote character at `j` with no line feed before it. */
  predicate QuoteReachable(raw: string, j: nat) {
    j < |raw| && IsQuote(raw[j]) && '\n' !in raw[..j]
  }

  /** Where `.*?[uU]?[rR]?("+|'+)` puts its group: the first quote character of
      `raw` at or after `i`, unless a line feed comes first. */
  function FirstQuote(raw: string, i: nat): (r: Option<nat>)
    requires i <= |raw| && '\n' !in raw[..i]
    requires forall k :: 0 <= k < i ==> !IsQuote(raw[k])
    ensures r.Some? ==> QuoteReachable(raw, r.value) && forall k :: 0 <= k < r.value ==> !IsQuote(raw[k])
    ensures r.None? ==> forall j :: !QuoteReachable(raw, j)
    decreases |raw| - i
  {
    if i == |raw| then None
    else if IsQuote(raw[i]) then Some(i)
    else if raw[i] == '\n' then
      assert forall j :: i < j < |raw| ==> raw[..j][i] == '\n';
      None
    else
      assert raw[..i + 1] == raw[..i] + [raw[i]];
      FirstQuote(raw, i + 1)
  }

  /** The length of the run of `c` starting at `j`: `"+` or `'+` taken greedily. */
  function RunLength(raw: string, j: nat, c: char): (n: nat)
    requires j <= |raw|
    ensures j + n <= |raw|
    ensures forall k :: j <= k < j + n ==> raw[k] == c
    ensures j + n == |raw| || raw[j + n] != c
    decreases |raw| - j
  {
    if j < |raw| && raw[j] == c then 1 + RunLength(raw, j + 1, c) else 0
  }

  /** The quotes the docstring opens with, as the third regular expression finds
      them; its `assert` fails when `raw` has no quote before its first line feed. */
  function IllegalQuotes(raw: string): (r: Result<string>)
    ensures r.Err? <==> forall j :: !QuoteReachable(raw, j)
    ensures r.Ok? ==> |r.value| > 0 && forall k :: 0 <= k < |r.value| ==> r.value[k] == r.value[0]
    ensures r.Ok? ==> exists j :: 0 <= j < |raw| && QuoteReachable(raw, j) && r.value[0] == raw[j] && r.value <= raw[j..]
  {
    match FirstQuote(raw, 0)
    case None => Err("AssertionError")
    case Some(j) =>
      var n := RunLength(raw, j, raw[j]);
      var run := raw[j..j + n];
      assert run <= raw[j..];
      Ok(run)
  }

  /** `check_triple_double_quotes` (D300): nothing when the accepted quotes are
      found, or when the first quotes are exactly `"""`; otherwise the first run
      of quotes is reported. */
  function TripleDoubleQuotes(content: string, raw: string): (r: Result<Option<Violation>>)
    ensures QuotesAccepted(content, raw) ==> r == Ok(None)
    ensures r.Err? <==> !QuotesAccepted(content, raw) && forall j :: !QuoteReachable(raw, j)
    ensures r.Ok? && r.value.Some? ==>
              !QuotesAccepted(content, raw) && IllegalQuotes(raw).Ok?
              && IllegalQuotes(raw).value != "\"\"\""
              && r.value.value == Violation("D300", [Str(IllegalQuotes(raw).value)])
  {
    if QuotesAccepted(content, raw) then Ok(None)
    else match IllegalQuotes(raw)
      case Err(e) => Err(e)
      case Ok(quotes) => if quotes == "\"\"\"" then Ok(None) else Ok(Some(Violation("D300", [Str(quotes)])))
  }

  /** A docstring opened with `"""` and some text on its first line passes. */
  lemma DoubleQuotedDocstringPasses(content: string, raw: string, prefix: string, rest: string)
    requires !HasTripleDouble(content)
    requires raw == prefix + "\"\"\"" + rest
    requires '\n' !in prefix && forall k :: 0 <= k < |prefix| ==> prefix[k] != '"'
    requires |rest| > 0 && rest[0] != '"' && rest[0] != '\n'
    ensures TripleDoubleQuotes(content, raw) == Ok(None)
  {
    var p := |prefix|;
    assert raw[p..p + 3] == "\"\"\"";
    assert raw[p + 3] == rest[0];
    if p > 0 {
      assert raw[p - 1] == prefix[p - 1];
      assert raw[..p - 1] == prefix[..p - 1];
    }
    assert DoubleQuotesAt(raw, p);
  }

  /** A docstring opened with `'''`, that has no double quote anywhere and a
      content without `"""`, is reported with those three quotes. */
  lemma SingleQuotedDocstringReported(content: string, raw: string, rest: string)
    requires !HasTripleDouble(content)
    requires raw == "'''" + rest
    requires '"' !in raw
    requires |rest| > 0 && rest[0] != '\''
    ensures TripleDoubleQuotes(content, raw) == Ok(Some(Violation("D300", [Str("'''")])))
  {
    forall p | 0 <= p < |raw| ensures !DoubleQuotesAt(raw, p) {
      if p + 3 < |raw| {
        assert raw[p] in raw;
      }
    }
    assert QuoteReachable(raw, 0);
    assert raw[3] == rest[0];
    var n := RunLength(raw, 0, '\'');
    assert n == 3;
  }

  // ------------------------------------------------------------------ D301

  /** `\\[^\nuN]` occurs in the content: a backslash that is neither a line
      continuation nor the start of a `\u` or `\N` escape. */
  predicate HasBackslashEscape(content: string) {
    exists i :: 0 <= i < |content| - 1 && content[i] == '\\' && content[i + 1] !in {'\n', 'u', 'N'}
  }

  /** `raw.strip().startswith(('r', 'ur'))`: only lower-case prefixes count. */
  predicate IsRawString(raw: string) {
    StartsWith(Strip(raw), "r") || StartsWith(Strip(raw), "ur")
  }

  /** `check_backslashes` (D301) */
  function Backslashes(content: string, raw: string): (r: Option<Violation>)
    ensures r.Some? <==> HasBackslashEscape(content) && !IsRawString(raw)
    ensures r.Some? ==> r.value == Violation("D301", [])
  {
    if !HasBackslashEscape(content) then None
    else if IsRawString(raw) then None
    else Some(Violation("D301", []))
  }

  /** A backslash escape in a docstring written `"""…` is reported, and the same
      docstring written `r"""…` is not. */
  lemma RawPrefixSilencesBackslashes(content: string, rest: string)
    requires HasBackslashEscape(content)
    requires |rest| > 0 && !IsSpace(rest[|rest| - 1])
    ensures Backslashes(content, "\"\"\"" + rest).Some?
    ensures Backslashes(content, "r\"\"\"" + rest).None?
  {
    var plain := "\"\"\"" + rest;
    var raw := "r\"\"\"" + rest;
    assert plain[|plain| - 1] == rest[|rest| - 1];
    assert raw[|raw| - 1] == rest[|rest| - 1];
    StripUnchanged(plain);
    StripUnchanged(raw);
  }
}
