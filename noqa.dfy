/** The suppression-comment grammar of `utils.py`: which error codes a `# noqa`
    or `# pydoclint: noqa` comment switches off, as a set of codes or `{"all"}`.
    Each regular expression of the source is written out as a scan over positions
    of the line; the lines are the ones `str.splitlines()` produces, so none of
    them holds a line break. */
module Noqa {
  import opened Basics
  import opened PyStr

  /** The character class `[\sA-Z\d,]` of an error-code list. */
  predicate IsListChar(c: char) {
    IsSpace(c) || IsUpperAscii(c) || IsDigit(c) || c == ','
  }

  /** `\s*` from position `i`: the first position at or after `i` that is not
      whitespace. */
  function SkipSpace(s: string, i: nat): (j: nat)
    requires i <= |s|
    ensures i <= j <= |s|
    ensures j == |s| || !IsSpace(s[j])
    decreases |s| - i
  {
    if i < |s| && IsSpace(s[i]) then SkipSpace(s, i + 1) else i
  }

  /** Everything `SkipSpace` steps over is whitespace. */
  lemma {:induction false} SkipSpaceSkipsSpace(s: string, i: nat)
    requires i <= |s|
    ensures forall k :: i <= k < SkipSpace(s, i) ==> IsSpace(s[k])
    decreases |s| - i
  {
    if i < |s| && IsSpace(s[i]) {
      SkipSpaceSkipsSpace(s, i + 1);
    }
  }

  /** `\d*` from position `i`. */
  function SkipDigits(s: string, i: nat): (j: nat)
    requires i <= |s|
    ensures i <= j <= |s|
    ensures j == |s| || !IsDigit(s[j])
    decreases |s| - i
  {
    if i < |s| && IsDigit(s[i]) then SkipDigits(s, i + 1) else i
  }

  lemma {:induction false} SkipDigitsSkipsDigits(s: string, i: nat)
    requires i <= |s|
    ensures forall k :: i <= k < SkipDigits(s, i) ==> IsDigit(s[k])
    decreases |s| - i
  {
    if i < |s| && IsDigit(s[i]) {
      SkipDigitsSkipsDigits(s, i + 1);
    }
  }

  /** `[\sA-Z\d,]*` from position `i`. */
  function SkipList(s: string, i: nat): (j: nat)
    requires i <= |s|
    ensures i <= j <= |s|
    ensures j == |s| || !IsListChar(s[j])
    decreases |s| - i
  {
    if i < |s| && IsListChar(s[i]) then SkipList(s, i + 1) else i
  }

  lemma {:induction false} SkipListSkipsList(s: string, i: nat)
    requires i <= |s|
    ensures forall k :: i <= k < SkipList(s, i) ==> IsListChar(s[k])
    decreases |s| - i
  {
    if i < |s| && IsListChar(s[i]) {
      SkipListSkipsList(s, i + 1);
    }
  }

  /** The literal `w` occurs at position `i`. */
  predicate WordAt(s: string, i: nat, w: string) {
    i + |w| <= |s| && s[i..i + |w|] == w
  }

  /** `D\d{0,3}\b` matches at position `i` of `t`: a `D`, at most three digits that
      are all the digits following it, and then the end of `t` or a non-word
      character. Fewer digits never help, since a digit is itself a word character. */
  predicate CodeAt(t: string, i: nat)
    requires i < |t|
  {
    t[i] == 'D' &&
    var e := SkipDigits(t, i + 1);
    e - i <= 4 && (e == |t| || !IsWordChar(t[e]))
  }

  /** The code `findall` reports for a match at position `i`. */
  function CodeFrom(t: string, i: nat): string
    requires i < |t|
  {
    t[i..SkipDigits(t, i + 1)]
  }

  /** The codes of the matches that start below `n`. */
  function CodesBelow(t: string, n: nat): set<string>
    requires n <= |t|
  {
    if n == 0 then {}
    else CodesBelow(t, n - 1) + (if CodeAt(t, n - 1) then {CodeFrom(t, n - 1)} else {})
  }

  /** `set(re.findall(r"D\d{0,3}\b", t))` */
  function CodesIn(t: string): set<string> {
    CodesBelow(t, |t|)
  }

  /** A string is among the codes below `n` exactly when a match below `n` reports it. */
  lemma {:induction false} CodesBelowMatches(t: string, n: nat, c: string)
    requires n <= |t|
    ensures c in CodesBelow(t, n) <==> exists i :: 0 <= i < n && CodeAt(t, i) && c == CodeFrom(t, i)
  {
    if n > 0 {
      CodesBelowMatches(t, n - 1, c);
    }
  }

  /** A code is a `D` followed by at most three digits. */
  predicate IsCode(c: string) {
    1 <= |c| <= 4 && c[0] == 'D' && forall k :: 1 <= k < |c| ==> IsDigit(c[k])
  }

  /** Every string `findall` collects is a code. */
  lemma CodesAreCodes(t: string)
    ensures forall c :: c in CodesIn(t) ==> IsCode(c)
  {
    forall c | c in CodesIn(t) ensures IsCode(c) {
      CodesBelowMatches(t, |t|, c);
      var i :| 0 <= i < |t| && CodeAt(t, i) && c == CodeFrom(t, i);
      SkipDigitsSkipsDigits(t, i + 1);
      forall k | 1 <= k < |c| ensures IsDigit(c[k]) {
        assert c[k] == t[i + k];
      }
    }
  }

  /** The loops `for error_code in re.findall(r"D\d{0,3}\b", match):
      error_codes_to_skip.add(error_code)`: scans `t` once and adds the code found
      at each position. */
  method CollectCodes(t: string, into: set<string>) returns (codes: set<string>)
    ensures codes == into + CodesIn(t)
  {
    codes := into;
    var i := 0;
    while i < |t|
      invariant 0 <= i <= |t|
      invariant codes == into + CodesBelow(t, i)
    {
      if CodeAt(t, i) {
        codes := codes + {CodeFrom(t, i)};
      }
      i := i + 1;
    }
  }

  /** A `D` followed by a digit starts at position `j`. */
  predicate DigitCodeAt(s: string, j: nat) {
    j + 1 < |s| && s[j] == 'D' && IsDigit(s[j + 1])
  }

  /** The last start of a `D` followed by a digit that lies, with its digit, in
      `[lo, hi)`. */
  function LastDigitCode(s: string, lo: nat, hi: nat): (r: Option<nat>)
    requires lo <= hi <= |s|
    ensures r.Some? ==> lo <= r.value && r.value + 1 < hi && DigitCodeAt(s, r.value)
    decreases hi
  {
    if hi < lo + 2 then None
    else if DigitCodeAt(s, hi - 2) then Some(hi - 2)
    else LastDigitCode(s, lo, hi - 1)
  }

  /** `LastDigitCode` finds the last such position, and finds none only when there is none. */
  lemma {:induction false} LastDigitCodeIsLast(s: string, lo: nat, hi: nat)
    requires lo <= hi <= |s|
    ensures LastDigitCode(s, lo, hi).Some? ==>
              forall j :: LastDigitCode(s, lo, hi).value < j && j + 1 < hi ==> !DigitCodeAt(s, j)
    ensures LastDigitCode(s, lo, hi).None? <==> forall j :: lo <= j && j + 1 < hi ==> !DigitCodeAt(s, j)
    decreases hi
  {
    if hi >= lo + 2 && !DigitCodeAt(s, hi - 2) {
      LastDigitCodeIsLast(s, lo, hi - 1);
    }
  }

  /** What `[\sA-Z\d,]*D\d+` matches from position `e`: the greedy class run backs
      off to its last `D` followed by a digit, and `\d+` then takes all the digits. */
  function ListFrom(s: string, e: nat): (r: Option<string>)
    requires e <= |s|
    ensures r.Some? ==> |r.value| >= 2
  {
    match LastDigitCode(s, e, SkipList(s, e))
    case None => None
    case Some(j) => Some(s[e..SkipDigits(s, j + 1)])
  }

  /** The list matches exactly when the run of list characters from `e` holds a
      `D` followed by a digit; the match then ends with a digit. */
  lemma ListFromMatches(s: string, e: nat)
    requires e <= |s|
    ensures ListFrom(s, e).None? <==> forall j :: e <= j && j + 1 < SkipList(s, e) ==> !DigitCodeAt(s, j)
    ensures ListFrom(s, e).Some? ==> IsDigit(ListFrom(s, e).value[|ListFrom(s, e).value| - 1])
  {
    LastDigitCodeIsLast(s, e, SkipList(s, e));
    match LastDigitCode(s, e, SkipList(s, e))
    case None =>
    case Some(j) =>
      var d := SkipDigits(s, j + 1);
      SkipDigitsSkipsDigits(s, j + 1);
      assert s[e..d][d - e - 1] == s[d - 1];
  }

  /** `^\s*#\s*pydoclint\s*:\s*noqa\s*$` matches the line. Each `\s*` is followed
      by a non-space literal, so it always takes the whole whitespace run. */
  predicate ModuleIgnoresAll(line: string) {
    var a := SkipSpace(line, 0);
    a < |line| && line[a] == '#' &&
    var b := SkipSpace(line, a + 1);
    WordAt(line, b, "pydoclint") &&
    var c := SkipSpace(line, b + 9);
    c < |line| && line[c] == ':' &&
    var d := SkipSpace(line, c + 1);
    WordAt(line, d, "noqa") && SkipSpace(line, d + 4) == |line|
  }

  /** The match of `^\s*#\s*noqa\s*:[\sA-Z\d,]*D\d+` on a module line, from the
      list on (the `# noqa:` before it holds no `D`). */
  function ModuleLineList(line: string): Option<string> {
    var a := SkipSpace(line, 0);
    if a < |line| && line[a] == '#' then
      var b := SkipSpace(line, a + 1);
      if WordAt(line, b, "noqa") then
        var c := SkipSpace(line, b + 4);
        if c < |line| && line[c] == ':' then ListFrom(line, c + 1) else None
      else None
    else None
  }

  function ModuleLineCodes(line: string): set<string> {
    match ModuleLineList(line)
    case None => {}
    case Some(t) => CodesIn(t)
  }

  /** The codes of all specific module suppressions among the first `n` lines. */
  function ModuleCodes(lines: seq<string>, n: nat): set<string>
    requires n <= |lines|
  {
    if n == 0 then {} else ModuleCodes(lines, n - 1) + ModuleLineCodes(lines[n - 1])
  }

  /** No line below `n` is a `# pydoclint: noqa` comment. */
  predicate NoneIgnoresAll(lines: seq<string>, n: nat)
    requires n <= |lines|
  {
    forall k :: 0 <= k < n ==> !ModuleIgnoresAll(lines[k])
  }

  /** What `get_error_codes_to_skip` returns for a module: `{"all"}` as soon as one
      line is a `# pydoclint: noqa` comment, otherwise the union of the codes of
      all `# noqa: ...` lines. */
  function ModuleSuppressions(lines: seq<string>): set<string> {
    if NoneIgnoresAll(lines, |lines|) then ModuleCodes(lines, |lines|) else {"all"}
  }

  /** The source's scan of the module from line `i` on, holding the codes
      collected so far. */
  function ModuleScan(lines: seq<string>, i: nat, codes: set<string>): set<string>
    requires i <= |lines|
    decreases |lines| - i
  {
    if i == |lines| then codes
    else if ModuleIgnoresAll(lines[i]) then {"all"}
    else ModuleScan(lines, i + 1, codes + ModuleLineCodes(lines[i]))
  }

  /** Scanning from any line that the scan reaches gives the declarative answer:
      the early return is `{"all"}` exactly when some line ignores everything. */
  lemma {:induction false} ModuleScanIsSuppressions(lines: seq<string>, i: nat)
    requires i <= |lines| && NoneIgnoresAll(lines, i)
    ensures ModuleScan(lines, i, ModuleCodes(lines, i)) == ModuleSuppressions(lines)
    decreases |lines| - i
  {
    if i < |lines| && !ModuleIgnoresAll(lines[i]) {
      assert NoneIgnoresAll(lines, i + 1);
      ModuleScanIsSuppressions(lines, i + 1);
    }
  }

  /** The module branch of `get_error_codes_to_skip`, with its early return. */
  method GetModuleSuppressions(lines: seq<string>) returns (codes: set<string>)
    ensures codes == ModuleSuppressions(lines)
  {
    ModuleScanIsSuppressions(lines, 0);
    codes := {};
    var i := 0;
    while i < |lines|
      invariant 0 <= i <= |lines|
      invariant ModuleScan(lines, i, codes) == ModuleSuppressions(lines)
    {
      if ModuleIgnoresAll(lines[i]) {
        return {"all"};
      }
      codes := AddModuleLineCodes(lines[i], codes);
      i := i + 1;
    }
  }

  /** One pass of the module loop over a line that is not `# pydoclint: noqa`:
      the `findall` over the matched list, when the line holds one. */
  method AddModuleLineCodes(line: string, into: set<string>) returns (codes: set<string>)
    ensures codes == into + ModuleLineCodes(line)
  {
    codes := into;
    var found := ModuleLineList(line);
    if found.Some? {
      codes := CollectCodes(found.value, codes);
    }
  }

  /** The codes one module line contributes are codes. */
  lemma ModuleLineCodesAreCodes(line: string)
    ensures forall c :: c in ModuleLineCodes(line) ==> IsCode(c)
  {
    var found := ModuleLineList(line);
    if found.Some? {
      CodesAreCodes(found.value);
    }
  }

  /** Specific module suppressions are codes only, so they can never read as "all". */
  lemma {:induction false} ModuleCodesAreCodes(lines: seq<string>, n: nat)
    requires n <= |lines|
    ensures forall c :: c in ModuleCodes(lines, n) ==> IsCode(c)
    ensures "all" !in ModuleCodes(lines, n)
  {
    if n > 0 {
      ModuleCodesAreCodes(lines, n - 1);
      ModuleLineCodesAreCodes(lines[n - 1]);
    }
  }

  /** `#\s*noqa(\s*$|\s*#)` matches at position `h`. */
  predicate IgnoresAllAt(line: string, h: nat)
    requires h < |line|
  {
    line[h] == '#' &&
    var b := SkipSpace(line, h + 1);
    WordAt(line, b, "noqa") &&
    var c := SkipSpace(line, b + 4);
    c == |line| || line[c] == '#'
  }

  /** `re.search(r".*#\s*noqa(\s*$|\s*#)", line)` succeeds. */
  predicate LineIgnoresAll(line: string) {
    exists h :: 0 <= h < |line| && IgnoresAllAt(line, h)
  }

  /** The group of `#\s*noqa\s*:\s*([\sA-Z\d,]*D\d+)` when it matches at `h`. */
  function ListAt(line: string, h: nat): Option<string>
    requires h < |line|
  {
    if line[h] == '#' then
      var b := SkipSpace(line, h + 1);
      if WordAt(line, b, "noqa") then
        var c := SkipSpace(line, b + 4);
        if c < |line| && line[c] == ':' then ListFrom(line, SkipSpace(line, c + 1)) else None
      else None
    else None
  }

  /** The last position below `n` where `p` holds. */
  function LastBelow(p: nat -> bool, n: nat): (r: Option<nat>)
    ensures r.Some? ==> r.value < n && p(r.value)
    decreases n
  {
    if n == 0 then None
    else if p(n - 1) then Some(n - 1)
    else LastBelow(p, n - 1)
  }

  /** `LastBelow` finds the last position where `p` holds, and none only when
      `p` holds nowhere below `n`. */
  lemma {:induction false} LastBelowIsLast(p: nat -> bool, n: nat)
    ensures LastBelow(p, n).Some? ==> forall g :: LastBelow(p, n).value < g < n ==> !p(g)
    ensures LastBelow(p, n).None? <==> forall h :: 0 <= h < n ==> !p(h)
    decreases n
  {
    if n > 0 && !p(n - 1) {
      LastBelowIsLast(p, n - 1);
    }
  }

  /** The positions of a line from which `#\s*noqa\s*:\s*([\sA-Z\d,]*D\d+)` matches. */
  function ListStarts(line: string): nat -> bool {
    (h: nat) => h < |line| && ListAt(line, h).Some?
  }

  /** The match of the leading greedy `.*`: the last position below `n` from which
      the rest of the pattern matches. */
  function LastListBelow(line: string, n: nat): (r: Option<nat>)
    ensures r.Some? ==> r.value < n && r.value < |line| && ListAt(line, r.value).Some?
  {
    LastBelow(ListStarts(line), n)
  }

  /** `_get_line_noqa` as a value: `{"all"}` for a bare `# noqa` comment, otherwise
      the codes of the last `# noqa: ...` list on the line. */
  function LineSuppressions(line: string): set<string> {
    if LineIgnoresAll(line) then {"all"}
    else match LastListBelow(line, |line|)
      case None => {}
      case Some(h) => CodesIn(ListAt(line, h).value)
  }

  /** `_get_line_noqa`, with the set filled by the code-collecting loop. */
  method GetLineSuppressions(line: string) returns (codes: set<string>)
    ensures codes == LineSuppressions(line)
  {
    var h := 0;
    while h < |line|
      invariant 0 <= h <= |line|
      invariant forall g :: 0 <= g < h ==> !IgnoresAllAt(line, g)
    {
      if IgnoresAllAt(line, h) {
        return {"all"};
      }
      h := h + 1;
    }
    var found := LastListBelow(line, |line|);
    codes := {};
    if found.Some? {
      codes := CollectCodes(ListAt(line, found.value).value, codes);
    }
  }

  /** Inline suppressions hold "all" only when the whole line is switched off. */
  lemma LineSuppressionsShape(line: string)
    ensures LineSuppressions(line) == {"all"} || forall c :: c in LineSuppressions(line) ==> IsCode(c)
  {
    if !LineIgnoresAll(line) {
      var found := LastListBelow(line, |line|);
      if found.Some? {
        CodesAreCodes(ListAt(line, found.value).value);
      }
    }
  }

  /** A line of a definition head: after leading whitespace it starts with
      `def`, `async def` or `class` (so `default = 1` qualifies too). */
  predicate IsDefinitionLine(line: string) {
    var s := LStrip(line);
    StartsWith(s, "def") || StartsWith(s, "async def") || StartsWith(s, "class")
  }

  function FirstDefinitionLine(lines: seq<string>): (r: Option<nat>)
    ensures r.Some? ==> r.value < |lines| && IsDefinitionLine(lines[r.value])
                        && forall k :: 0 <= k < r.value ==> !IsDefinitionLine(lines[k])
    ensures r.None? <==> forall k :: 0 <= k < |lines| ==> !IsDefinitionLine(lines[k])
  {
    if |lines| == 0 then None
    else if IsDefinitionLine(lines[0]) then Some(0)
    else match FirstDefinitionLine(lines[1..])
      case None => None
      case Some(k) => Some(k + 1)
  }

  /** `_get_definition_line`: the first definition line among the file's lines
      `lineno` to `endLineno` (1-based, inclusive), or a ValueError. */
  function DefinitionLine(fileLines: seq<string>, name: string, lineno: int, endLineno: int): (r: Result<string>)
    ensures r.Ok? <==> exists l :: l in Slice(fileLines, lineno - 1, endLineno) && IsDefinitionLine(l)
    ensures r.Ok? ==> r.value in Slice(fileLines, lineno - 1, endLineno) && IsDefinitionLine(r.value)
    ensures r.Err? ==> r.error == "'" + name + "' does not contain a definition line."
  {
    var span := Slice(fileLines, lineno - 1, endLineno);
    match FirstDefinitionLine(span)
    case None => Err("'" + name + "' does not contain a definition line.")
    case Some(k) => Ok(span[k])
  }
}
