/** The whitespace rules D2xx and the empty-docstring rule D419: indentation
    (`checks/indentation.py`), blank lines around the docstring
    (`checks/blank_lines_*_docstring.py`,
    `checks/blank_line_between_summary_and_content.py`), where the summary
    starts (`checks/summary_start.py`), surrounding spaces, one-liners and the
    closing quotes (`old_checks/`). */
module WhitespaceRules {
  import opened Basics
  import opened PyStr
  import opened Utils
  import opened Tree
  import opened DocstringView

  // ---------------------------------------------------------------- indentation

  /** Python's `min` over strings: the first element, replaced by every later one
      that is smaller. */
  function MinString(xs: seq<string>): (r: string)
    requires |xs| > 0
    ensures r in xs
    ensures forall x :: x in xs ==> !Less(x, r)
  {
    if |xs| == 1 then
      LessIrreflexive(xs[0]);
      xs[0]
    else
      var m := MinString(xs[..|xs| - 1]);
      var last := xs[|xs| - 1];
      assert forall x :: x in xs ==> x in xs[..|xs| - 1] || x == last;
      if Less(last, m) then
        forall x | x in xs ensures !Less(x, last) {
          if x in xs[..|xs| - 1] {
            if Less(x, last) { LessTransitive(x, last, m); }
          } else {
            LessIrreflexive(last);
          }
        }
        last
      else m
  }

  /** `min(xs) < bound` holds exactly when some element is below `bound`. */
  lemma MinBelowIff(xs: seq<string>, bound: string)
    requires |xs| > 0
    ensures Less(MinString(xs), bound) <==> exists x :: x in xs && Less(x, bound)
  {
    var m := MinString(xs);
    if x :| x in xs && Less(x, bound) {
      LessTotal(m, x);
      if m != x { LessTransitive(m, x, bound); }
    }
  }

  /** `min(xs) > bound` holds exactly when every element is above `bound`. */
  lemma MinAboveIff(xs: seq<string>, bound: string)
    requires |xs| > 0
    ensures Less(bound, MinString(xs)) <==> forall x :: x in xs ==> Less(bound, x)
  {
    var m := MinString(xs);
    if Less(bound, m) {
      forall x | x in xs ensures Less(bound, x) {
        LessTotal(m, x);
        if m != x { LessTransitive(bound, m, x); }
      }
    }
  }

  predicate HasTab(s: string) { '\t' in s }

  /** D206: the indentation uses a tab somewhere. */
  predicate TabIndented(indent: string, lineIndents: seq<string>) {
    HasTab(indent) || exists k :: 0 <= k < |lineIndents| && HasTab(lineIndents[k])
  }

  /** D207: the least line indent is below the docstring's indent. */
  predicate UnderIndented(indent: string, lineIndents: seq<string>)
    requires |lineIndents| > 0
  {
    Less(MinString(lineIndents), indent)
  }

  /** D208: the lines before the last are all over-indented, or the last one is. */
  predicate OverIndented(indent: string, lineIndents: seq<string>)
    requires |lineIndents| > 0
  {
    (|lineIndents| > 1 && Less(indent, MinString(lineIndents[..|lineIndents| - 1])))
    || Less(indent, lineIndents[|lineIndents| - 1])
  }

  /** D207 fires exactly when some line is indented less than the quotes. */
  lemma UnderIndentedIff(indent: string, lineIndents: seq<string>)
    requires |lineIndents| > 0
    ensures UnderIndented(indent, lineIndents) <==> exists k :: 0 <= k < |lineIndents| && Less(lineIndents[k], indent)
  {
    MinBelowIff(lineIndents, indent);
    if k :| 0 <= k < |lineIndents| && Less(lineIndents[k], indent) {
      assert lineIndents[k] in lineIndents;
    }
  }

  /** A docstring whose every line is indented exactly like its quotes (which are
      preceded by spaces only) passes all three indentation rules. */
  lemma ConsistentIndentPasses(indent: string, lineIndents: seq<string>)
    requires |lineIndents| > 0
    requires forall i :: 0 <= i < |indent| ==> indent[i] == ' '
    requires forall k :: 0 <= k < |lineIndents| ==> lineIndents[k] == indent
    ensures !TabIndented(indent, lineIndents)
    ensures !UnderIndented(indent, lineIndents)
    ensures !OverIndented(indent, lineIndents)
  {
    LessIrreflexive(indent);
    assert MinString(lineIndents) in lineIndents;
    if |lineIndents| > 1 {
      assert MinString(lineIndents[..|lineIndents| - 1]) in lineIndents[..|lineIndents| - 1];
    }
  }

  /** The class-based rules D206, D207 and D208 (`check_implementation`): nothing
      when no line counts for `line_indents`; otherwise the docstring's `indent`
      is needed, and the source fails when the first line shows no triple quote. */
  function IndentationImplementation(code: string, d: Docstring): (r: Raised)
    requires code == "D206" || code == "D207" || code == "D208"
    ensures LineIndents(d.raw) == [] ==> r == Passed
    ensures r.Crashed? <==> LineIndents(d.raw) != [] && Indent(d.raw).Err?
    ensures r.Raised? ==> r.violation == Violation(code, [])
    ensures r.Raised? <==>
              LineIndents(d.raw) != [] && Indent(d.raw).Ok? &&
              (if code == "D206" then TabIndented(Indent(d.raw).value, LineIndents(d.raw))
               else if code == "D207" then UnderIndented(Indent(d.raw).value, LineIndents(d.raw))
               else OverIndented(Indent(d.raw).value, LineIndents(d.raw)))
  {
    var lineIndents := LineIndents(d.raw);
    if |lineIndents| == 0 then Passed
    else match Indent(d.raw)
      case Err(e) => Crashed(e)
      case Ok(indent) =>
        var fires :=
          if code == "D206" then TabIndented(indent, lineIndents)
          else if code == "D207" then UnderIndented(indent, lineIndents)
          else OverIndented(indent, lineIndents);
        if fires then Raised(Violation(code, [])) else Passed
  }

  /** The generator form of the same three rules: D206, then D208, then D207. */
  function IndentationGenerator(d: Docstring): (r: Yielded)
    ensures r.Many?
    ensures r.fault.Some? <==> IndentationImplementation("D206", d).Crashed?
    ensures r.fault.Some? ==> r.items == []
    ensures r.fault.None? ==>
              r.items == ClassRuleFired("D206", d) + ClassRuleFired("D208", d) + ClassRuleFired("D207", d)
  {
    var lineIndents := LineIndents(d.raw);
    if |lineIndents| == 0 then Many([], None)
    else match Indent(d.raw)
      case Err(e) => Many([], Some(e))
      case Ok(indent) =>
        Many((if TabIndented(indent, lineIndents) then [Violation("D206", [])] else [])
             + (if OverIndented(indent, lineIndents) then [Violation("D208", [])] else [])
             + (if UnderIndented(indent, lineIndents) then [Violation("D207", [])] else []),
             None)
  }

  /** The class-based indentation rule `code` as a list of what it raises. */
  function ClassRuleFired(code: string, d: Docstring): seq<Violation>
    requires code == "D206" || code == "D207" || code == "D208"
  {
    if IndentationImplementation(code, d).Raised? then [Violation(code, [])] else []
  }

  // ------------------------------------------------------ blank lines after

  /** The source lines from the one after the docstring's last line up to one past
      the node's last line (`_get_stuff_after_docstring`). */
  function LinesAfter(file: seq<string>, docEnd: int, nodeEnd: int): (r: seq<string>)
    ensures |r| == if nodeEnd + 1 - docEnd > 0 then nodeEnd + 1 - docEnd else 0
    ensures forall k :: 0 <= k < |r| ==> r[k] == GetLine(file, docEnd + 1 + k)
    decreases nodeEnd + 1 - docEnd
  {
    if docEnd + 1 > nodeEnd + 1 then []
    else [GetLine(file, docEnd + 1)] + LinesAfter(file, docEnd + 1, nodeEnd)
  }

  /** `_is_empty_definition` */
  predicate IsEmptyDefinition(after: seq<string>, nBlanks: nat) {
    nBlanks == 1 && |after| == 1
  }

  /** `_blank_line_followed_by_inner_function_or_class` */
  predicate BlankThenInnerDefinition(after: seq<string>, nBlanks: nat) {
    nBlanks == 1 && |after| > 1 &&
    var s := LStrip(after[1]);
    StartsWith(s, "class") || StartsWith(s, "def") || StartsWith(s, "async def") || StartsWith(s, "@")
  }

  /** D202 over the lines after a function's docstring. */
  function NoBlankAfterFunction(after: seq<string>): (r: Option<Violation>)
    ensures r.Some? <==>
              LeadingBlanks(after) > 0
              && !(LeadingBlanks(after) == 1 && |after| == 1)
              && !BlankThenInnerDefinition(after, LeadingBlanks(after))
    ensures r.Some? ==> r.value == Violation("D202", [Int(LeadingBlanks(after))])
  {
    var n := LeadingBlanks(after);
    if n == 0 then None
    else if IsEmptyDefinition(after, n) then None
    else if BlankThenInnerDefinition(after, n) then None
    else Some(Violation("D202", [Int(n)]))
  }

  /** D204 over the lines after a class's docstring. */
  function SingleBlankAfterClass(after: seq<string>): (r: Option<Violation>)
    ensures r.Some? <==> LeadingBlanks(after) != 1
    ensures r.Some? ==> r.value == Violation("D204", [Int(LeadingBlanks(after))])
  {
    var n := LeadingBlanks(after);
    if IsEmptyDefinition(after, n) then None
    else if n != 1 then Some(Violation("D204", [Int(n)]))
    else None
  }

  // ----------------------------------------------------- blank lines before

  /** Whether the file lines `lo` to `hi` (1-based, inclusive) are all blank. */
  predicate BlankRange(file: seq<string>, lo: int, hi: int) {
    forall l :: lo <= l <= hi ==> !HasContent(GetLine(file, l))
  }

  /** `_get_n_blanks_before_docstring`: walks upward from the line above the
      docstring while lines are blank, stopping above line 1. */
  method BlanksBeforeDocstring(file: seq<string>, fromLineno: int) returns (n: nat)
    ensures BlankRunAbove(file, fromLineno - 1, n)
    ensures n == BlanksAbove(file, fromLineno - 1)
  {
    n := 0;
    var line := fromLineno - 1;
    while line > 0
      invariant line == fromLineno - 1 - n
      invariant BlanksAbove(file, fromLineno - 1) == n + BlanksAbove(file, line)
      decreases line
    {
      if HasContent(GetLine(file, line)) {
        break;
      }
      BlanksAboveStep(file, line);
      n := n + 1;
      line := line - 1;
    }
    BlanksAboveStop(file, line);
    assert BlankRunAbove(file, fromLineno - 1, n) by {
      BlanksAboveSpan(file, fromLineno - 1, n);
    }
  }

  /** No blank line is counted at or above line 1, nor below a line with content. */
  lemma BlanksAboveStop(file: seq<string>, line: int)
    requires line <= 0 || HasContent(GetLine(file, line))
    ensures BlanksAbove(file, line) == 0
  {
    BlankLineAt(file, line);
  }

  /** One blank line more above. */
  lemma BlanksAboveStep(file: seq<string>, line: int)
    requires line > 0 && !HasContent(GetLine(file, line))
    ensures BlanksAbove(file, line) == 1 + BlanksAbove(file, line - 1)
  {
    BlankLineAt(file, line);
  }

  /** The `n` lines ending at `line` are blank and stay above line 1, and the
      line above them, when there is one, has content. */
  predicate BlankRunAbove(file: seq<string>, line: int, n: nat) {
    && n <= (if line > 0 then line else 0)
    && BlankRange(file, line - n + 1, line)
    && (line - n > 0 ==> HasContent(GetLine(file, line - n)))
  }

  lemma BlanksAboveSpan(file: seq<string>, line: int, n: nat)
    requires n == BlanksAbove(file, line)
    ensures BlankRunAbove(file, line, n)
  {
    var blank := BlankLineOf(file);
    RunAboveSpan(blank, line);
    forall l | line - n + 1 <= l <= line ensures !HasContent(GetLine(file, l)) {
      BlankLineAt(file, l);
    }
    if line - n > 0 {
      BlankLineAt(file, line - n);
    }
  }

  /** Whether file line `l` is blank. */
  function BlankLineOf(file: seq<string>): int -> bool {
    l => !HasContent(GetLine(file, l))
  }

  lemma BlankLineAt(file: seq<string>, l: int)
    ensures BlankLineOf(file)(l) == !HasContent(GetLine(file, l))
  {
  }

  /** The length of the run of `blank` lines ending at `line`, stopping above 1. */
  function RunAbove(blank: int -> bool, line: int): nat
    decreases if line > 0 then line else 0
  {
    if line <= 0 || !blank(line) then 0 else 1 + RunAbove(blank, line - 1)
  }

  /** The count of blank lines directly above line `line + 1`, as a recursive
      definition. */
  function BlanksAbove(file: seq<string>, line: int): nat {
    RunAbove(BlankLineOf(file), line)
  }

  /** The run stays above line 1, is all `blank`, and the line above it, when
      there is one, is not. */
  lemma {:induction false} RunAboveSpan(blank: int -> bool, line: int)
    ensures RunAbove(blank, line) <= if line > 0 then line else 0
    ensures forall l :: line - RunAbove(blank, line) < l <= line ==> blank(l)
    ensures line - RunAbove(blank, line) > 0 ==> !blank(line - RunAbove(blank, line))
    decreases if line > 0 then line else 0
  {
    if line > 0 && blank(line) {
      RunAboveSpan(blank, line - 1);
    }
  }

  /** D201: no blank line before a function's docstring. */
  function NoBlankBeforeFunction(nBlanks: nat): (r: Option<Violation>)
    ensures r.Some? <==> nBlanks > 0
    ensures r.Some? ==> r.value == Violation("D201", [Int(nBlanks)])
  {
    if nBlanks == 0 then None else Some(Violation("D201", [Int(nBlanks)]))
  }

  /** D203: exactly one blank line before a class's docstring. */
  function SingleBlankBeforeClass(nBlanks: nat): (r: Option<Violation>)
    ensures r.Some? <==> nBlanks != 1
    ensures r.Some? ==> r.value == Violation("D203", [Int(nBlanks)])
  {
    if nBlanks == 1 then None else Some(Violation("D203", [Int(nBlanks)]))
  }

  /** D211: no blank line before a class's docstring. */
  function NoBlankBeforeClass(nBlanks: nat): (r: Option<Violation>)
    ensures r.Some? <==> nBlanks != 0
    ensures r.Some? ==> r.value == Violation("D211", [Int(nBlanks)])
  {
    if nBlanks == 0 then None else Some(Violation("D211", [Int(nBlanks)]))
  }

  /** D203 and D211 contradict each other: every class gets at least one of them,
      and both when two or more blank lines precede its docstring. */
  lemma ClassBlankRulesConflict(nBlanks: nat)
    ensures SingleBlankBeforeClass(nBlanks).Some? || NoBlankBeforeClass(nBlanks).Some?
    ensures nBlanks >= 2 ==> SingleBlankBeforeClass(nBlanks).Some? && NoBlankBeforeClass(nBlanks).Some?
  {
  }

  // --------------------------------------------------------------- D205

  /** D205: one blank line between the summary and the description. */
  function BlankAfterSummary(content: string): (r: Option<Violation>)
    ensures |Split(Strip(content), '\n')| <= 1 ==> r.None?
    ensures r.Some? ==> r.value.code == "D205"
    ensures |Split(Strip(content), '\n')| > 1 ==>
              var lines := Split(Strip(content), '\n');
              (r.Some? <==> LeadingBlanks(lines[1..]) != 1)
              && (r.Some? ==> r.value.params == [Int(LeadingBlanks(lines[1..]))])
  {
    var lines := Split(Strip(content), '\n');
    if |lines| <= 1 then None
    else
      var n := LeadingBlanks(lines[1..]);
      if n == 1 then None else Some(Violation("D205", [Int(n)]))
  }

  // ------------------------------------------------------- D212 and D213

  /** D212 (`first`) or D213 (not `first`): multi-line content whose first line is
      blank, respectively has content. */
  predicate SummaryStartFires(first: bool, content: string) {
    var lines := Split(content, '\n');
    |lines| > 1 && (if first then IsBlank(lines[0]) else HasContent(lines[0]))
  }

  /** Multi-line content gets exactly one of D212 and D213; one line gets neither. */
  lemma SummaryStartExactlyOne(content: string)
    ensures |Split(content, '\n')| > 1 ==> (SummaryStartFires(true, content) != SummaryStartFires(false, content))
    ensures |Split(content, '\n')| <= 1 ==> !SummaryStartFires(true, content) && !SummaryStartFires(false, content)
  {
  }

  /** The function-based summary-start rule: D212 or D213, or nothing. */
  function MultiLineSummaryStart(content: string): (r: Option<Violation>)
    ensures r.Some? <==> |Split(content, '\n')| > 1
    ensures r == Some(Violation("D212", [])) <==> SummaryStartFires(true, content)
    ensures r == Some(Violation("D213", [])) <==> SummaryStartFires(false, content)
  {
    var lines := Split(content, '\n');
    if |lines| <= 1 then None
    else if IsBlank(lines[0]) then Some(Violation("D212", []))
    else Some(Violation("D213", []))
  }

  // --------------------------------------------------------------- D210

  /** D210 over a list of lines: the first starts with a space, or it is the
      only line and ends with one. */
  predicate SurroundedBySpace(lines: seq<string>)
    requires |lines| > 0
  {
    StartsWith(lines[0], " ") || (|lines| == 1 && EndsWith(lines[0], " "))
  }

  /** The class-based D210 reads `docstring.lines`, which come from the stripped
      content, so it never fires. */
  lemma StrippedLinesNeverSurrounded(d: Docstring)
    ensures !SurroundedBySpace(Lines(d))
  {
  }

  /** The function-based D210 reads the unstripped content's lines: only the
      space character counts, at the start of the first line or at the end of a
      single-line content. */
  function SurroundingWhitespaces(content: string): (r: Option<Violation>)
    ensures r.Some? <==>
              (|content| > 0 && content[0] == ' ') ||
              ('\n' !in content && |content| > 0 && content[|content| - 1] == ' ')
    ensures r.Some? ==> r.value == Violation("D210", [])
  {
    var lines := Split(content, '\n');
    SplitShape(content, '\n');
    SplitCount(content, '\n');
    if SurroundedBySpace(lines) then Some(Violation("D210", [])) else None
  }

  // --------------------------------------------------------------- D200

  /** The number of lines with content. */
  function CountContent(lines: seq<string>): (n: nat)
    ensures n <= |lines|
  {
    if |lines| == 0 then 0 else (if HasContent(lines[0]) then 1 else 0) + CountContent(lines[1..])
  }

  /** A single content line is the only one counted. */
  lemma {:induction false} CountContentOne(lines: seq<string>, k: nat)
    requires k < |lines| && HasContent(lines[k])
    requires forall j :: 0 <= j < |lines| && j != k ==> !HasContent(lines[j])
    ensures CountContent(lines) == 1
  {
    if k == 0 {
      CountNone(lines[1..]);
    } else {
      CountContentOne(lines[1..], k - 1);
    }
  }

  lemma {:induction false} CountNone(lines: seq<string>)
    requires forall j :: 0 <= j < |lines| ==> !HasContent(lines[j])
    ensures CountContent(lines) == 0
  {
    if |lines| > 0 { CountNone(lines[1..]); }
  }

  lemma {:induction false} CountZeroNone(lines: seq<string>)
    requires CountContent(lines) == 0
    ensures forall j :: 0 <= j < |lines| ==> !HasContent(lines[j])
  {
    if |lines| > 0 {
      CountZeroNone(lines[1..]);
      assert forall j :: 1 <= j < |lines| ==> lines[j] == lines[1..][j - 1];
    }
  }

  /** Line `k` is the one line of `lines` with content. */
  predicate SoleContentLine(lines: seq<string>, k: int) {
    0 <= k < |lines| && HasContent(lines[k]) && forall j :: 0 <= j < |lines| && j != k ==> !HasContent(lines[j])
  }

  /** Exactly one line has content when the count is one. */
  lemma {:induction false} CountContentOneIff(lines: seq<string>)
    ensures CountContent(lines) == 1 <==> exists k :: SoleContentLine(lines, k)
  {
    if exists k :: SoleContentLine(lines, k) {
      var k :| SoleContentLine(lines, k);
      CountContentOne(lines, k);
    }
    if CountContent(lines) == 1 {
      var tail := lines[1..];
      assert forall j :: 1 <= j < |lines| ==> lines[j] == tail[j - 1];
      if HasContent(lines[0]) {
        CountZeroNone(tail);
        assert SoleContentLine(lines, 0);
      } else {
        CountContentOneIff(tail);
        var k :| SoleContentLine(tail, k);
        assert SoleContentLine(lines, k + 1);
      }
    }
  }

  /** D200: a docstring with one line of text spread over several lines. */
  function OneLiner(content: string): (r: Option<Violation>)
    ensures r.Some? <==> |Split(content, '\n')| > 1 && exists k :: SoleContentLine(Split(content, '\n'), k)
    ensures r.Some? ==> r.value == Violation("D200", [Int(|Split(content, '\n')|)])
  {
    var lines := Split(content, '\n');
    CountContentOneIff(lines);
    if CountContent(lines) == 1 && |lines| > 1 then Some(Violation("D200", [Int(|lines|)])) else None
  }

  // --------------------------------------------------------------- D209

  /** D209: multi-line content whose last line holds text, so the closing
      quotes are not on a line of their own. */
  function NewlineAfterLastParagraph(content: string): (r: Option<Violation>)
    ensures r.Some? <==> |Split(content, '\n')| > 1 && HasContent(Split(content, '\n')[|Split(content, '\n')| - 1])
    ensures r.Some? ==> r.value == Violation("D209", [])
  {
    var lines := Split(content, '\n');
    if |lines| <= 1 then None
    else if IsBlank(lines[|lines| - 1]) then None
    else Some(Violation("D209", []))
  }

  // --------------------------------------------------------------- D419

  /** The class-based D419 returns its error instead of raising it, so its
      `check_implementation` always ends normally. */
  function EmptyDocstringImplementation(d: Docstring): Raised {
    Passed
  }

  /** The function-based D419: the content has no non-whitespace character. */
  function EmptyDocstring(content: string): (r: Option<Violation>)
    ensures r.Some? <==> forall i :: 0 <= i < |content| ==> IsSpace(content[i])
    ensures r.Some? ==> r.value == Violation("D419", [])
  {
    if HasContent(content) then None else Some(Violation("D419", []))
  }
}
