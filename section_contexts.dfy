/** How `checks/sections.py` finds the sections of a docstring: the lines that
    look like a section header, the ones confirmed as headers, and the body each
    confirmed section spans (`_get_section_contexts`, `_is_docstring_section`). */
module SectionContexts {
  import opened Basics
  import opened PyStr
  import opened Utils

  /** `SectionContext`: the header's leading words, the line before it, the
      header line itself, the body lines, the header's index and whether this is
      the docstring's last section. */
  datatype SectionContext = SectionContext(
    sectionName: string,
    previousLine: string,
    line: string,
    followingLines: seq<string>,
    originalIndex: nat,
    isLastSection: bool)

  const NumpySectionNames: seq<string> := [
    "Short Summary", "Extended Summary", "Parameters", "Returns", "Yields",
    "Other Parameters", "Raises", "See Also", "Notes", "References", "Examples",
    "Attributes", "Methods"]

  const GoogleSectionNames: seq<string> := [
    "Args", "Arguments", "Attention", "Attributes", "Caution", "Danger", "Error",
    "Example", "Examples", "Hint", "Important", "Keyword Args", "Keyword Arguments",
    "Methods", "Note", "Notes", "Return", "Returns", "Raises", "References",
    "See Also", "Tip", "Todo", "Warning", "Warnings", "Warns", "Yield", "Yields"]

  function LowerAll(names: seq<string>): (r: seq<string>)
    ensures |r| == |names| && forall k :: 0 <= k < |names| ==> r[k] == Lower(names[k])
  {
    if |names| == 0 then [] else [Lower(names[0])] + LowerAll(names[1..])
  }

  /** `_suspected_as_section`: the leading words of the lower-cased line are a
      lower-cased section name. */
  predicate SuspectedAsSection(line: string, names: seq<string>) {
    GetLeadingWords(Lower(line)) in LowerAll(names)
  }

  /** `lines[i - 1]`, which for the first line is the last one. */
  function PreviousLine(lines: seq<string>, i: nat): (r: string)
    requires i < |lines|
    ensures i == 0 ==> r == lines[|lines| - 1]
    ensures i > 0 ==> r == lines[i - 1]
  {
    if i == 0 then lines[|lines| - 1] else lines[i - 1]
  }

  /** The context built for a suspected header, before its body is trimmed. */
  function Candidate(lines: seq<string>, i: nat): SectionContext
    requires i < |lines|
  {
    SectionContext(GetLeadingWords(Strip(lines[i])), PreviousLine(lines, i), lines[i], lines[i + 1..], i, false)
  }

  /** The characters that, ending the previous line, close a paragraph. */
  const ParagraphEnds: set<char> := {',', ';', '.', '-', '\\', '/', ']', '}', ')'}

  /** What follows the section name on the header line, once stripped: the
      stripped line with every leading character that occurs in the stripped
      name removed (`str.lstrip` takes a set of characters). */
  function NameSuffix(c: SectionContext): string {
    Strip(LStripChars(Strip(c.line), Strip(c.sectionName)))
  }

  predicate LooksLikeSectionName(c: SectionContext) {
    IsBlank(NameSuffix(c)) || NameSuffix(c) == ":"
  }

  predicate PreviousLineEndsParagraph(c: SectionContext) {
    var p := Strip(c.previousLine);
    (|p| > 0 && p[|p| - 1] in ParagraphEnds) || IsBlank(c.previousLine)
  }

  /** `_is_docstring_section` */
  predicate IsDocstringSection(c: SectionContext) {
    LooksLikeSectionName(c) && PreviousLineEndsParagraph(c)
  }

  /** Line `i` is a confirmed section header. */
  predicate Confirmed(lines: seq<string>, names: seq<string>, i: nat)
    requires i < |lines|
  {
    SuspectedAsSection(lines[i], names) && IsDocstringSection(Candidate(lines, i))
  }

  /** The indices of all confirmed headers, in order. */
  function ConfirmedIndices(lines: seq<string>, names: seq<string>): (r: seq<nat>)
    ensures forall m :: 0 <= m < |r| ==> r[m] < |lines|
    ensures Increasing(r)
  {
    IndicesWhere(IsHeaderOf(lines, names), 0, |lines|)
  }

  function IsHeaderOf(lines: seq<string>, names: seq<string>): nat -> bool {
    (i: nat) => i < |lines| && Confirmed(lines, names, i)
  }

  /** The confirmed indices are exactly the confirmed headers. */
  lemma ConfirmedIndicesExact(lines: seq<string>, names: seq<string>)
    ensures forall m :: 0 <= m < |ConfirmedIndices(lines, names)| ==> Confirmed(lines, names, ConfirmedIndices(lines, names)[m])
    ensures forall j :: 0 <= j < |lines| && Confirmed(lines, names, j) ==> j in ConfirmedIndices(lines, names)
  {
    var p := IsHeaderOf(lines, names);
    assert forall j: nat :: p(j) <==> j < |lines| && Confirmed(lines, names, j);
  }

  /** Where the body of the `m`-th confirmed section ends: at the next confirmed
      header, or for the last section at `-1` in Python's slice notation, that is
      before the docstring's final line. */
  function BodyEnd(lines: seq<string>, idx: seq<nat>, m: nat): (e: nat)
    requires m < |idx| && Increasing(idx)
    requires forall q :: 0 <= q < |idx| ==> idx[q] < |lines|
    ensures idx[m] + 1 <= e <= |lines|
  {
    if m + 1 < |idx| then idx[m + 1]
    else if idx[m] + 1 <= |lines| - 1 then |lines| - 1 else idx[m] + 1
  }

  /** The `m`-th section: the candidate context of its header with the body
      trimmed and the last-section flag set. */
  function SectionAt(lines: seq<string>, idx: seq<nat>, m: nat): (c: SectionContext)
    requires m < |idx| && Increasing(idx)
    requires forall q :: 0 <= q < |idx| ==> idx[q] < |lines|
  {
    Candidate(lines, idx[m]).(followingLines := lines[idx[m] + 1..BodyEnd(lines, idx, m)], isLastSection := m == |idx| - 1)
  }

  /** `_get_section_contexts`: one context per confirmed header, in order. */
  function Contexts(lines: seq<string>, names: seq<string>): (r: seq<SectionContext>)
    ensures |r| == |ConfirmedIndices(lines, names)|
    ensures forall m :: 0 <= m < |r| ==> r[m] == SectionAt(lines, ConfirmedIndices(lines, names), m)
  {
    var idx := ConfirmedIndices(lines, names);
    MapRange((m: nat) requires m < |idx| => SectionAt(lines, idx, m), 0, |idx|)
  }

  /** Every context is a confirmed header: its name is the header's leading
      words, the name part is followed by nothing or a colon, and the line before
      it (the last line, for the first line) is blank or closes a paragraph. */
  lemma ContextIsConfirmed(lines: seq<string>, names: seq<string>, m: nat)
    requires m < |Contexts(lines, names)|
    ensures var c := Contexts(lines, names)[m];
            c.originalIndex < |lines|
            && SuspectedAsSection(lines[c.originalIndex], names)
            && c.line == lines[c.originalIndex]
            && c.sectionName == GetLeadingWords(Strip(c.line))
            && c.previousLine == PreviousLine(lines, c.originalIndex)
            && LooksLikeSectionName(c) && PreviousLineEndsParagraph(c)
  {
    var idx := ConfirmedIndices(lines, names);
    ConfirmedIndicesExact(lines, names);
    assert Confirmed(lines, names, idx[m]);
  }

  /** Conversely, every line that is suspected and passes `_is_docstring_section`
      heads a context. */
  lemma ConfirmedHeaderHasContext(lines: seq<string>, names: seq<string>, i: nat)
    requires i < |lines| && Confirmed(lines, names, i)
    ensures exists m :: 0 <= m < |Contexts(lines, names)| && Contexts(lines, names)[m].originalIndex == i
  {
    var idx := ConfirmedIndices(lines, names);
    ConfirmedIndicesExact(lines, names);
    var m :| 0 <= m < |idx| && idx[m] == i;
    assert Contexts(lines, names)[m].originalIndex == i;
  }

  /** The body of a section built from increasing header indices runs from the
      line after its header to the next header, or for the last section to the
      docstring's final line, exclusive. */
  lemma SectionAtBody(lines: seq<string>, idx: seq<nat>, m: nat)
    requires m < |idx| && Increasing(idx)
    requires forall q :: 0 <= q < |idx| ==> idx[q] < |lines|
    ensures var c := SectionAt(lines, idx, m);
            var end := c.originalIndex + 1 + |c.followingLines|;
            c.originalIndex == idx[m] && end <= |lines|
            && c.followingLines == lines[c.originalIndex + 1..end]
            && (m + 1 < |idx| ==> end == idx[m + 1] && !c.isLastSection)
            && (m + 1 == |idx| ==> c.isLastSection && end == (if idx[m] + 1 <= |lines| - 1 then |lines| - 1 else idx[m] + 1))
  {
  }

  /** No index strictly between two consecutive indices found by `IndicesWhere`
      (or after the last one) satisfies the predicate. */
  lemma GapHasNoIndex(p: nat -> bool, n: nat, m: nat, j: nat)
    requires m < |IndicesWhere(p, 0, n)|
    requires IndicesWhere(p, 0, n)[m] < j < n
    requires m + 1 < |IndicesWhere(p, 0, n)| ==> j < IndicesWhere(p, 0, n)[m + 1]
    ensures !p(j)
  {
    var idx := IndicesWhere(p, 0, n);
    forall q | 0 <= q < |idx| ensures idx[q] != j {
      if q < m {
        assert idx[q] < idx[m];
      } else if q > m + 1 {
        assert idx[m + 1] < idx[q];
      }
    }
    assert j !in idx;
  }

  /** No line of a section's body, which ends at `BodyEnd`, is itself a
      confirmed header. */
  lemma BodyHasNoHeader(lines: seq<string>, names: seq<string>, m: nat, j: nat)
    requires m < |ConfirmedIndices(lines, names)|
    requires ConfirmedIndices(lines, names)[m] < j < BodyEnd(lines, ConfirmedIndices(lines, names), m)
    ensures !Confirmed(lines, names, j)
  {
    GapHasNoIndex(IsHeaderOf(lines, names), |lines|, m, j);
  }
}
