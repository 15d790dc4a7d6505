/** The docstring view of `_docstring.py`: what the rules read about a node's
    docstring, derived from the literal's value and from the file's lines. */
module DocstringView {
  import opened Basics
  import opened PyStr
  import opened Utils
  import opened Tree

  /** A docstring: the literal value with tabs expanded, and the source lines it
      spans, each right-stripped and joined with line feeds. */
  datatype Docstring = Docstring(content: string, raw: string)

  /** `Docstring.content` */
  function Content(doc: DocNode): (r: string)
    ensures '\t' !in r
    ensures '\t' !in doc.value ==> r == doc.value
  {
    if '\t' in doc.value then ExpandTabs(doc.value)
    else ExpandTabsWithoutTabs(doc.value, 0); ExpandTabs(doc.value)
  }

  /** The right-stripped source lines `fromlineno` to `end_lineno`. */
  function RawLines(file: seq<string>, doc: DocNode): seq<string> {
    RStripAll(Slice(file, doc.fromLineno - 1, doc.endLineno))
  }

  function RStripAll(lines: seq<string>): (r: seq<string>)
    ensures |r| == |lines|
    ensures forall k :: 0 <= k < |lines| ==> r[k] == RStrip(lines[k])
  {
    if |lines| == 0 then [] else [RStrip(lines[0])] + RStripAll(lines[1..])
  }

  /** `Docstring.raw` */
  function Raw(file: seq<string>, doc: DocNode): string {
    Join(RawLines(file, doc), "\n")
  }

  /** Splitting `raw` on line feeds gives back the stripped source lines, since
      the file's lines hold no line feed. */
  lemma RawSplitsIntoLines(file: seq<string>, doc: DocNode)
    requires forall k :: 0 <= k < |file| ==> '\n' !in file[k]
    requires |RawLines(file, doc)| > 0
    ensures Split(Raw(file, doc), '\n') == RawLines(file, doc)
  {
    var lines := RawLines(file, doc);
    var span := Slice(file, doc.fromLineno - 1, doc.endLineno);
    forall k | 0 <= k < |lines| ensures '\n' !in lines[k] {
      RStripSplit(span[k]);
      assert span[k] in file;
    }
    SplitJoin(lines, '\n');
  }

  /** The `Docstring` constructor: a ValueError for a node without a doc node. */
  function MakeDocstring(node: Node, file: seq<string>): (r: Result<Docstring>)
    ensures r.Err? <==> node.doc.None?
    ensures r.Err? ==> r.error == "Node '" + node.name + "' does not have a doc node."
    ensures r.Ok? ==> r.value.content == Content(node.doc.value) && r.value.raw == Raw(file, node.doc.value)
  {
    match node.doc
    case None => Err("Node '" + node.name + "' does not have a doc node.")
    case Some(d) => Ok(Docstring(Content(d), Raw(file, d)))
  }

  /** `get_docstring_from_doc_node` */
  function GetDocstring(node: Node, file: seq<string>): (r: Option<Docstring>)
    ensures r.None? <==> node.doc.None?
    ensures r.None? <==> MakeDocstring(node, file).Err?
    ensures r.Some? ==> MakeDocstring(node, file) == Ok(r.value)
  {
    match MakeDocstring(node, file)
    case Err(_) => None
    case Ok(d) => Some(d)
  }

  /** `Docstring.lines`: the stripped content split on line feeds. */
  function Lines(d: Docstring): (r: seq<string>)
    ensures |r| >= 1
    ensures r[0] == [] || !IsSpace(r[0][0])
    ensures |r| == 1 ==> r[0] == Strip(d.content)
    ensures r[|r| - 1] == [] || !IsSpace(r[|r| - 1][|r[|r| - 1]| - 1])
  {
    var s := Strip(d.content);
    var r := Split(s, '\n');
    SplitShape(s, '\n');
    r
  }

  /** A triple quote, `"""` or `'''`, starts at position `j`. */
  predicate TripleQuoteAt(line: string, j: nat) {
    j + 3 <= |line| && (line[j..j + 3] == "\"\"\"" || line[j..j + 3] == "'''")
  }

  predicate IsUChar(c: char) { c == 'u' || c == 'U' }
  predicate IsRChar(c: char) { c == 'r' || c == 'R' }

  /** `[uU]?[rR]?("""|''')` matches at position `k`. */
  predicate QuoteStartAt(line: string, k: nat) {
    TripleQuoteAt(line, k)
    || (k < |line| && IsUChar(line[k]) && TripleQuoteAt(line, k + 1))
    || (k < |line| && IsRChar(line[k]) && TripleQuoteAt(line, k + 1))
    || (k + 1 < |line| && IsUChar(line[k]) && IsRChar(line[k + 1]) && TripleQuoteAt(line, k + 2))
  }

  /** The least position at or after `k` where the opening quotes start. */
  function FirstQuoteStart(line: string, k: nat): (r: Option<nat>)
    requires k <= |line|
    ensures r.Some? ==> k <= r.value < |line| && QuoteStartAt(line, r.value)
    decreases |line| - k
  {
    if k == |line| then None
    else if QuoteStartAt(line, k) then Some(k)
    else FirstQuoteStart(line, k + 1)
  }

  /** `FirstQuoteStart` finds the least such position and none only when there is none. */
  lemma {:induction false} FirstQuoteStartIsFirst(line: string, k: nat)
    requires k <= |line|
    ensures FirstQuoteStart(line, k).Some? ==>
              forall j :: k <= j < FirstQuoteStart(line, k).value ==> !QuoteStartAt(line, j)
    ensures FirstQuoteStart(line, k).None? <==> forall j :: k <= j < |line| ==> !QuoteStartAt(line, j)
    decreases |line| - k
  {
    if k < |line| && !QuoteStartAt(line, k) {
      FirstQuoteStartIsFirst(line, k + 1);
    }
  }

  /** `Docstring.indent`: one space per character before the opening quotes (and
      their `u`/`r` prefix) on the first line of `raw`. An empty `raw`, or a first
      line without triple quotes, makes the source's indexing fail. */
  function Indent(raw: string): (r: Result<string>)
    ensures r.Ok? ==> forall i :: 0 <= i < |r.value| ==> r.value[i] == ' '
    ensures r.Ok? ==> raw != [] && QuoteStartAt(FirstLine(raw), |r.value|)
    ensures r.Ok? ==> forall j :: 0 <= j < |r.value| ==> !QuoteStartAt(FirstLine(raw), j)
    ensures r.Err? <==> raw == [] || forall j :: 0 <= j < |FirstLine(raw)| ==> !QuoteStartAt(FirstLine(raw), j)
  {
    var line := FirstLine(raw);
    FirstQuoteStartIsFirst(line, 0);
    if raw == [] then Err("list index out of range")
    else match FirstQuoteStart(line, 0)
      case None => Err("list index out of range")
      case Some(k) => Ok(Spaces(k))
  }

  /** A line counts for `line_indents` when it has content and the line before
      it does not end with a backslash. */
  predicate CountsForIndent(p: (string, string)) {
    HasContent(p.1) && !EndsWith(p.0, "\\")
  }

  /** The second members of the pairs that `keep` accepts, in order. */
  function KeptSeconds(keep: ((string, string)) -> bool, pairs: seq<(string, string)>): seq<string> {
    if |pairs| == 0 then []
    else (if keep(pairs[0]) then [pairs[0].1] else []) + KeptSeconds(keep, pairs[1..])
  }

  /** The raw lines that count for `line_indents`, in order. */
  function IndentedLines(pairs: seq<(string, string)>): seq<string> {
    KeptSeconds(CountsForIndent, pairs)
  }

  function LeadingSpaces(lines: seq<string>): (r: seq<string>)
    ensures |r| == |lines|
    ensures forall k :: 0 <= k < |lines| ==> r[k] == LeadingSpace(lines[k])
  {
    if |lines| == 0 then [] else [LeadingSpace(lines[0])] + LeadingSpaces(lines[1..])
  }

  function LineIndentsOf(lines: seq<string>): seq<string> {
    LeadingSpaces(IndentedLines(Pairwise(lines, "")))
  }

  /** `Docstring.line_indents` */
  function LineIndents(raw: string): seq<string> {
    LineIndentsOf(Split(raw, '\n'))
  }

  /** `s` is the leading whitespace of a line after the first that counts for
      `line_indents`. */
  predicate IndentOrigin(lines: seq<string>, s: string) {
    exists k :: 1 <= k < |lines| && s == LeadingSpace(lines[k]) && CountsForIndent((lines[k - 1], lines[k]))
  }

  /** Whether `keep` accepts line `k` of `lines` together with the line before. */
  function KeptAt(keep: ((string, string)) -> bool, lines: seq<string>): nat -> bool {
    k => 1 <= k < |lines| && keep((lines[k - 1], lines[k]))
  }

  /** The numbers of the lines that count for `line_indents`: all of them, each
      once, in increasing order. */
  function IndentLineNumbers(lines: seq<string>): (r: seq<nat>)
    ensures forall m :: 0 <= m < |r| ==> 1 <= r[m] < |lines| && CountsForIndent((lines[r[m] - 1], lines[r[m]]))
    ensures forall k :: 1 <= k < |lines| && CountsForIndent((lines[k - 1], lines[k])) ==> k in r
    ensures Increasing(r)
  {
    if |lines| == 0 then []
    else
      KeptAtMeans(CountsForIndent, lines);
      IndicesWhere(KeptAt(CountsForIndent, lines), 1, |lines|)
  }

  lemma KeptAtMeans(keep: ((string, string)) -> bool, lines: seq<string>)
    ensures forall k: nat {:trigger KeptAt(keep, lines)(k)} :: KeptAt(keep, lines)(k) <==> 1 <= k < |lines| && keep((lines[k - 1], lines[k]))
  {
  }

  /** `lines[ns[0]], lines[ns[1]], ...` */
  function LinesAt(lines: seq<string>, ns: seq<nat>): (r: seq<string>)
    requires forall m :: 0 <= m < |ns| ==> ns[m] < |lines|
    ensures |r| == |ns|
    ensures forall m :: 0 <= m < |ns| ==> r[m] == lines[ns[m]]
  {
    seq(|ns|, m requires 0 <= m < |ns| => lines[ns[m]])
  }

  /** Over `pairwise(lines, "")` from position `j` on, `keep` picks exactly the
      accepted lines after `j`, in order, when it never accepts the last pair. */
  lemma {:induction false} KeptSecondsFrom(keep: ((string, string)) -> bool, lines: seq<string>, j: nat)
    requires j < |lines|
    requires !keep((lines[|lines| - 1], ""))
    ensures KeptSeconds(keep, Pairwise(lines, "")[j..]) == LinesAt(lines, IndicesWhere(KeptAt(keep, lines), j + 1, |lines|))
    decreases |lines| - j
  {
    var pairs := Pairwise(lines, "");
    var pj := pairs[j..];
    var ns := IndicesWhere(KeptAt(keep, lines), j + 1, |lines|);
    if j == |lines| - 1 {
      assert KeptSeconds(keep, pj) == [] by {
        assert pj == [(lines[j], "")];
        assert pj[1..] == [];
      }
      assert ns == [];
    } else {
      var b := KeptAt(keep, lines)(j + 1);
      var head := if b then [j + 1] else [];
      var rest := IndicesWhere(KeptAt(keep, lines), j + 2, |lines|);
      assert ns == head + rest;
      assert KeptSeconds(keep, pj) == LinesAt(lines, head) + KeptSeconds(keep, pairs[j + 1..]) by {
        assert pj[0] == (lines[j], lines[j + 1]);
        assert pj[1..] == pairs[j + 1..];
        assert LinesAt(lines, head) == if b then [lines[j + 1]] else [];
      }
      assert KeptSeconds(keep, pairs[j + 1..]) == LinesAt(lines, rest) by {
        KeptSecondsFrom(keep, lines, j + 1);
      }
      LinesAtAppend(lines, head, rest);
    }
  }

  lemma LinesAtAppend(lines: seq<string>, a: seq<nat>, b: seq<nat>)
    requires forall m :: 0 <= m < |a| ==> a[m] < |lines|
    requires forall m :: 0 <= m < |b| ==> b[m] < |lines|
    ensures LinesAt(lines, a + b) == LinesAt(lines, a) + LinesAt(lines, b)
  {
  }

  /** `line_indents` is the leading whitespace of the counting lines, one entry
      per line, in the order the lines appear. */
  lemma LineIndentsInOrder(raw: string)
    ensures |LineIndents(raw)| == |IndentLineNumbers(Split(raw, '\n'))|
    ensures forall m :: 0 <= m < |LineIndents(raw)| ==>
              LineIndents(raw)[m] == LeadingSpace(Split(raw, '\n')[IndentLineNumbers(Split(raw, '\n'))[m]])
  {
    IndentedLinesInOrder(Split(raw, '\n'));
  }

  lemma IndentedLinesInOrder(lines: seq<string>)
    ensures IndentedLines(Pairwise(lines, "")) == LinesAt(lines, IndentLineNumbers(lines))
  {
    var pairs := Pairwise(lines, "");
    if |lines| > 0 {
      assert !HasContent("");
      assert !CountsForIndent((lines[|lines| - 1], ""));
      KeptSecondsFrom(CountsForIndent, lines, 0);
      assert pairs[0..] == pairs;
    }
  }

  lemma LineIndentOrigin(lines: seq<string>, s: string)
    requires s in LineIndentsOf(lines)
    ensures AllSpace(s) && IndentOrigin(lines, s)
  {
    var ns := IndentLineNumbers(lines);
    var picked := IndentedLines(Pairwise(lines, ""));
    assert picked == LinesAt(lines, ns) by {
      IndentedLinesInOrder(lines);
    }
    var m :| 0 <= m < |LeadingSpaces(picked)| && LeadingSpaces(picked)[m] == s;
    assert s == LeadingSpace(lines[ns[m]]);
    assert 1 <= ns[m] < |lines| && CountsForIndent((lines[ns[m] - 1], lines[ns[m]]));
  }

  /** Each entry of `line_indents` is the leading whitespace of a raw line after the
      first one, that has content and follows a line not ending with a backslash. */
  lemma LineIndentsSource(raw: string)
    ensures forall s :: s in LineIndents(raw) ==> AllSpace(s) && IndentOrigin(Split(raw, '\n'), s)
  {
    forall s | s in LineIndents(raw) ensures AllSpace(s) && IndentOrigin(Split(raw, '\n'), s) {
      LineIndentOrigin(Split(raw, '\n'), s);
    }
  }

  /** Conversely, every line after the first that counts contributes its leading
      whitespace to `line_indents`. */
  lemma LineIndentsComplete(raw: string, k: nat)
    requires 1 <= k < |Split(raw, '\n')|
    requires CountsForIndent((Split(raw, '\n')[k - 1], Split(raw, '\n')[k]))
    ensures LeadingSpace(Split(raw, '\n')[k]) in LineIndents(raw)
  {
    var lines := Split(raw, '\n');
    var ns := IndentLineNumbers(lines);
    assert k in ns;
    var m :| 0 <= m < |ns| && ns[m] == k;
    IndentedLinesInOrder(lines);
    assert LineIndents(raw)[m] == LeadingSpace(lines[k]);
  }
}
