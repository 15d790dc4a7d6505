/** The argument documentation that `checks/sections.py` reads out of a NumPy
    `Parameters` section or a Google `Args` section, and the D417 report of the
    function's positional arguments that are left undocumented. */
module SectionArgs {
  import opened Basics
  import opened PyStr
  import opened Utils
  import opened Tree

  // ------------------------------------------------------ NumPy Parameters

  /** The section's body with backslash-newline continuations joined, split
      into lines again. */
  function ParameterLines(following: seq<string>): (r: seq<string>)
    ensures |r| >= 1
  {
    Split(RemoveLineContinuations(Join(following, "\n")), '\n')
  }

  /** A body line declares parameters when it is indented exactly like the
      section header and the next line has content and is indented further. */
  predicate IsParamDeclaration(cur: string, next: string, indent: string) {
    LeadingSpace(cur) == indent && |LeadingSpace(next)| > |LeadingSpace(cur)| && HasContent(next)
  }

  /** The part of a declaration that names parameters: before the first colon,
      or the whole stripped line when it has none. */
  function ParamNamesPart(line: string): string {
    if ':' in line then Before(line, ':') else Strip(line)
  }

  /** The comma-separated pieces of a declaration. */
  function ParamPieces(line: string): seq<string> {
    Split(ParamNamesPart(line), ',')
  }

  /** The stripped pieces `pieces[..i]`. */
  function StrippedBelow(pieces: seq<string>, i: nat): (r: set<string>)
    requires i <= |pieces|
    ensures forall x :: x in r <==> exists q :: 0 <= q < i && x == Strip(pieces[q])
  {
    if i == 0 then {} else StrippedBelow(pieces, i - 1) + {Strip(pieces[i - 1])}
  }

  /** The stripped names of a declaration line. */
  function DeclaredNames(line: string): set<string> {
    StrippedBelow(ParamPieces(line), |ParamPieces(line)|)
  }

  /** The names declared on line `k` of the body: none unless it is a declaration. */
  function DeclaredAt(content: seq<string>, indent: string): nat -> set<string> {
    (k: nat) =>
      if k + 1 < |content| && IsParamDeclaration(content[k], content[k + 1], indent) then DeclaredNames(content[k]) else {}
  }

  /** The names a NumPy `Parameters` section documents. */
  function NumpyDocumentedArgs(following: seq<string>, header: string): set<string> {
    var content := ParameterLines(following);
    UnionBelow(DeclaredAt(content, LeadingSpace(header)), |content| - 1)
  }

  /** Line `k` of the joined body is indented like the header, is followed by a
      further indented line with content, and has `name` as one of the
      comma-separated pieces before its first colon. */
  predicate DeclaresName(content: seq<string>, indent: string, k: nat, name: string)
    requires k + 1 < |content|
  {
    IsParamDeclaration(content[k], content[k + 1], indent)
    && exists q :: 0 <= q < |ParamPieces(content[k])| && name == Strip(ParamPieces(content[k])[q])
  }

  /** A name is documented exactly when some line of the joined body is indented
      like the header, is followed by a further indented line with content, and
      has the name as one of the comma-separated pieces before its first colon. */
  lemma NumpyDocumentedIff(following: seq<string>, header: string, name: string)
    ensures name in NumpyDocumentedArgs(following, header) <==>
              exists k :: 0 <= k < |ParameterLines(following)| - 1 && DeclaresName(ParameterLines(following), LeadingSpace(header), k, name)
  {
    var content := ParameterLines(following);
    var f := DeclaredAt(content, LeadingSpace(header));
    assert forall k: nat :: k + 1 < |content| ==> (name in f(k) <==> DeclaresName(content, LeadingSpace(header), k, name));
  }

  /** The names declared on line `k`: those of the line when it is a
      declaration, none otherwise. */
  lemma DeclaredAtLine(content: seq<string>, indent: string, k: nat)
    requires k + 1 < |content|
    ensures IsParamDeclaration(content[k], content[k + 1], indent) ==> DeclaredAt(content, indent)(k) == DeclaredNames(content[k])
    ensures !IsParamDeclaration(content[k], content[k + 1], indent) ==> DeclaredAt(content, indent)(k) == {}
  {
  }

  /** `_check_parameters_section`, collecting the documented names. */
  method ParametersSection(following: seq<string>, header: string) returns (args: set<string>)
    ensures args == NumpyDocumentedArgs(following, header)
  {
    var indent := LeadingSpace(header);
    var content := ParameterLines(following);
    ghost var f := DeclaredAt(content, indent);
    args := {};
    var k := 0;
    while k + 1 < |content|
      invariant k < |content|
      invariant args == UnionBelow(f, k)
    {
      if IsParamDeclaration(content[k], content[k + 1], indent) {
        var names := DeclarationNames(content[k]);
        args := args + names;
      }
      DeclaredAtLine(content, indent, k);
      assert UnionBelow(f, k + 1) == UnionBelow(f, k) + f(k);
      k := k + 1;
    }
  }

  /** The inner loop of `_check_parameters_section`: the stripped
      comma-separated names of one declaration line. */
  method DeclarationNames(line: string) returns (names: set<string>)
    ensures names == DeclaredNames(line)
  {
    var pieces := ParamPieces(line);
    names := {};
    var i := 0;
    while i < |pieces|
      invariant i <= |pieces|
      invariant names == StrippedBelow(pieces, i)
    {
      assert StrippedBelow(pieces, i + 1) == StrippedBelow(pieces, i) + {Strip(pieces[i])};
      names := names + {Strip(pieces[i])};
      i := i + 1;
    }
  }

  // ----------------------------------------------------------- Google Args

  /** `first[: -len(first.lstrip())]`: the first line's indentation, except that
      a blank first line gives the empty string (the slice `[:-0]` is empty). */
  function ArgIndent(first: string): (r: string)
    ensures r == (if AllSpace(first) then "" else LeadingSpace(first))
  {
    LStripSplit(first);
    var m := |LStrip(first)|;
    if m == 0 then "" else first[..|first| - m]
  }

  /** The body lines kept for the arguments: those starting with the first
      line's indentation, and the empty ones. */
  function KeptLines(lines: seq<string>, indent: string): (r: seq<string>)
    ensures forall x :: x in r <==> x in lines && (StartsWith(x, indent) || x == "")
  {
    if |lines| == 0 then []
    else (if StartsWith(lines[0], indent) || lines[0] == "" then [lines[0]] else []) + KeptLines(lines[1..], indent)
  }

  predicate IsTabOrSpace(c: char) { c == ' ' || c == '\t' }

  /** The run of spaces and tabs that starts a line. */
  function TabSpacePrefix(line: string): (r: string)
    ensures r <= line && forall i :: 0 <= i < |r| ==> IsTabOrSpace(r[i])
    ensures |r| == |line| || !IsTabOrSpace(line[|r|])
  {
    if |line| == 0 || !IsTabOrSpace(line[0]) then "" else [line[0]] + TabSpacePrefix(line[1..])
  }

  /** A line with a character other than a space or a tab: its run of spaces
      and tabs stops before its end. */
  predicate HasText(line: string) {
    |TabSpacePrefix(line)| < |line|
  }

  /** `textwrap.dedent`'s margin: the longest common prefix of the indentation
      of the lines that have text, none when no line has text. */
  function Margin(lines: seq<string>): (r: Option<string>)
    ensures r.None? <==> forall k :: 0 <= k < |lines| ==> !HasText(lines[k])
    ensures r.Some? ==> forall k :: 0 <= k < |lines| && HasText(lines[k]) ==> r.value <= TabSpacePrefix(lines[k])
  {
    if |lines| == 0 then None
    else
      var rest := Margin(lines[1..]);
      assert forall k :: 1 <= k < |lines| ==> lines[k] == lines[1..][k - 1];
      if !HasText(lines[0]) then rest
      else
        var ind := TabSpacePrefix(lines[0]);
        match rest
        case None => Some(ind)
        case Some(m) =>
          var n := CommonPrefix(ind, m);
          assert ind[..n] == m[..n];
          Some(ind[..n])
  }

  /** The margin is the longest such prefix: every string that prefixes the
      indentation of each line with text prefixes the margin. */
  lemma {:induction false} MarginLongest(lines: seq<string>, c: string)
    requires Margin(lines).Some?
    requires forall k :: 0 <= k < |lines| && HasText(lines[k]) ==> c <= TabSpacePrefix(lines[k])
    ensures c <= Margin(lines).value
  {
    assert forall k :: 1 <= k < |lines| ==> lines[k] == lines[1..][k - 1];
    var rest := Margin(lines[1..]);
    if !HasText(lines[0]) {
      MarginLongest(lines[1..], c);
    } else if rest.Some? {
      MarginLongest(lines[1..], c);
      var ind := TabSpacePrefix(lines[0]);
      var n := CommonPrefix(ind, rest.value);
      CommonPrefixLongest(ind, rest.value, c);
      assert c == ind[..n][..|c|];
    }
  }

  /** One line of `dedent`: a line without text becomes empty, any other loses
      the margin. */
  function DedentLine(line: string, margin: string): string {
    if HasText(line) && |margin| <= |line| then line[|margin|..] else ""
  }

  /** `textwrap.dedent` on text split at line feeds: lines of only spaces and
      tabs become empty, and the margin is removed from every other line. */
  function DedentLines(lines: seq<string>): (r: seq<string>)
    ensures |r| == |lines|
    ensures forall k :: 0 <= k < |lines| && !HasText(lines[k]) ==> r[k] == ""
    ensures forall k :: 0 <= k < |lines| && HasText(lines[k]) ==>
              Margin(lines).Some? && lines[k] == Margin(lines).value + r[k]
  {
    var margin := Margin(lines);
    var m := if margin.Some? then margin.value else "";
    var r := MapRange((k: nat) requires k < |lines| => DedentLine(lines[k], m), 0, |lines|);
    forall k | 0 <= k < |lines| && HasText(lines[k])
      ensures margin.Some? && lines[k] == m + r[k]
    {
      DedentLineSplit(lines[k], m);
    }
    r
  }

  /** A line with text is the margin followed by its dedented form. */
  lemma DedentLineSplit(line: string, margin: string)
    requires HasText(line) && margin <= TabSpacePrefix(line)
    ensures line == margin + DedentLine(line, margin)
  {
    assert TabSpacePrefix(line) <= line;
  }

  function Dedent(text: string): string {
    Join(DedentLines(Split(text, '\n')), "\n")
  }

  /** `args_content`: the kept body lines, dedented and stripped. */
  function ArgsContent(following: seq<string>): string {
    var kept := if |following| == 0 then [] else KeptLines(following, ArgIndent(following[0]));
    Strip(Dedent(Join(kept, "\n")))
  }

  /** Every line of a stripped, non-empty text starts with a non-space character
      only for the first one; that is all the grouping below needs. */
  lemma FirstLineStartsClean(s: string)
    requires s == [] || !IsSpace(s[0])
    ensures var ls := SplitLinesKeepEnds(s); |ls| == 0 || !IsSpace(ls[0][0])
  {
    if |s| > 0 {
      assert SplitLinesKeepEnds(s)[0] == s[..LineLength(s)];
    }
  }

  /** The argument entries: a line that does not start with whitespace opens a
      new entry, any other line is appended to the entry before it. */
  function Entries(lines: seq<string>): (r: seq<string>)
    requires forall k :: 0 <= k < |lines| ==> |lines[k]| > 0
    requires |lines| == 0 || !IsSpace(lines[0][0])
    ensures |lines| > 0 ==> |r| > 0
    ensures forall k :: 0 <= k < |r| ==> |r[k]| > 0 && !IsSpace(r[k][0])
    decreases |lines|
  {
    if |lines| == 0 then []
    else
      var e := Entries(lines[..|lines| - 1]);
      var l := lines[|lines| - 1];
      if !IsSpace(l[0]) then e + [l]
      else e[..|e| - 1] + [e[|e| - 1] + l]
  }

  /** Grouping loses and adds nothing: the entries spell out the lines. */
  lemma {:induction false} EntriesJoin(lines: seq<string>)
    requires forall k :: 0 <= k < |lines| ==> |lines[k]| > 0
    requires |lines| == 0 || !IsSpace(lines[0][0])
    ensures Join(Entries(lines), "") == Join(lines, "")
    decreases |lines|
  {
    if |lines| > 0 {
      var init := lines[..|lines| - 1];
      var l := lines[|lines| - 1];
      EntriesJoin(init);
      assert init + [l] == lines;
      JoinSnoc(init, l);
      EntriesLastJoin(lines);
    }
  }

  /** The last line extends the spelled-out entries by itself. */
  lemma EntriesLastJoin(lines: seq<string>)
    requires forall k :: 0 <= k < |lines| ==> |lines[k]| > 0
    requires |lines| > 0 && !IsSpace(lines[0][0])
    ensures Join(Entries(lines), "") == Join(Entries(lines[..|lines| - 1]), "") + lines[|lines| - 1]
  {
    var e := Entries(lines[..|lines| - 1]);
    var l := lines[|lines| - 1];
    if !IsSpace(l[0]) {
      assert Entries(lines) == e + [l];
      JoinSnoc(e, l);
    } else {
      assert Entries(lines) == e[..|e| - 1] + [e[|e| - 1] + l];
      assert e == e[..|e| - 1] + [e[|e| - 1]];
      JoinContinued(e[..|e| - 1], e[|e| - 1], l);
    }
  }

  /** Appending to the last entry appends to the joined text. */
  lemma JoinContinued(prefix: seq<string>, last: string, l: string)
    ensures Join(prefix + [last + l], "") == Join(prefix + [last], "") + l
  {
    JoinSnoc(prefix, last);
    JoinSnoc(prefix, last + l);
    assert Join(prefix, "") + (last + l) == (Join(prefix, "") + last) + l;
  }

  /** Joining with the empty separator distributes over appending one element. */
  lemma {:induction false} JoinSnoc(xs: seq<string>, x: string)
    ensures Join(xs + [x], "") == Join(xs, "") + x
  {
    if |xs| == 0 {
      assert xs + [x] == [x];
    } else {
      assert (xs + [x])[1..] == xs[1..] + [x];
      JoinSnoc(xs[1..], x);
    }
  }

  /** The loop of `_check_args_section` that builds the entries: it appends a
      new entry or extends the last one. */
  method GroupEntries(lines: seq<string>) returns (entries: seq<string>)
    requires forall k :: 0 <= k < |lines| ==> |lines[k]| > 0
    requires |lines| == 0 || !IsSpace(lines[0][0])
    ensures entries == Entries(lines)
  {
    entries := [];
    var i := 0;
    while i < |lines|
      invariant i <= |lines|
      invariant entries == Entries(lines[..i])
    {
      assert lines[..i + 1][..i] == lines[..i];
      var line := lines[i];
      if !IsSpace(line[0]) {
        entries := entries + [line];
      } else {
        entries := entries[..|entries| - 1] + [entries[|entries| - 1] + line];
      }
      i := i + 1;
    }
    assert lines[..i] == lines;
  }

  /** Some character of `t` is not a line feed (what `.+` needs). */
  predicate HasNonNewline(t: string) {
    exists i :: 0 <= i < |t| && t[i] != '\n'
  }

  /** `:\n?\s*.+` matches at the start of `u`. */
  predicate ColonThenText(u: string) {
    |u| > 0 && u[0] == ':' && HasNonNewline(u[1..])
  }

  /** `\(.*?\)\s*:\n?\s*.+` matches at the start of `u`: some closing
      parenthesis on the same line is followed, after whitespace, by a colon. */
  predicate ParenthesizedType(u: string) {
    |u| > 0 && u[0] == '(' &&
    exists j :: 1 <= j < |u| && u[j] == ')' && '\n' !in u[1..j] && ColonThenText(LStrip(u[j + 1..]))
  }

  /** The maximal run of word characters starting `s`. */
  function WordPrefix(s: string): (r: string)
    ensures r <= s && forall i :: 0 <= i < |r| ==> IsWordChar(r[i])
    ensures |r| == |s| || !IsWordChar(s[|r|])
  {
    if |s| == 0 || !IsWordChar(s[0]) then "" else [s[0]] + WordPrefix(s[1..])
  }

  /** `GOOGLE_ARGS_REGEX.match(entry).group(1)`: after leading whitespace, a word
      (the argument's name), optional whitespace, an optional parenthesized type,
      a colon and some text. */
  function GoogleArgName(entry: string): (r: Option<string>)
    ensures r.Some? ==> |r.value| > 0 && r.value == WordPrefix(LStrip(entry))
    ensures r.Some? <==>
              var s := LStrip(entry);
              var w := WordPrefix(s);
              var rest := LStrip(s[|w|..]);
              |w| > 0 && (ColonThenText(rest) || ParenthesizedType(rest))
  {
    var s := LStrip(entry);
    var w := WordPrefix(s);
    var rest := LStrip(s[|w|..]);
    if |w| > 0 && (ColonThenText(rest) || ParenthesizedType(rest)) then Some(w) else None
  }

  /** The name entry `k` documents, if any. */
  function NameAt(entries: seq<string>): nat -> set<string> {
    (k: nat) => if k < |entries| && GoogleArgName(entries[k]).Some? then {GoogleArgName(entries[k]).value} else {}
  }

  /** The name entry `k` documents: its argument name when it has one. */
  lemma NameAtEntry(entries: seq<string>, k: nat)
    requires k < |entries|
    ensures GoogleArgName(entries[k]).Some? ==> NameAt(entries)(k) == {GoogleArgName(entries[k]).value}
    ensures GoogleArgName(entries[k]).None? ==> NameAt(entries)(k) == {}
  {
  }

  /** The argument lines of a Google `Args` section after dedenting and stripping. */
  function ArgLines(following: seq<string>): (r: seq<string>)
    ensures forall k :: 0 <= k < |r| ==> |r[k]| > 0
    ensures |r| == 0 || !IsSpace(r[0][0])
  {
    var content := ArgsContent(following);
    FirstLineStartsClean(content);
    SplitLinesKeepEnds(content)
  }

  /** The names a Google `Args` section documents. */
  function GoogleDocumentedArgs(following: seq<string>): set<string> {
    var entries := Entries(ArgLines(following));
    UnionBelow(NameAt(entries), |entries|)
  }

  /** A name is documented exactly when one of the grouped entries of the
      dedented body matches the argument pattern with that name. */
  lemma GoogleDocumentedIff(following: seq<string>, name: string)
    ensures var entries := Entries(ArgLines(following));
            name in GoogleDocumentedArgs(following) <==>
              exists j :: 0 <= j < |entries| && GoogleArgName(entries[j]) == Some(name)
  {
    var entries := Entries(ArgLines(following));
    var f := NameAt(entries);
    assert forall j: nat :: j < |entries| ==> (name in f(j) <==> GoogleArgName(entries[j]) == Some(name));
  }

  /** `_check_args_section`, collecting the documented names. */
  method ArgsSection(following: seq<string>) returns (args: set<string>)
    ensures args == GoogleDocumentedArgs(following)
  {
    var entries := GroupEntries(ArgLines(following));
    ghost var f := NameAt(entries);
    args := {};
    var i := 0;
    while i < |entries|
      invariant i <= |entries|
      invariant args == UnionBelow(f, i)
    {
      var name := GoogleArgName(entries[i]);
      if name.Some? {
        args := args + {name.value};
      }
      NameAtEntry(entries, i);
      assert UnionBelow(f, i + 1) == UnionBelow(f, i) + f(i);
      i := i + 1;
    }
  }

  // ------------------------------------------------------------------ D417

  /** The positional arguments that must be documented: not `self` or `cls` and
      not starting with an underscore. */
  predicate IsRequiredArg(a: string) {
    a != "self" && a != "cls" && !StartsWith(a, "_")
  }

  predicate StrictlySorted(xs: seq<string>) {
    forall i, j :: 0 <= i < j < |xs| ==> Less(xs[i], xs[j])
  }

  /** Inserts a new element into a strictly sorted sequence. */
  function Insert(x: string, xs: seq<string>): (r: seq<string>)
    requires StrictlySorted(xs) && x !in xs
    ensures StrictlySorted(r)
    ensures forall y :: y in r <==> y in xs || y == x
  {
    if |xs| == 0 then [x]
    else if Less(x, xs[0]) then
      forall j | 0 <= j < |xs| ensures Less(x, xs[j]) {
        if j > 0 { LessTransitive(x, xs[0], xs[j]); }
      }
      [x] + xs
    else
      LessTotal(x, xs[0]);
      var rest := Insert(x, xs[1..]);
      assert forall y :: y in rest ==> Less(xs[0], y) by {
        forall y | y in rest ensures Less(xs[0], y) {
          if y != x {
            var j :| 1 <= j < |xs| && xs[j] == y;
          }
        }
      }
      [xs[0]] + rest
  }

  /** `sorted(required_args - docstring_args)` over the arguments `args[..k]`. */
  function SortedMissing(args: seq<string>, documented: set<string>, k: nat): (r: seq<string>)
    requires k <= |args|
    ensures StrictlySorted(r)
    ensures forall x :: x in r <==> x in args[..k] && IsRequiredArg(x) && x !in documented
  {
    if k == 0 then []
    else
      var acc := SortedMissing(args, documented, k - 1);
      var a := args[k - 1];
      assert args[..k] == args[..k - 1] + [a];
      if IsRequiredArg(a) && a !in documented && a !in acc then Insert(a, acc) else acc
  }

  /** `_check_missing_args`: for a function, one D417 listing the undocumented
      required arguments in sorted order, joined with ", ", and the function's
      name; nothing when every one is documented or the node is not a function. */
  function MissingArgs(n: Node, documented: set<string>): (r: seq<Violation>)
    ensures |r| <= 1
    ensures |r| == 1 <==> n.kind == FunctionKind && exists a :: a in n.args && IsRequiredArg(a) && a !in documented
    ensures |r| == 1 ==> exists names: seq<string> ::
              StrictlySorted(names)
              && (forall x :: x in names <==> x in n.args && IsRequiredArg(x) && x !in documented)
              && r[0] == Violation("D417", [Str(Join(names, ", ")), Str(n.name)])
  {
    if n.kind != FunctionKind then []
    else
      var missing := SortedMissing(n.args, documented, |n.args|);
      assert n.args[..|n.args|] == n.args;
      if |missing| == 0 then
        assert forall a :: a in n.args && IsRequiredArg(a) ==> a in documented by {
          forall a | a in n.args && IsRequiredArg(a) ensures a in documented {
            assert a !in missing;
          }
        }
        []
      else
        assert missing[0] in missing;
        [Violation("D417", [Str(Join(missing, ", ")), Str(n.name)])]
  }

  /** Every later element of a strictly sorted sequence differs from its first. */
  lemma TailAvoidsHead(xs: seq<string>, x: string)
    requires |xs| > 0 && StrictlySorted(xs) && x in xs[1..]
    ensures x in xs && x != xs[0]
  {
    var k :| 0 <= k < |xs| - 1 && xs[1..][k] == x;
    assert xs[k + 1] == x;
    LessIrreflexive(x);
  }

  /** The order D417 lists names in is determined by the set alone: two strictly
      sorted sequences with the same elements are equal. */
  lemma {:induction false} SortedUnique(xs: seq<string>, ys: seq<string>)
    requires StrictlySorted(xs) && StrictlySorted(ys)
    requires forall x :: x in xs <==> x in ys
    ensures xs == ys
    decreases |xs|
  {
    assert |xs| > 0 ==> xs[0] in ys;
    assert |ys| > 0 ==> ys[0] in xs;
    if |xs| > 0 && |ys| > 0 {
      assert xs[0] in xs && ys[0] in ys;
      var i :| 0 <= i < |ys| && ys[i] == xs[0];
      var j :| 0 <= j < |xs| && xs[j] == ys[0];
      assert i > 0 ==> Less(ys[0], xs[0]);
      assert j > 0 ==> Less(xs[0], ys[0]);
      LessAsymmetric(xs[0], ys[0]);
      assert xs[0] == ys[0];
      forall x ensures x in xs[1..] <==> x in ys[1..] {
        if x in xs[1..] {
          TailAvoidsHead(xs, x);
          assert x in ys && x != ys[0];
          var k :| 0 <= k < |ys| && ys[k] == x;
          assert ys[1..][k - 1] == x;
        }
        if x in ys[1..] {
          TailAvoidsHead(ys, x);
          assert x in xs && x != xs[0];
          var k :| 0 <= k < |xs| && xs[k] == x;
          assert xs[1..][k - 1] == x;
        }
      }
      SortedUnique(xs[1..], ys[1..]);
      assert xs == [xs[0]] + xs[1..] && ys == [ys[0]] + ys[1..];
    }
  }
}
