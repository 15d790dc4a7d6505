# lintel docstring checks, modelled in Dafny

lintel is a docstring-style linter, a fork of pydocstyle built on astroid. This
project models the part of it between "a parsed definition tree" and "a stream
of violations":

- the text primitives of `utils.py` (blank tests, leading whitespace, common
  prefixes, alphanumeric stripping, leading words) and the Python string
  operations they rest on (`strip`, `split`, `expandtabs`, `lower`, `title`,
  string order), in module `PyStr` and `Utils`;
- the `# noqa` and `# pydoclint : noqa` suppression grammars (`Noqa`,
  `Suppressions`);
- the docstring view of `_docstring.py`: `content`, `raw`, `lines`, `indent`,
  `line_indents` (`DocstringView`);
- the section parser and validator of `checks/sections.py`: header
  recognition, section contexts, underline and blank-line checks, NumPy and
  Google styles, and the documented-argument cross-check D417
  (`SectionContexts`, `SectionArgs`, `SectionChecks`);
- one predicate per rule code: missing docstrings D1xx (`MissingDocstring`),
  whitespace D2xx (`WhitespaceRules`), quotes D3xx (`QuotationRules`) and
  content D4xx (`ContentRules`);
- the rule records and their gating: the `DocstringError` classes of
  `_docstring_error.py` with their messages, the `Check` records of
  `checks/_check.py` (`RuleMeta`), their discovery, duplicate detection,
  ordering and convention ignore lists (`Discovery`), the concrete catalogues
  (`RuleTables`: the shipped class catalogue with D419 and D210 as written,
  and the same catalogue with both corrected) and the error registry
  (`Registry`);
- the two dispatch engines: `check_source.py` over the class-based catalogue
  (`SourceEngine`) and `checker.py` over the function-based one
  (`LegacyEngine`), both as worklist loops proved against specification
  functions, with the worklist shown to be a depth-first traversal
  (`Traversal`).

A definition tree is a value (`Tree.Node`) whose fields carry what the rules
read from astroid: kind, name, docstring literal and its line numbers,
decorator names, positional arguments, and the publicity, binding, package and
nesting flags. The configuration (`Tree.Config`) is an input record. The
checked file's lines, the imperative-verb tables, the stemmer and the default
convention's codes come in as an environment record (`Tree.Env`). A rule either
returns, raises its error, or fails with another exception; an engine's result
is the list of items it yields, followed by the exception that ended it, if
any.

Where the source and its written description differ, the model follows the
source: `check_source.py` ends when a class-based rule fails with something
other than its own error, D400 and D415 fail on whitespace-only content, and
the D300 check fails its `assert` when no quote precedes the first line feed.

## Model

| member | source | states |
|---|---|---|
| PyStr.Strip | src/pydocstyle/utils.py:24-26 | `str.strip()`: the result is no longer than the input, starts and ends with a non-space character, and is empty exactly when the input is all whitespace |
| PyStr.LStripSplit | src/pydocstyle/utils.py:124 | `lstrip()` removes only whitespace and only from the front: the result is a suffix of the input and what it cut is all whitespace |
| PyStr.RStripSplit | src/pydocstyle/_docstring.py:36-41 | `rstrip()` removes only whitespace and only from the back: the result is a prefix of the input and what it cut is all whitespace |
| PyStr.LStripChars | src/pydocstyle/checks/sections.py:311 | `lstrip(chars)` keeps a suffix of the string that does not start with one of `chars` |
| PyStr.LStripCharsOwnChars | src/pydocstyle/checks/sections.py:466-467 | stripping a word's own characters off `word + rest` leaves exactly `rest` when `rest` does not start with one of them |
| PyStr.Split | src/pydocstyle/_docstring.py:44-45 | `split(sep)` gives at least one piece and no piece holds the separator |
| PyStr.SplitShape | src/pydocstyle/_docstring.py:44-45 | the first piece is a prefix, the last piece a suffix, and a single piece is the whole string |
| PyStr.SplitCount | src/pydocstyle/old_checks/one_liner.py:18-24 | a string splits into more than one piece exactly when it holds the separator |
| PyStr.SplitNoSeparator | src/pydocstyle/_docstring.py:44-45 | a string without the separator splits into itself alone |
| PyStr.SplitAfterPiece | src/pydocstyle/_docstring.py:44-45 | a separator after a separator-free prefix ends the first piece there |
| PyStr.SplitJoin | src/pydocstyle/_docstring.py:36-41 | `sep.join(xs).split(sep) == xs` when no piece holds the separator |
| PyStr.Before | src/pydocstyle/checks/sections.py:354-359 | `split(sep, 1)[0]` is a prefix free of the separator, and the separator follows it when it is shorter than the string |
| PyStr.Lower | src/pydocstyle/checks/mood.py:37-39 | `lower()` keeps the length and maps each character on its own |
| PyStr.Upper | src/pydocstyle/checks/capitalized.py:22-23 | `upper()` keeps the length and maps each character on its own |
| PyStr.Capitalize | src/pydocstyle/checks/capitalized.py:22-32 | `capitalize()` keeps the length |
| PyStr.Title | src/pydocstyle/checks/sections.py:269 | `title()` keeps the length |
| PyStr.LessIrreflexive | src/pydocstyle/checks/indentation.py:36-37 | Python string `<` is irreflexive |
| PyStr.LessAsymmetric | src/pydocstyle/checks/indentation.py:36-37 | Python string `<` is asymmetric |
| PyStr.LessTransitive | src/pydocstyle/checks/indentation.py:36-37 | Python string `<` is transitive |
| PyStr.LessTotal | src/pydocstyle/checks/indentation.py:36-37 | any two distinct strings are ordered one way or the other, so `min` is well defined |
| PyStr.RemoveSpaces | src/pydocstyle/checks/signature.py:24 | `replace(' ', '')` leaves no space |
| PyStr.ExpandTabs | src/pydocstyle/_docstring.py:30-31 | `expandtabs()` leaves no tab |
| PyStr.ExpandTabsWithoutTabs | src/pydocstyle/_docstring.py:30-31 | expanding tabs leaves a string without tabs unchanged |
| PyStr.FirstToken | src/pydocstyle/checks/capitalized.py:20 | `split()[0]` of a non-blank string is a non-empty run of non-space characters |
| PyStr.StripUnchanged | src/pydocstyle/_docstring.py:44-45 | a string that starts and ends with non-space characters is its own strip |
| PyStr.WordIsItsOwnToken | src/pydocstyle/checks/starts_with_this.py:27-30 | a word without whitespace is its own strip and its own first token |
| PyStr.SplitLinesKeepEnds | src/pydocstyle/checks/sections.py:411 | `splitlines(keepends=True)` gives no line for the empty string and only non-empty lines otherwise |
| PyStr.FirstLine | src/pydocstyle/_docstring.py:51 | `splitlines()[0]` is a prefix of the string without line breaks |
| PyStr.JoinAllSpace | src/pydocstyle/checks/sections.py:242-245 | a concatenation is all whitespace exactly when every piece is |
| PyStr.AllSpaceConcat | src/pydocstyle/checks/sections.py:242-245 | `a + b` is all whitespace exactly when both are |
| Tree.ChildNodesToCheck | src/pydocstyle/check_source.py:108-115 | the result holds exactly the module, class and function children, and no more of them than there are children |
| Tree.GetLine | src/pydocstyle/checks/blank_lines_before_docstring.py:55-68 | `linecache.getline`: the line for a 1-based number inside the file, the empty string outside it |
| Utils.IsBlank | src/pydocstyle/utils.py:24-26 | true exactly when every character is whitespace |
| Utils.HasContent | src/pydocstyle/utils.py:29-31 | true exactly when some character is not whitespace, the negation of `is_blank` |
| Utils.LeadingBlanks | src/pydocstyle/checks/blank_lines_after_docstring.py:57-67 | the leading run of blank lines: all lines below it are blank and the line at it is not |
| Utils.LeadingBlanksUnique | src/pydocstyle/checks/blank_lines_after_docstring.py:57-67 | any count of blank lines that stops at a non-blank line or at the end is that run's length |
| Utils.Pairwise | src/pydocstyle/utils.py:34-44 | one pair per element: each element with its successor and the last with the default; nothing for an empty input |
| Utils.CommonPrefix | src/pydocstyle/utils.py:47-57 | at most both lengths; the strings agree below it and differ at it unless one ends there |
| Utils.CommonPrefixLongest | src/pydocstyle/utils.py:47-57 | every common prefix is at most that long |
| Utils.CommonPrefixUnique | src/pydocstyle/utils.py:47-57 | any position where the strings agree below and differ at (or one ends) is the common prefix length |
| Utils.CommonPrefixLength | src/pydocstyle/utils.py:47-57 | the loop with its early return computes the longest common prefix length |
| Utils.CommonPrefixExamples | tests/unit/test_utils.py:11-28 | the four unit-test values 3, 0, 2 and 0 |
| Utils.StripNonAlphanumeric | src/pydocstyle/utils.py:60-62 | only ASCII letters and digits remain; an all-alphanumeric string is unchanged and one without any becomes empty |
| Utils.StripNonAlphanumericAppend | src/pydocstyle/utils.py:60-62 | stripping distributes over concatenation |
| Utils.LeadingSpace | src/pydocstyle/utils.py:65-71 | the maximal whitespace prefix: the string is that prefix followed by its left-stripped rest |
| Utils.GetLeadingWords | src/pydocstyle/utils.py:197-206 | the longest prefix of the stripped line made of word characters and spaces |
| Noqa.SkipSpaceSkipsSpace | src/pydocstyle/utils.py:83-84 | `\s*` steps over whitespace only and stops at a non-space character or the end |
| Noqa.CodesBelowMatches | src/pydocstyle/utils.py:91 | a code is collected exactly when `D\d{0,3}\b` matches at some position and reports it |
| Noqa.CodesAreCodes | src/pydocstyle/utils.py:91 | every collected string is a `D` followed by at most three digits |
| Noqa.CollectCodes | src/pydocstyle/utils.py:90-92 | the loop adds exactly the codes `findall` reports to the set it is given |
| Noqa.LastDigitCodeIsLast | src/pydocstyle/utils.py:84 | the backtracking point of `[\sA-Z\d,]*D\d+` is the last `D` followed by a digit, and there is none only when no such position exists |
| Noqa.ListFromMatches | src/pydocstyle/utils.py:84 | the list matches exactly when its run of list characters holds a `D` followed by a digit, and the match then ends with a digit |
| Noqa.ModuleScanIsSuppressions | src/pydocstyle/utils.py:86-92 | the line scan with its early return gives `{"all"}` exactly when some line is a `# pydoclint: noqa` comment, else the union of the `# noqa:` lists' codes |
| Noqa.GetModuleSuppressions | src/pydocstyle/utils.py:79-92 | the module loop computes those module suppressions |
| Noqa.AddModuleLineCodes | src/pydocstyle/utils.py:90-92 | one module line adds exactly the codes of its `# noqa:` list |
| Noqa.ModuleLineCodesAreCodes | src/pydocstyle/utils.py:84-92 | a module line contributes codes only |
| Noqa.ModuleCodesAreCodes | src/pydocstyle/utils.py:84-92 | specific module suppressions are codes, so they never contain "all" |
| Noqa.LastBelowIsLast | src/pydocstyle/utils.py:103 | the greedy `.*` ends at the last position from which the rest of the pattern matches |
| Noqa.GetLineSuppressions | src/pydocstyle/utils.py:101-114 | `_get_line_noqa` is `{"all"}` for a bare `# noqa` comment, else the codes of the last `# noqa:` list on the line |
| Noqa.LineSuppressionsShape | src/pydocstyle/utils.py:101-114 | inline suppressions are either `{"all"}` or a set of codes |
| Noqa.FirstDefinitionLine | src/pydocstyle/utils.py:123-125 | the first line that starts, after whitespace, with `def`, `async def` or `class`, and none only when no line does |
| Noqa.DefinitionLine | src/pydocstyle/utils.py:117-127 | a definition line of the node's span when one exists, and otherwise the ValueError with the node's name |
| Suppressions.CodesToSkip | src/pydocstyle/utils.py:74-98 | module suppressions for a module, the definition line's inline suppressions for a function or class, an error only when that line is missing, nothing for other nodes |
| Suppressions.GetErrorCodesToSkip | src/pydocstyle/utils.py:74-98 | the loops compute `CodesToSkip` |
| Suppressions.CodesToSkipShape | src/pydocstyle/utils.py:74-98 | a node's suppressions are either `{"all"}` or a set of codes |
| DocstringView.Content | src/pydocstyle/_docstring.py:28-31 | the content has no tab, and equals the literal when the literal has none |
| DocstringView.RawSplitsIntoLines | src/pydocstyle/_docstring.py:33-41 | splitting `raw` on line feeds gives back the right-stripped source lines of the docstring's span |
| DocstringView.MakeDocstring | src/pydocstyle/_docstring.py:13-26 | a ValueError with the node's name exactly when the node has no doc node; otherwise the content and raw of its doc node |
| DocstringView.GetDocstring | src/pydocstyle/_docstring.py:72-79 | None exactly when there is no doc node, i.e. exactly when the constructor would raise, else the constructed docstring |
| DocstringView.Lines | src/pydocstyle/_docstring.py:43-45 | never empty; the first line does not start with whitespace, the last does not end with it, and a single line is the stripped content |
| DocstringView.FirstQuoteStartIsFirst | src/pydocstyle/_docstring.py:51 | the lazy `(.*?)` stops at the first position where `[uU]?[rR]?("""|''')` matches |
| DocstringView.Indent | src/pydocstyle/_docstring.py:47-53 | only spaces, one per character before the first opening quotes and their prefix; an error exactly when raw is empty or its first line has no triple quotes |
| DocstringView.IndentLineNumbers | src/pydocstyle/_docstring.py:58-64 | the numbers of the raw lines after the first that have content and do not follow a line ending in a backslash: every such line, only those, in increasing order |
| DocstringView.KeptSecondsFrom | src/pydocstyle/_docstring.py:58-64 | over `pairwise(lines, "")`, a filter that never keeps the last pair keeps exactly the accepted lines, each once, in order |
| DocstringView.IndentedLinesInOrder | src/pydocstyle/_docstring.py:58-64 | the lines kept for `line_indents` are the lines at those numbers, in order |
| DocstringView.LineIndentsInOrder | src/pydocstyle/_docstring.py:55-66 | `line_indents` has one entry per such line, and its `m`-th entry is the leading whitespace of the `m`-th such line |
| DocstringView.LineIndentsSource | src/pydocstyle/_docstring.py:55-66 | each entry is the leading whitespace of a raw line after the first that has content and does not follow a line ending in a backslash |
| DocstringView.LineIndentsComplete | src/pydocstyle/_docstring.py:55-66 | every such line contributes its leading whitespace |
| SectionContexts.LowerAll | src/pydocstyle/checks/sections.py:490 | each section name lower-cased, in order |
| SectionContexts.PreviousLine | src/pydocstyle/checks/sections.py:506 | `lines[i - 1]`: the line before, and the docstring's last line for the first line |
| SectionContexts.ConfirmedIndicesExact | src/pydocstyle/checks/sections.py:497-516 | the header indices, increasing, are exactly the suspected lines that pass `_is_docstring_section` |
| SectionContexts.BodyEnd | src/pydocstyle/checks/sections.py:520-526 | a section's body ends after its header and within the docstring |
| SectionContexts.Contexts | src/pydocstyle/checks/sections.py:474-529 | one context per confirmed header, in order |
| SectionContexts.ContextIsConfirmed | src/pydocstyle/checks/sections.py:162-184 | each context is a suspected line whose name part is followed by nothing or a single colon and whose previous line (the last line, for line 0) is blank or ends with `, ; . - \ / ] } )` |
| SectionContexts.ConfirmedHeaderHasContext | src/pydocstyle/checks/sections.py:497-529 | conversely, every suspected line that passes the test heads a context |
| SectionContexts.SectionAtBody | src/pydocstyle/checks/sections.py:520-529 | a body runs to the next confirmed header; the last section's body stops before the docstring's final line, and only the last section is flagged last |
| SectionContexts.GapHasNoIndex | src/pydocstyle/checks/sections.py:497-499 | no index between two consecutive found indices satisfies the test |
| SectionContexts.BodyHasNoHeader | src/pydocstyle/checks/sections.py:520-529 | no line of a section's body is itself a confirmed header |
| SectionArgs.ParameterLines | src/pydocstyle/checks/sections.py:333-335 | the body with backslash-newline continuations removed, split into at least one line |
| SectionArgs.NumpyDocumentedIff | src/pydocstyle/checks/sections.py:336-364 | a name is documented exactly when some line, indented like the header and followed by a further-indented line with content, has it among the comma-separated pieces before its first colon |
| SectionArgs.DeclaredAtLine | src/pydocstyle/checks/sections.py:344-364 | a declaration line contributes its names and any other line none |
| SectionArgs.ParametersSection | src/pydocstyle/checks/sections.py:330-364 | the loop collects exactly the documented NumPy names |
| SectionArgs.DeclarationNames | src/pydocstyle/checks/sections.py:354-364 | the inner loop adds exactly the stripped comma-separated names of the line |
| SectionArgs.ArgIndent | src/pydocstyle/checks/sections.py:397-398 | the first line's leading whitespace, or the empty string for a blank first line |
| SectionArgs.KeptLines | src/pydocstyle/checks/sections.py:400-406 | exactly the body lines that start with that indentation or are empty |
| SectionArgs.Margin | src/pydocstyle/checks/sections.py:400 | `dedent`'s margin prefixes the indentation of every line with text, and is absent only when no line has text |
| SectionArgs.MarginLongest | src/pydocstyle/checks/sections.py:400 | it is the longest such common prefix |
| SectionArgs.DedentLines | src/pydocstyle/checks/sections.py:400 | lines of spaces and tabs become empty, every other line is the margin followed by its dedented form |
| SectionArgs.FirstLineStartsClean | src/pydocstyle/checks/sections.py:408-412 | the first line of stripped content does not start with whitespace |
| SectionArgs.Entries | src/pydocstyle/checks/sections.py:410-419 | every entry is non-empty and starts with a non-space character |
| SectionArgs.EntriesJoin | src/pydocstyle/checks/sections.py:410-419 | grouping loses and adds nothing: the entries spell out the lines |
| SectionArgs.EntriesLastJoin | src/pydocstyle/checks/sections.py:410-419 | the last line extends the spelled-out entries by itself |
| SectionArgs.GroupEntries | src/pydocstyle/checks/sections.py:410-419 | the loop that appends a new entry or extends the last one computes `Entries` |
| SectionArgs.GoogleArgName | src/pydocstyle/checks/sections.py:104-124 | a name exactly when, after whitespace, a word is followed by whitespace, an optional parenthesized type, a colon and text; the name is that word |
| SectionArgs.NameAtEntry | src/pydocstyle/checks/sections.py:421-424 | an entry contributes its argument name when it matches, and nothing otherwise |
| SectionArgs.ArgLines | src/pydocstyle/checks/sections.py:400-411 | the dedented, stripped lines are non-empty and the first does not start with whitespace |
| SectionArgs.GoogleDocumentedIff | src/pydocstyle/checks/sections.py:392-424 | a name is documented exactly when one of the grouped entries matches the pattern with that name |
| SectionArgs.ArgsSection | src/pydocstyle/checks/sections.py:392-424 | the loops collect exactly the documented Google names |
| SectionArgs.Insert | src/pydocstyle/checks/sections.py:449 | insertion keeps a strictly sorted sequence sorted and adds exactly the element |
| SectionArgs.SortedMissing | src/pydocstyle/checks/sections.py:440-449 | strictly sorted, holding exactly the required undocumented arguments |
| SectionArgs.MissingArgs | src/pydocstyle/checks/sections.py:428-449 | at most one D417, present exactly when the node is a function with a required undocumented argument; it lists them sorted and joined with ", " and names the function |
| SectionArgs.SortedUnique | src/pydocstyle/checks/sections.py:449 | two strictly sorted sequences with the same elements are equal, so the listing depends on the set alone |
| SectionChecks.DashRun | src/pydocstyle/checks/sections.py:224 | `'-' * n` has n characters, all dashes |
| SectionChecks.CodeCount | src/pydocstyle/checks/sections.py:439-449 | at most the number of violations, and zero exactly when none has the code |
| SectionChecks.CodeCountAppend | src/pydocstyle/checks/sections.py:439-449 | counts add up over concatenation |
| SectionChecks.AfterUnderline | src/pydocstyle/checks/sections.py:234-250 | only D412 or D414 after a dash underline |
| SectionChecks.DashFiresReports | src/pydocstyle/checks/sections.py:221-232 | D408, D409 (with both lengths) and D215 each reported exactly under its condition, and no D407 |
| SectionChecks.UnderlineCodesOnly | src/pydocstyle/checks/sections.py:187-250 | the underline checks give only D407, D408, D409, D412, D414 and D215 |
| SectionChecks.UnderlineErrors | src/pydocstyle/checks/sections.py:187-250 | the same bound on the codes once the opening blank lines are counted |
| SectionChecks.UnderlineCheck | src/pydocstyle/checks/sections.py:201-250 | the counting loop with its `for ... else` computes the underline errors |
| SectionChecks.BlankBodyNeedsUnderlineAndContent | src/pydocstyle/checks/sections.py:203-211 | an empty or all-blank body gives exactly D407 then D414 |
| SectionChecks.MissingUnderline | src/pydocstyle/checks/sections.py:213-219 | a first non-blank line that is not dashes gives D407, plus D412 exactly when blank lines precede it |
| SectionChecks.DashUnderline | src/pydocstyle/checks/sections.py:220-232 | a dash underline gives D408 iff blank lines precede it, D409 iff its length differs from the name's, D215 iff its indentation compares greater than the docstring's, and never D407 |
| SectionChecks.DashRunIff | src/pydocstyle/checks/sections.py:224 | a run of dashes equals `'-' * k` exactly when it has k dashes |
| SectionChecks.AfterUnderlineCases | src/pydocstyle/checks/sections.py:234-250 | D414 when the body ends at the underline; nothing when the next line has text; after a blank line, D412 if later text exists and D414 otherwise |
| SectionChecks.FireFour | src/pydocstyle/checks/sections.py:271-289 | four guarded yields with distinct codes yield each exactly when its guard holds, and nothing else |
| SectionChecks.HeaderFiresReports | src/pydocstyle/checks/sections.py:271-293 | each header check reports exactly under its condition, also ahead of the underline checks |
| SectionChecks.HeaderFiresOwn | src/pydocstyle/checks/sections.py:271-289 | each header check reports exactly under its condition, with no other code |
| SectionChecks.CommonErrors | src/pydocstyle/checks/sections.py:253-293 | only the codes of the common and underline checks |
| SectionChecks.CommonReports | src/pydocstyle/checks/sections.py:268-289 | D405 iff the name is only valid title-cased; D214 iff the header is over-indented; D413 for the last section and D410 otherwise iff the body does not end blank; D411 iff the previous line is not blank |
| SectionChecks.SuffixErrors | src/pydocstyle/checks/sections.py:311-314 | NumPy: D406 exactly when the name-stripped header is non-empty; Google: D416 exactly when it is not a lone colon |
| SectionChecks.ArgsErrors | src/pydocstyle/checks/sections.py:316-317 | at most one violation, and only D417 |
| SectionChecks.NumpySectionErrors | src/pydocstyle/checks/sections.py:296-317 | only common codes, D406 and D417 |
| SectionChecks.GoogleSectionErrors | src/pydocstyle/checks/sections.py:452-471 | only common codes, D416 and D417 |
| SectionChecks.SectionErrors | src/pydocstyle/checks/sections.py:296-317 | only the codes of its style |
| SectionChecks.SuffixReports | src/pydocstyle/checks/sections.py:311-314 | a NumPy section reports D406 iff the header has more than the name; a Google section reports D416 iff that remainder is not a lone colon |
| SectionChecks.ColonSuffix | src/pydocstyle/checks/sections.py:466 | a header written `Name:` leaves the suffix `:` |
| SectionChecks.ColonHeader | src/pydocstyle/checks/sections.py:311-314 | so `Parameters:` gets D406 as a NumPy section and no D416 as a Google one |
| SectionChecks.OnlyLastPartCounts | src/pydocstyle/checks/sections.py:296-317 | the count of a code absent from the first two parts is that of the last |
| SectionChecks.AtMostOneD417 | src/pydocstyle/checks/sections.py:439-449 | D417 at most once per section |
| SectionChecks.AllSectionErrors | src/pydocstyle/checks/sections.py:555-559 | the sections' errors, in order, use only the style's codes |
| SectionChecks.AllSectionErrorsStep | src/pydocstyle/checks/sections.py:555-559 | one more section appends its own errors |
| SectionChecks.StyleErrors | src/pydocstyle/checks/sections.py:532-587 | a generator result whose items use only the style's codes |
| SectionChecks.OneLineHasNoSections | src/pydocstyle/checks/sections.py:595-597 | a one-line content yields nothing |
| SectionChecks.NumpyExcludesGoogle | src/pydocstyle/checks/sections.py:599-602 | once a NumPy section is found every report has a NumPy code and none is D416 |
| SectionChecks.CheckDocstringSections | src/pydocstyle/checks/sections.py:590-602 | NumPy sections, then Google sections only if none was found, as `Sections` |
| SectionChecks.CheckSections | src/pydocstyle/checks/sections.py:554-559 | the loop over one style's sections computes their errors in order |
| MissingDocstring.MissingImplementation | src/pydocstyle/checks/missing_docstring.py:23-186 | each rule only ever raises its own code with no parameters, and never fails otherwise |
| MissingDocstring.MissingRulesAgree | src/pydocstyle/checks/missing_docstring.py:23-186 | the rule for a code fires on a node of its kind exactly when the docstring is missing and the node is a public module (D104 iff package, else D100), class (D106 iff nested, else D101) or function that is not an overload: D103 unbound outside a function, D107 a bound `__init__`, D102 a bound non-dunder, D105 a bound dunder other than `__new__`/`__init__`/`__call__` |
| MissingDocstring.PackageGetsD104 | tests/unit/checks/test_missing_package_docstring.py:4-13 | an `__init__.py` module without a docstring gets D104 and not D100 |
| MissingDocstring.InitGetsOnlyD107 | src/pydocstyle/checks/missing_docstring.py:70-77 | a public bound `__init__` meets D107's condition and neither D102's nor D105's |
| WhitespaceRules.MinString | src/pydocstyle/checks/indentation.py:36 | Python's `min` over strings is an element that no element is below |
| WhitespaceRules.MinBelowIff | src/pydocstyle/checks/indentation.py:36 | `min(xs) < b` exactly when some element is below `b` |
| WhitespaceRules.MinAboveIff | src/pydocstyle/checks/indentation.py:54 | `min(xs) > b` exactly when every element is above `b` |
| WhitespaceRules.UnderIndentedIff | src/pydocstyle/checks/indentation.py:33-37 | D207's condition holds exactly when some line indent compares below the docstring's indent |
| WhitespaceRules.ConsistentIndentPasses | src/pydocstyle/checks/indentation.py:14-56 | lines indented exactly like the all-space quote indent pass D206, D207 and D208 |
| WhitespaceRules.IndentationImplementation | src/pydocstyle/checks/indentation.py:7-56 | nothing when `line_indents` is empty; otherwise a failure exactly when `indent` cannot be computed, and the rule's own code exactly when D206 (a tab), D207 (some line under-indented) or D208 (all but the last over-indented, or the last) holds |
| WhitespaceRules.IndentationGenerator | src/pydocstyle/checks/indentation.py:7-56 | the three rules in one run: a failure exactly when the indentation cannot be computed, else what D206, D208 and D207 raise |
| WhitespaceRules.LinesAfter | src/pydocstyle/checks/blank_lines_after_docstring.py:60-63 | the source lines from after the docstring to one past the node's end, one per line number |
| WhitespaceRules.NoBlankAfterFunction | src/pydocstyle/checks/blank_lines_after_docstring.py:16-38 | D202 with the blank count exactly when some blank lines follow, the definition is not empty, and it is not one blank line before an inner definition |
| WhitespaceRules.SingleBlankAfterClass | src/pydocstyle/checks/blank_lines_after_docstring.py:41-54 | D204 with the blank count exactly when that count is not 1 (an empty definition has count 1) |
| WhitespaceRules.BlanksBeforeDocstring | src/pydocstyle/checks/blank_lines_before_docstring.py:55-68 | the upward loop returns the count of blank lines directly above the docstring; those lines are blank, lie at line 1 or below the docstring, and the line above them, if any, has content |
| WhitespaceRules.RunAboveSpan | src/pydocstyle/checks/blank_lines_before_docstring.py:61-66 | a run counted upwards stays above line 1, holds only accepted lines, and stops at a line that is not accepted |
| WhitespaceRules.BlanksAboveSpan | src/pydocstyle/checks/blank_lines_before_docstring.py:61-66 | the counted lines are blank, never more than the lines above, and the line above them, if any, has content |
| WhitespaceRules.NoBlankBeforeFunction | src/pydocstyle/checks/blank_lines_before_docstring.py:16-26 | D201 with the count exactly when the count is positive |
| WhitespaceRules.SingleBlankBeforeClass | src/pydocstyle/checks/blank_lines_before_docstring.py:29-39 | D203 with the count exactly when the count is not 1 |
| WhitespaceRules.NoBlankBeforeClass | src/pydocstyle/checks/blank_lines_before_docstring.py:42-52 | D211 with the count exactly when the count is not 0 |
| WhitespaceRules.ClassBlankRulesConflict | src/pydocstyle/checks/blank_lines_before_docstring.py:29-52 | every class gets D203 or D211, and both with two or more blank lines |
| WhitespaceRules.BlankAfterSummary | src/pydocstyle/checks/blank_line_between_summary_and_content.py:15-36 | nothing for one stripped line; otherwise D205 with the count of blank lines after the summary exactly when that count is not 1 |
| WhitespaceRules.SummaryStartExactlyOne | src/pydocstyle/checks/summary_start.py:14-37 | multi-line content gets exactly one of D212 and D213; one line gets neither |
| WhitespaceRules.MultiLineSummaryStart | src/pydocstyle/checks/summary_start.py:21-37 | a result exactly for multi-line content: D212 when the first line is blank, D213 when it has content |
| WhitespaceRules.StrippedLinesNeverSurrounded | src/pydocstyle/checks/surrounding_spaces.py:16-21 | over `docstring.lines`, built from stripped content, the D210 condition never holds |
| WhitespaceRules.SurroundingWhitespaces | src/pydocstyle/old_checks/surrounding_spaces.py:14-24 | D210 exactly when the content starts with a space, or is a single line ending with a space |
| WhitespaceRules.CountContent | src/pydocstyle/old_checks/one_liner.py:20 | the count of lines with content is at most the number of lines |
| WhitespaceRules.CountContentOne | src/pydocstyle/old_checks/one_liner.py:20 | a single line with content counts 1 |
| WhitespaceRules.CountNone | src/pydocstyle/old_checks/one_liner.py:20 | no line with content counts 0 |
| WhitespaceRules.CountContentOneIff | src/pydocstyle/old_checks/one_liner.py:20 | the count of lines with content is 1 exactly when some line has content and no other line does |
| WhitespaceRules.OneLiner | src/pydocstyle/old_checks/one_liner.py:15-26 | D200 with the line count exactly when there are several lines and exactly one of them has content |
| WhitespaceRules.NewlineAfterLastParagraph | src/pydocstyle/old_checks/newline_after_last_paragraph.py:14-31 | D209 exactly when there are several lines and the last has content |
| WhitespaceRules.EmptyDocstring | src/pydocstyle/old_checks/empty_docstring.py:15-21 | D419 exactly when the content has no non-whitespace character |
| ContentRules.Summary | src/pydocstyle/checks/ending.py:39 | the first line of the stripped content: a prefix of it without line feeds, empty exactly when the content is all whitespace |
| ContentRules.CheckEndsWith | src/pydocstyle/checks/ending.py:32-45 | a failure exactly for whitespace-only content; otherwise a report exactly when the summary ends with none of the characters, carrying its last character |
| ContentRules.PunctuationImpliesPeriod | src/pydocstyle/checks/ending.py:10-45 | whenever D415 fires, D400 fires too, with the same parameter |
| ContentRules.EndingImplementation | src/pydocstyle/checks/ending.py:10-29 | D400 or D415 fails exactly on whitespace-only content and raises its own code exactly when the summary does not end with `.` (D400) or with one of `.!?` (D415) |
| ContentRules.BestForm | src/pydocstyle/checks/mood.py:47-50 | `max` by common prefix length: no form shares more, and every earlier form shares strictly less |
| ContentRules.ImperativeMood | src/pydocstyle/checks/mood.py:19-64 | nothing for tests, properties or blank content; D401b (code D401) with the first word for a blacklisted word; otherwise a report exactly when the stem has forms and the word is not one, carrying the capitalised first best form and the word |
| ContentRules.NotSignature | src/pydocstyle/checks/signature.py:13-27 | D402 exactly when `name(` occurs in the summary once spaces are removed |
| ContentRules.Capitalized | src/pydocstyle/checks/capitalized.py:15-32 | a failure exactly on whitespace-only content; D403 with the capitalised word and the word exactly when the word is not upper case or capitalised, does not start with an apostrophe and is all ASCII letters and apostrophes |
| ContentRules.StartsWithThis | src/pydocstyle/checks/starts_with_this.py:13-32 | nothing for blank content; otherwise D404 exactly when the first word, stripped of non-alphanumerics, lower-cases to "this" |
| ContentRules.OneWordContent | src/pydocstyle/checks/starts_with_this.py:27-30 | a one-word content reports D404 exactly when that word is "this" in some letter case |
| ContentRules.WordThenPunctuation | src/pydocstyle/checks/starts_with_this.py:27-30 | punctuation after the word does not change that |
| ContentRules.ThisWithPeriodFires | src/pydocstyle/checks/starts_with_this.py:27-32 | "This." is reported |
| ContentRules.LowerThis | src/pydocstyle/checks/starts_with_this.py:29 | any letter-case spelling of "this" lower-cases to "this" |
| ContentRules.UpperCaseThisFires | src/pydocstyle/checks/starts_with_this.py:29-32 | "THIS" is reported |
| ContentRules.ThistleDoesNotFire | src/pydocstyle/checks/starts_with_this.py:27-30 | "Thistle" is not reported |
| ContentRules.Overload | src/pydocstyle/checks/overload.py:12-24 | D418 exactly when "overload" is among the decorator names |
| QuotationRules.FirstQuote | src/pydocstyle/old_checks/quotation.py:37 | the first quote character before any line feed, and none only when no quote comes before a line feed |
| QuotationRules.RunLength | src/pydocstyle/old_checks/quotation.py:37 | the greedy run of one quote character |
| QuotationRules.IllegalQuotes | src/pydocstyle/old_checks/quotation.py:37-40 | a failed `assert` exactly when no quote precedes the first line feed; otherwise a non-empty run of one quote character starting at the first quote |
| QuotationRules.TripleDoubleQuotes | src/pydocstyle/old_checks/quotation.py:13-45 | nothing when the accepted quotes match; a failure exactly when they do not and no quote is found; otherwise D300 with the first run of quotes unless it is exactly `"""` |
| QuotationRules.DoubleQuotedDocstringPasses | src/pydocstyle/old_checks/quotation.py:32-35 | a docstring opened with `"""` followed by text passes |
| QuotationRules.SingleQuotedDocstringReported | src/pydocstyle/old_checks/quotation.py:37-45 | a docstring opened with `'''` whose content has no `"""` is reported with `'''` |
| QuotationRules.Backslashes | src/pydocstyle/old_checks/quotation.py:48-70 | D301 exactly when the content has a backslash not followed by a line feed, `u` or `N`, and raw does not start with `r` or `ur` after stripping |
| QuotationRules.RawPrefixSilencesBackslashes | src/pydocstyle/old_checks/quotation.py:63-70 | the same backslash is reported in `"""…` and not in `r"""…` |
| RuleMeta.DocstringErrorClass | src/pydocstyle/_docstring_error.py:22-36 | a subclass that sets only name, description and implementation applies to every checked node kind, is skipped for a missing or empty docstring and is not terminal |
| RuleMeta.ClassCheck | src/pydocstyle/_docstring_error.py:88-107 | nothing passes through when the node kind is not applicable, when the docstring is missing and the class does not ask for it, or when the content is empty and the class does not ask for it; otherwise the implementation's outcome on the node's docstring |
| RuleMeta.WhitespaceContentIsChecked | src/pydocstyle/_docstring_error.py:100-107 | content that is not exactly empty passes the emptiness gate, so the implementation runs on whitespace-only content |
| RuleMeta.NatDigits | src/pydocstyle/_docstring_error.py:81 | a non-empty string of decimal digits |
| RuleMeta.NatDigitsValue | src/pydocstyle/_docstring_error.py:81 | reading the digits back gives the number |
| RuleMeta.Decimal | src/pydocstyle/_docstring_error.py:81 | `str` of a line number is non-empty |
| RuleMeta.Hex2 | src/pydocstyle/_docstring_error.py:75 | two hexadecimal digits |
| RuleMeta.ReprChar | src/pydocstyle/_docstring_error.py:75 | each character is written as at least one character |
| RuleMeta.ReprString | src/pydocstyle/_docstring_error.py:75 | `repr` is enclosed by the same quote character, single or double |
| RuleMeta.ReprPlain | src/pydocstyle/_docstring_error.py:75 | a string without quotes, backslashes or control characters is its own text between single quotes |
| RuleMeta.PlainBody | src/pydocstyle/_docstring_error.py:75 | such a string is copied unchanged inside the quotes |
| RuleMeta.FormatWithoutBraces | src/pydocstyle/_docstring_error.py:75 | a template without braces formats to itself whatever the arguments |
| RuleMeta.HeadCopied | src/pydocstyle/_docstring_error.py:75 | brace-free text before a field is copied as it is |
| RuleMeta.FormatSingleField | src/pydocstyle/_docstring_error.py:75 | one `{}` or `{!r}` field takes the first argument, written with `str` or `repr`, and later arguments are ignored |
| RuleMeta.Message | src/pydocstyle/_docstring_error.py:69-75 | a message starts with the code and ": ", and exists exactly when the description formats with the parameters, None counting as no parameters |
| RuleMeta.MessageWithoutBraces | src/pydocstyle/_docstring_error.py:69-75 | a brace-free description gives "code: description" whatever the parameters |
| RuleMeta.ErrorString | src/pydocstyle/_docstring_error.py:77-83 | the text starts with file, ":", line and " in " and ends with the quoted node name, the arrow and the message |
| RuleMeta.CheckDecorator | src/pydocstyle/checks/_check.py:36-63 | the decorated check keeps the given node types, the three flags, the function and its docstring unchanged |
| RuleMeta.DecoratorDefaults | src/pydocstyle/checks/_check.py:36-41 | by default a check is not terminal and runs only on an existing, non-empty docstring |
| RuleMeta.CallCheck | src/pydocstyle/checks/_check.py:26-29 | calling a check gives what its wrapped function gives |
| Discovery.SharedIgnores | src/pydocstyle/_get_checks.py:11-57 | D203 and D213 are ignored in every convention; D417 is ignored exactly outside Google |
| Discovery.ChecksFromModule | src/pydocstyle/_get_checks.py:95-105 | a class is yielded exactly when it is a proper subclass of `DocstringError` among the module's attributes |
| Discovery.Discovered | src/pydocstyle/_get_checks.py:64-67 | a class is collected exactly when it is a subclass found in one of the modules |
| Discovery.DiscoverChecks | src/pydocstyle/_get_checks.py:62-67 | the collecting loop gives the classes of all modules in order |
| Discovery.Codes | src/pydocstyle/_get_checks.py:69 | the code of each class, position by position |
| Discovery.FirstRepeated | src/pydocstyle/_get_checks.py:69-74 | the first position whose code occurs again later, with no earlier one; none exactly when no code repeats |
| Discovery.FirstRepeatedNone | src/pydocstyle/_get_checks.py:69-72 | no repeated position exactly when the codes are pairwise distinct |
| Discovery.FirstRepeatedIsFirstSeen | src/pydocstyle/_get_checks.py:69-75 | the code named in the error is the first, by first occurrence, that occurs twice |
| Discovery.KeyBeforeTransitive | src/pydocstyle/_get_checks.py:77 | the sort key `(not terminal, code)` is transitive |
| Discovery.KeyBeforeAsymmetric | src/pydocstyle/_get_checks.py:77 | and asymmetric |
| Discovery.Insert | src/pydocstyle/_get_checks.py:77 | insertion adds exactly the one element |
| Discovery.InsertSorted | src/pydocstyle/_get_checks.py:77 | insertion keeps a list sorted by the key |
| Discovery.SortChecks | src/pydocstyle/_get_checks.py:77 | `sorted` returns a permutation |
| Discovery.SortChecksSorted | src/pydocstyle/_get_checks.py:77 | and that permutation is sorted by the key |
| Discovery.GetChecks | src/pydocstyle/_get_checks.py:60-77 | a RuntimeError exactly when two classes share a code, naming a duplicated code; otherwise a permutation of the discovered classes sorted by the key |
| Discovery.GetChecksOrder | src/pydocstyle/_get_checks.py:77 | terminal classes come before non-terminal ones, and classes of the same kind ascend by code |
| Discovery.DistinctNames | src/pydocstyle/_get_checks.py:72-77 | the sorted classes carry pairwise distinct codes |
| Discovery.OnceInDistinct | src/pydocstyle/_get_checks.py:72-77 | a class with a unique code occurs once |
| Discovery.CodeSet | src/pydocstyle/_get_checks.py:82 | a code is in the set exactly when some class carries it |
| Discovery.GetErrorCodes | src/pydocstyle/_get_checks.py:80-87 | fails exactly when `get_checks` does; otherwise a code is in the set exactly when a discovered class carries it and the convention, if given, does not ignore it |
| Discovery.SameCodes | src/pydocstyle/_get_checks.py:82 | permuted classes have the same code set |
| Discovery.ConventionCodesWithinAll | src/pydocstyle/_get_checks.py:84-85 | the codes of a convention are a subset of all codes |
| Discovery.PackageChecks | src/pydocstyle/checker.py:136-142 | a check is kept exactly when it is a `Check` attribute of the package |
| Discovery.Kept | src/pydocstyle/checker.py:143 | the checks of one kind are no more than the checks |
| Discovery.KeptMembers | src/pydocstyle/checker.py:143 | a check is kept exactly when it is in the list with that `terminal` flag |
| Discovery.KeptSplits | src/pydocstyle/checker.py:143 | the two kinds together are a permutation of the list |
| Discovery.KeptOfConcat | src/pydocstyle/checker.py:143 | selecting a kind distributes over concatenation |
| Discovery.KeptTwice | src/pydocstyle/checker.py:143 | selecting a kind twice is selecting it once, and the other kind is then empty |
| Discovery.OrderChecks | src/pydocstyle/checker.py:135-143 | the stable sort by `not terminal`: a permutation of the package's checks with every terminal check first, each kind in package order |
| Discovery.TerminalFirst | src/pydocstyle/checker.py:143 | terminal checks then non-terminal ones is ordered by the key |
| Discovery.TerminalsBeforeOthers | src/pydocstyle/checker.py:143 | no non-terminal check precedes a terminal one |
| Discovery.SoleTerminalFirst | src/pydocstyle/checker.py:143 | a package with one terminal check runs it first |
| Registry.ErrorRegistry.constructor | src/pydocstyle/error_registry.py:18-20 | a new registry has no groups and no errors |
| Registry.ErrorRegistry.AddGroup | src/pydocstyle/error_registry.py:22-23 | the group is appended and the errors are unchanged |
| Registry.ErrorRegistry.AddError | src/pydocstyle/error_registry.py:25-26 | the error is appended and the groups are unchanged |
| Registry.ModuleRegistry | src/pydocstyle/error_registry.py:37-41 | a fresh registry holding the four groups in order and no errors |
| Registry.RegistryPrefixes | src/pydocstyle/error_registry.py:37-41 | the prefixes are D1 to D4 in order and none is a prefix of another |
| Traversal.Then | src/pydocstyle/check_source.py:68-80 | an exception ends the run; otherwise the items are concatenated |
| Traversal.ThenAssociative | src/pydocstyle/check_source.py:53-80 | sequencing runs is associative |
| Traversal.ThenNothing | src/pydocstyle/check_source.py:53-80 | the empty run is its unit |
| Traversal.ThenItems | src/pydocstyle/check_source.py:53-80 | a property of every item of both parts holds of the sequence |
| Traversal.BaseCodes | src/pydocstyle/check_source.py:90-105 | select and ignore together are an IllegalConfiguration; select alone is the set; ignore alone is all codes minus it, a lookup failure passing through; neither is the convention's codes |
| Traversal.CheckedOnlyAppend | src/pydocstyle/check_source.py:108-115 | filtering the children distributes over appending one child |
| Traversal.PopShrinks | src/pydocstyle/check_source.py:53-56 | popping a node and pushing its checked children shrinks the worklist's total size, so the loop ends |
| Traversal.WalkPushed | src/pydocstyle/check_source.py:53-56 | nodes pushed on the worklist are visited, subtree by subtree from the last, before anything below them |
| Traversal.WalkIsDepthFirst | src/pydocstyle/check_source.py:51-56 | the worklist from the module is the depth-first traversal: each node before its subtree, children from last to first |
| Traversal.WalkItems | src/pydocstyle/check_source.py:51-80 | a property of every checked node's evaluation holds of every item of the walk |
| RuleTables.OnDocstring | src/pydocstyle/checks/empty_docstring.py:24-29 | an implementation that reads an attribute of the docstring fails with the AttributeError of None when there is no docstring, and otherwise gives the rule's outcome on it |
| RuleTables.MissingClass | src/pydocstyle/checks/missing_docstring.py:20-25 | a missing-docstring class carries its code, applies to its one node kind and to a missing docstring, not to an empty one, and is terminal |
| RuleTables.OnContent | src/pydocstyle/old_checks/empty_docstring.py:15-21 | a check over the content fails with the AttributeError of None without a docstring, and gives the rule's single result on the content otherwise |
| RuleTables.OnContentOrFail | src/pydocstyle/checks/capitalized.py:15-32 | the same for a rule that may itself fail on the content |
| RuleTables.OnBlanksBefore | src/pydocstyle/checks/blank_lines_before_docstring.py:55-68 | a check over the number of blank lines above the docstring's first line |
| RuleTables.OnLinesAfter | src/pydocstyle/checks/blank_lines_after_docstring.py:57-68 | a check over the source lines after the docstring's last line |
| RuleTables.OnlyEmptyDocstringIsTerminal | src/pydocstyle/old_checks/empty_docstring.py:15 | among the package's checks, exactly the empty-docstring check is terminal |
| RuleTables.EmptyDocstringCheckFirst | src/pydocstyle/checker.py:135-143 | the intended ordering of the package's checks runs the empty-docstring check first |
| RuleTables.EmptyDocstringClassAsWrittenSilent | src/pydocstyle/checks/empty_docstring.py:28-29 | as written, the class-based D419 reports nothing on any node |
| RuleTables.BlankDocstringMissedAsWritten | src/pydocstyle/checks/empty_docstring.py:28-29 | a function whose docstring is three spaces is reported by the function-based D419 and not by the class-based one as written |
| RuleTables.EmptyDocstringClassReports | src/pydocstyle/checks/empty_docstring.py:18-29 | corrected, D419 is raised on a checked node exactly when its docstring has no non-whitespace character, only with its own code, and never fails |
| RuleTables.SurroundingSpacesClassAsWrittenSilent | src/pydocstyle/checks/surrounding_spaces.py:16-21 | as written, the class-based D210 over the stripped lines never raises |
| RuleTables.LeadingSpaceMissedAsWritten | src/pydocstyle/checks/surrounding_spaces.py:16-21 | the docstring " text" is reported by the function-based D210 and not by the class-based one as written |
| RuleTables.SurroundingSpacesClassReports | src/pydocstyle/checks/surrounding_spaces.py:9-21 | corrected, D210 is raised on a non-empty docstring exactly when its content starts with a space or is one line ending with one, only with its own code |
| RuleTables.EmptyDocstringMembers | src/pydocstyle/checks/empty_docstring.py:18-29 | the shipped empty-docstring module defines only D419, with the implementation as written |
| RuleTables.IntendedEmptyDocstringMembers | src/pydocstyle/checks/empty_docstring.py:18-29 | the intended catalogue's empty-docstring module defines only the corrected D419 |
| RuleTables.EndingMembers | src/pydocstyle/checks/ending.py:10-29 | the ending module defines D400 and D415 only |
| RuleTables.IndentationMembers | src/pydocstyle/checks/indentation.py:7-56 | the indentation module defines D206, D207 and D208 only |
| RuleTables.MissingMembers | src/pydocstyle/checks/missing_docstring.py:20-25 | the missing-docstring module defines only missing-docstring classes of D100 to D107 |
| RuleTables.SummaryStartMembers | src/pydocstyle/checks/summary_start.py:14-37 | the summary-start module defines D212 and D213 only |
| RuleTables.SurroundingSpacesMembers | src/pydocstyle/checks/surrounding_spaces.py:9-21 | the shipped surrounding-spaces module defines only D210, with the test over `docstring.lines` as written |
| RuleTables.IntendedSurroundingSpacesMembers | src/pydocstyle/checks/surrounding_spaces.py:9-21 | the intended catalogue's surrounding-spaces module defines only the corrected D210 |
| RuleTables.ContentRulesRaiseOwnCode | src/pydocstyle/checks/ending.py:10-29 | D419 and D210 as written and as corrected, D400, D415, D212 and D213 raise only their own code |
| RuleTables.IndentationRulesRaiseOwnCode | src/pydocstyle/checks/indentation.py:7-56 | D206, D207 and D208 raise only their own code |
| RuleTables.MissingRaisesOwnCode | src/pydocstyle/checks/missing_docstring.py:20-40 | every missing-docstring class raises only its own code |
| RuleTables.ModuleRaisesOwnCode | src/pydocstyle/_get_checks.py:95-105 | every class discovered in one rule module raises only its own code |
| RuleTables.LaterModuleRaisesOwnCode | src/pydocstyle/_get_checks.py:95-105 | the same for the missing-docstring, summary-start and surrounding-spaces modules |
| RuleTables.ClassRulesRaiseOwnCode | src/pydocstyle/_get_checks.py:60-67 | every class discovered in the shipped catalogue raises only its own code |
| RuleTables.IntendedSharesModule | src/pydocstyle/_get_checks.py:60-67 | the intended catalogue holds the same modules as the shipped one, apart from D419's and D210's |
| RuleTables.IntendedClassRulesRaiseOwnCode | src/pydocstyle/_get_checks.py:60-67 | every class discovered in the intended catalogue raises only its own code |
| SourceEngine.ClassStep | src/pydocstyle/check_source.py:68-80 | a class whose code is not checked contributes nothing |
| SourceEngine.ClassRun | src/pydocstyle/check_source.py:68-80 | at most one report per class, each on the node |
| SourceEngine.ClassRunCodes | src/pydocstyle/check_source.py:69-77 | when every class raises its own code, every report carries a checked code |
| SourceEngine.ReportThenCodes | src/pydocstyle/check_source.py:77 | a checked report followed by checked reports keeps every code checked |
| SourceEngine.TerminalStepIgnoresLater | src/pydocstyle/check_source.py:79-80 | a terminal class that raises ends the loop whatever comes after it |
| SourceEngine.TerminalStopsClassRun | src/pydocstyle/check_source.py:79-80 | once a terminal class has raised, the later classes are never run |
| SourceEngine.NodeRun | src/pydocstyle/check_source.py:58-80 | a node skipped by its decorators gives nothing; every report is on the node |
| SourceEngine.NodeEvaluation | src/pydocstyle/check_source.py:53-80 | the worklist applies the same evaluation to every node |
| SourceEngine.CheckSource | src/pydocstyle/check_source.py:26-80 | select and ignore together end the run with an IllegalConfiguration before anything else; a file that does not parse ends it with its error |
| SourceEngine.ModuleAllSilences | src/pydocstyle/check_source.py:46-49 | a module whose suppressions name "all" gives nothing |
| SourceEngine.NodeRunRespects | src/pydocstyle/check_source.py:58-80 | every report of a node is on a checked node not skipped by its decorators, with a code of the base set that neither the module-wide nor the node's suppressions name |
| SourceEngine.CheckSourceRespects | src/pydocstyle/check_source.py:44-80 | every report of a file is such a report, and reports exist only for a parsed file with a valid configuration |
| SourceEngine.CatalogueRespects | src/pydocstyle/check_source.py:44-80 | the same for the shipped rule modules, with D419 and D210 as written |
| SourceEngine.IntendedCatalogueRespects | src/pydocstyle/check_source.py:44-80 | the same for the catalogue with D419 and D210 corrected |
| SourceEngine.CheckSourceIsDepthFirst | src/pydocstyle/check_source.py:51-56 | the worklist evaluates each checked node once, before its subtree, children from last to first |
| SourceEngine.RunClassChecks | src/pydocstyle/check_source.py:68-80 | the class loop with its early exit gives the class run |
| SourceEngine.EvaluateNode | src/pydocstyle/check_source.py:58-80 | one pass of the loop body gives the node's run |
| SourceEngine.CheckFile | src/pydocstyle/check_source.py:44-80 | the worklist loop gives the run of `check_source` |
| LegacyEngine.EmittedItems | src/pydocstyle/checker.py:120-127 | the reports are on the node, each of an error of the list that is emitted, and every emitted error is reported |
| LegacyEngine.EmittedConcat | src/pydocstyle/checker.py:120-127 | emitting distributes over concatenation |
| LegacyEngine.FirstEmitted | src/pydocstyle/checker.py:120-130 | the first report is that of the first emitted error |
| LegacyEngine.NoqaIgnoredEmitsAll | src/pydocstyle/checker.py:121-123 | with `ignore_inline_noqa` every error is reported in order, whatever the checked codes |
| LegacyEngine.Emit | src/pydocstyle/checker.py:116-132 | a terminal check stops exactly when it emits an error, and then gives only its first emitted error; otherwise the run ends with the generator's failure |
| LegacyEngine.CheckOutcome | src/pydocstyle/checker.py:114-118 | a check that fails ends the run; a None result gives nothing |
| LegacyEngine.ThenEmittedOn | src/pydocstyle/checker.py:98-132 | emitted reports on the node stay so under sequencing |
| LegacyEngine.OutcomeEmittedOn | src/pydocstyle/checker.py:114-127 | a check gives only emitted reports on its node |
| LegacyEngine.CheckLoop | src/pydocstyle/checker.py:98-132 | the loop over the checks gives only emitted reports on the node |
| LegacyEngine.TerminalStopsCheckLoop | src/pydocstyle/checker.py:128-132 | once a terminal check has emitted an error, later checks are never run |
| LegacyEngine.NodeRun | src/pydocstyle/checker.py:79-132 | every report of a node is on that node |
| LegacyEngine.NodeEvaluation | src/pydocstyle/checker.py:70-132 | the worklist applies the same evaluation to every node |
| LegacyEngine.Checker | src/pydocstyle/checker.py:41-77 | select and ignore together end the run with an IllegalConfiguration; otherwise a file that does not parse yields its syntax error as the only item |
| LegacyEngine.NodeRunRespects | src/pydocstyle/checker.py:79-127 | unless inline noqa is ignored, every report of a node honours the base codes, the suppressions and the decorator skip |
| LegacyEngine.CheckerRespects | src/pydocstyle/checker.py:41-132 | unless inline noqa is ignored, every report of a file does |
| LegacyEngine.EmptyDocstringCheckStops | src/pydocstyle/old_checks/empty_docstring.py:15-21 | the empty-docstring check on a blank docstring reports D419 and stops the node |
| LegacyEngine.FirstCheckStops | src/pydocstyle/checker.py:128-132 | a first check that passes its gates and stops is all the node gives |
| LegacyEngine.BlankDocstringStopsAtD419 | src/pydocstyle/checker.py:98-132 | checks headed by the empty-docstring check report D419 alone on a blank docstring |
| LegacyEngine.BlankDocstringGivesOnlyD419 | src/pydocstyle/checker.py:98-143 | with the intended ordering, the package's checks report D419 alone on a blank docstring |
| LegacyEngine.GetChecksAsWritten | src/pydocstyle/checker.py:135-143 | as written, the sort key reads `_terminal`, which `Check` lacks: it fails exactly when the package has a check |
| LegacyEngine.AsWrittenFails | src/pydocstyle/checker.py:98-143 | as written, a file whose module is neither suppressed nor skipped ends with that AttributeError and no report |
| LegacyEngine.AsWrittenFailsAtFirstNode | src/pydocstyle/checker.py:98-143 | so the shipped package reports nothing on such a file |
| LegacyEngine.EmitStep | src/pydocstyle/checker.py:120-127 | one more error adds its report exactly when it is emitted |
| LegacyEngine.EmitFirstAt | src/pydocstyle/checker.py:120-130 | the first emitted error heads the reports |
| LegacyEngine.EmitErrors | src/pydocstyle/checker.py:120-130 | the loop over a check's errors, with its terminal break, gives the outcome of `Emit` |
| LegacyEngine.RunChecks | src/pydocstyle/checker.py:98-132 | the loop over the checks with the `terminate` flag gives the check loop |
| LegacyEngine.PushStep | src/pydocstyle/checker.py:75-77 | appending one child keeps the worklist equal to the nodes plus the checked children so far |
| LegacyEngine.PushCheckedChildren | src/pydocstyle/checker.py:73-77 | the worklist gains exactly the node's checked children, in order |
| LegacyEngine.EvaluateNode | src/pydocstyle/checker.py:79-132 | one pass of the loop body gives the node's run |
| LegacyEngine.CheckFile | src/pydocstyle/checker.py:41-132 | the worklist loop gives the run of `check_source` |

## Left out

- Reading files, `astroid.parse`, `linecache` and file discovery: the tree, the parse error and the file's lines are inputs.
- The command line, logging and configuration loading (`cli.py`, `_config.py`): `Configuration` is an input record.
- `get_decorator_names`, `is_public`, `is_bound`, `package`, nesting and parent kinds (astroid APIs): they are fields of the node.
- `is_private` and `is_ascii` in `utils.py`: no modelled rule uses them.
- Python's `re` engine: each pattern used (the noqa grammars, `GOOGLE_ARGS_REGEX`, the quote patterns, `[\w ]+`) is a hand-written predicate; `ignore_decorators.findall` is an uninterpreted predicate on decorator names.
- The `wordlists` module (`IMPERATIVE_VERBS`, `IMPERATIVE_BLACKLIST`, `stem`) and `Convention().error_codes`: fields of the environment.
- The `violations` module: errors are a code and a parameter list; the registry codes that `checker.py` reads are a parameter.
- PyStr.Lower: `\w`, digits and case mapping cover ASCII only; other letters are left as they are.
- PyStr.Upper: ASCII only, as above.
- PyStr.Capitalize: states only that the length is kept; its character mapping is ASCII only.
- PyStr.Title: states only that the length is kept; its character mapping is ASCII only.
- SectionChecks.NumpyExcludesGoogle: stated for contents of at least two lines, the only ones the source checks.
- RuleMeta.Format: only `{}`, `{!r}` and `{!s}` fields and doubled braces; indexed and named fields, format specs and `**kwargs` are not modelled.
- RuleMeta.ReprString: `repr` escapes are modelled for ASCII and Latin-1 control characters; other non-printable characters are not escaped.
- RuleMeta.CallCheck: keyword arguments are not modelled (`Check.__call__` passes `*kwargs` positionally; every caller passes positional arguments only).
- The explanation partition and `set_context` in `checker.py:124-126`: presentation only; a report carries its node and violation.
- Dynamic discovery with `importlib` and `pkgutil`: the class-based catalogue is a fixed sequence of modules with their attributes in `dir()` order, and the function-based one a fixed list of package attributes.
- The order of the concrete class catalogue is not proved; its discovery, duplicate check and sorting are proved for every catalogue.
- Registry.ErrorRegistry.AddError: the errors are rule classes (`ErrorClass`); nothing else is ever added.
- D401b is reported with code "D401", as the violations module is not part of this model.
- `check_source.py:46,61` imports `get_error_codes_to_skip` from the package, which re-exports `_utils`; `_utils.py` is not part of this model. Both engines use the one-argument lookup of `utils.py:74-98` and ignore the configuration argument.
- The snapshots that repeat a modelled rule (`docstring.py`, `old_checks/ending.py`, `old_checks/indentation.py`, `old_checks/summary_start.py`, `old_checks/starts_with_this.py`, `old_checks/signature.py`, `old_checks/overload.py`) and those written against modules that are not part of this model (`checks/newline_after_last_paragraph.py`, `checks/one_liner.py`, `checks/quotation.py`, the `checks/missing_*_docstring.py` files, `checks/check.py`).
- Presentation and re-exports: `docstring_error.py`, `__init__.py`, `_node_types.py`.
- `checks/__init__.py`: the function catalogue (`RuleTables.FunctionAttributes`) is the check functions it imports, each taken from `old_checks/` where the `checks/` module of that name now defines classes. The five `check_missing_*` imports are left out: `checks/missing_docstring.py` now defines classes, and the functions sit in the `missing_*_docstring.py` files noted above. `check_starts_with_this` and `check_docstring_sections` are defined but not imported, so the function-based engine never runs them.
- Machine integer widths: line numbers, counts and lengths are unbounded integers, as in Python.

## Findings

| source | as written | input that shows it | evidently intended | confidence | as-written member | corrected member |
|---|---|---|---|---|---|---|
| src/pydocstyle/checks/empty_docstring.py:28-29 | `check_implementation` returns `cls(node)`, and `DocstringError.check` discards return values, so the class-based D419 is never reported | a function whose docstring is `"   "` | raise `cls(node)` when the content has no non-whitespace character | not executed | RuleTables.BlankDocstringMissedAsWritten | RuleTables.EmptyDocstringClassReports |
| src/pydocstyle/checks/surrounding_spaces.py:16-21 | the test reads `docstring.lines`, built from the stripped content, so its first line can neither start nor end with a space and D210 never fires | a function whose docstring is `" text"` | test the lines of the unstripped content, as the function-based rule does | not executed | RuleTables.LeadingSpaceMissedAsWritten | RuleTables.SurroundingSpacesClassReports |
| src/pydocstyle/checker.py:143 | `_get_checks` sorts by `this_check._terminal` and the loop reads `_node_type`, attributes `Check` does not have (`node_type`, `terminal`), so the first node with a check to run ends in an AttributeError | any module that is not suppressed or skipped | sort by `terminal` and test `node_type`, so the empty-docstring check runs first | not executed | LegacyEngine.AsWrittenFailsAtFirstNode | LegacyEngine.BlankDocstringGivesOnlyD419 |
