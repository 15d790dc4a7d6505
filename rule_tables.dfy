/** The concrete rule catalogues: the `DocstringError` subclasses of the rule
    modules under `checks/`, as `get_checks` discovers them, and the `Check`
    records of the function-based rules, as `checker._get_checks` finds them in
    the `checks` package. */
module RuleTables {
  import opened Basics
  import opened PyStr
  import opened Tree
  import opened DocstringView
  import opened RuleMeta
  import opened Discovery
  import opened MissingDocstring
  import opened WhitespaceRules
  import opened ContentRules
  import opened QuotationRules
  import opened SectionChecks

  /** The message of the AttributeError that reading `attribute` off None raises. */
  function NoneAttribute(attribute: string): string {
    "'NoneType' object has no attribute '" + attribute + "'"
  }

  // ------------------------------------------------------- class-based rules

  /** An implementation that reads `attribute` off the docstring first: None
      makes it fail, a docstring is handed to `f`. */
  function OnDocstring(attribute: string, f: Docstring -> Raised): (impl: ClassImplementation)
    ensures forall n, config, env :: impl(n, None, config, env) == Crashed(NoneAttribute(attribute))
    ensures forall n, d, config, env :: impl(n, Some(d), config, env) == f(d)
  {
    (n: Node, doc: Option<Docstring>, config: Config, env: Env) =>
      match doc
      case None => Crashed(NoneAttribute(attribute))
      case Some(d) => f(d)
  }

  /** `cls(node)` raised when `fires` holds. */
  function RaiseIf(fires: bool, code: string): Raised {
    if fires then Raised(Violation(code, [])) else Passed
  }

  /** A missing-docstring class: terminal, applicable to its one node kind and to
      a missing docstring. */
  function MissingClass(code: string, description: string, explanation: string): (c: ErrorClass)
    requires code in MissingCodes
    ensures c.name == code && c.applicableNodes == {MissingKind(code)}
    ensures c.ifMissing && !c.ifEmpty && c.terminal
  {
    ErrorClass(code, description, explanation, {MissingKind(code)}, true, false, true,
               (n: Node, doc: Option<Docstring>, config: Config, env: Env) => MissingImplementation(code, n, doc))
  }

  const IndentExplanation: string :=
    "The entire docstring should be indented the same as the quotes at its first line."

  /** `checks/empty_docstring.py` as written: D419 is terminal and runs on an
      empty content, but its implementation returns its error instead of raising
      it, so `check` never reports it. */
  const D419ClassAsWritten: ErrorClass :=
    ErrorClass("D419", "Docstring is empty.", "", NodesToCheck, false, true, true,
               OnDocstring("content", d => EmptyDocstringImplementation(d)))

  /** D419 as evidently intended: the error is raised for a content without a
      non-whitespace character. */
  const D419Class: ErrorClass :=
    D419ClassAsWritten.(implementation := OnDocstring("content", (d: Docstring) => RaiseIf(EmptyDocstring(d.content).Some?, "D419")))

  /** `checks/ending.py` */
  const D400Class: ErrorClass :=
    DocstringErrorClass("D400", "First line should end with a period, not {!r}.",
                        OnDocstring("content", d => EndingImplementation("D400", d)))
  const D415Class: ErrorClass :=
    DocstringErrorClass("D415", "First line should end with a period, question mark, or exclamation point, not {!r}.",
                        OnDocstring("content", d => EndingImplementation("D415", d)))

  /** `checks/indentation.py` */
  const D206Class: ErrorClass :=
    DocstringErrorClass("D206", "Docstring should be indented with spaces, not tabs.",
                        OnDocstring("line_indents", d => IndentationImplementation("D206", d)))
  const D207Class: ErrorClass :=
    DocstringErrorClass("D207", "Docstring is under-indented.",
                        OnDocstring("line_indents", d => IndentationImplementation("D207", d)))
      .(explanation := IndentExplanation)
  const D208Class: ErrorClass :=
    DocstringErrorClass("D208", "Docstring is over-indented.",
                        OnDocstring("line_indents", d => IndentationImplementation("D208", d)))
      .(explanation := IndentExplanation)

  /** `checks/missing_docstring.py` */
  const D100Class: ErrorClass := MissingClass("D100", "Missing docstring in public module", "Public modules should have docstrings.")
  const D101Class: ErrorClass := MissingClass("D101", "Missing docstring in public class", "Public classes should have docstrings.")
  const D102Class: ErrorClass := MissingClass("D102", "Missing docstring in public method", "Public methods should have docstrings.")
  const D103Class: ErrorClass := MissingClass("D103", "Missing docstring in public function", "Public functions should have docstrings.")
  const D104Class: ErrorClass := MissingClass("D104", "Missing docstring in public package", "Public packages should have docstrings.")
  const D105Class: ErrorClass := MissingClass("D105", "Missing docstring in magic method", "Magic methods should have docstrings.")
  const D106Class: ErrorClass := MissingClass("D106", "Missing docstring in public nested class", "Public nested classes should have docstrings.")
  const D107Class: ErrorClass := MissingClass("D107", "Missing docstring in __init__ method", "__init__ methods should have docstrings.")

  /** `checks/summary_start.py` */
  const D212Class: ErrorClass :=
    DocstringErrorClass("D212", "Multi-line docstring summary should start at the first line.",
                        OnDocstring("content", (d: Docstring) => RaiseIf(SummaryStartFires(true, d.content), "D212")))
  const D213Class: ErrorClass :=
    DocstringErrorClass("D213", "Multi-line docstring summary should start at the second line.",
                        OnDocstring("content", (d: Docstring) => RaiseIf(SummaryStartFires(false, d.content), "D213")))

  /** `checks/surrounding_spaces.py` as written, over `docstring.lines`: these
      come from the stripped content, so the rule never fires. */
  const D210ClassAsWritten: ErrorClass :=
    DocstringErrorClass("D210", "No whitespaces surrounding the docstring text are allowed.",
                        OnDocstring("lines", d => RaiseIf(SurroundedBySpace(Lines(d)), "D210")))

  /** D210 as evidently intended: the same test over the lines of the unstripped
      content, as the function-based rule makes it. */
  const D210Class: ErrorClass :=
    D210ClassAsWritten.(implementation := OnDocstring("content", (d: Docstring) => RaiseIf(SurroundingWhitespaces(d.content).Some?, "D210")))

  /** The rule modules that define subclasses, each with its class attributes
      in `dir()` order: the imported `DocstringError` and other imported classes
      sit between the rules. */
  const EmptyDocstringModule: CheckModule :=
    CheckModule("pydocstyle.checks.empty_docstring",
      [NotAClass, OtherClass, SubclassOf(D419ClassAsWritten), OtherClass, BaseClass, NotAClass])
  const EndingModule: CheckModule :=
    CheckModule("pydocstyle.checks.ending",
      [NotAClass, NotAClass, OtherClass, SubclassOf(D400Class), SubclassOf(D415Class), OtherClass, BaseClass, OtherClass])
  const IndentationModule: CheckModule :=
    CheckModule("pydocstyle.checks.indentation",
      [NotAClass, OtherClass, SubclassOf(D206Class), SubclassOf(D207Class), SubclassOf(D208Class), OtherClass, BaseClass])
  const MissingDocstringModule: CheckModule :=
    CheckModule("pydocstyle.checks.missing_docstring",
      [NotAClass, OtherClass, SubclassOf(D100Class), SubclassOf(D101Class), SubclassOf(D102Class), SubclassOf(D103Class),
       SubclassOf(D104Class), SubclassOf(D105Class), SubclassOf(D106Class), SubclassOf(D107Class), OtherClass, BaseClass,
       NotAClass])
  const SummaryStartModule: CheckModule :=
    CheckModule("pydocstyle.checks.summary_start",
      [NotAClass, OtherClass, SubclassOf(D212Class), SubclassOf(D213Class), OtherClass, BaseClass])
  const SurroundingSpacesModule: CheckModule :=
    CheckModule("pydocstyle.checks.surrounding_spaces",
      [NotAClass, OtherClass, SubclassOf(D210ClassAsWritten), OtherClass, BaseClass])

  /** The shipped modules in `pkgutil` (name) order. */
  const ClassModules: seq<CheckModule> :=
    [EmptyDocstringModule, EndingModule, IndentationModule, MissingDocstringModule, SummaryStartModule,
     SurroundingSpacesModule]

  /** The same catalogue with D419 and D210 as evidently intended. */
  const IntendedEmptyDocstringModule: CheckModule :=
    CheckModule("pydocstyle.checks.empty_docstring",
      [NotAClass, OtherClass, SubclassOf(D419Class), OtherClass, BaseClass, NotAClass])
  const IntendedSurroundingSpacesModule: CheckModule :=
    CheckModule("pydocstyle.checks.surrounding_spaces",
      [NotAClass, OtherClass, SubclassOf(D210Class), OtherClass, BaseClass])
  const IntendedClassModules: seq<CheckModule> :=
    [IntendedEmptyDocstringModule, EndingModule, IndentationModule, MissingDocstringModule, SummaryStartModule,
     IntendedSurroundingSpacesModule]

  // ---------------------------------------------------- function-based rules

  /** A check function over the docstring's content: None fails on reading it. */
  function OnContent(f: string -> Option<Violation>): (cf: CheckFunction)
    ensures forall n, config, env :: cf(n, None, config, env) == Failed(NoneAttribute("content"))
    ensures forall n, d, config, env :: cf(n, Some(d), config, env) == Single(f(d.content))
  {
    (n: Node, doc: Option<Docstring>, config: Config, env: Env) =>
      match doc
      case None => Failed(NoneAttribute("content"))
      case Some(d) => Single(f(d.content))
  }

  /** A check function over the content that may fail while computing. */
  function OnContentOrFail(f: string -> Result<Option<Violation>>): (cf: CheckFunction)
    ensures forall n, config, env :: cf(n, None, config, env) == Failed(NoneAttribute("content"))
    ensures forall n, d, config, env :: cf(n, Some(d), config, env) ==
              match f(d.content) case Err(e) => Failed(e) case Ok(o) => Single(o)
  {
    (n: Node, doc: Option<Docstring>, config: Config, env: Env) =>
      match doc
      case None => Failed(NoneAttribute("content"))
      case Some(d) => match f(d.content) case Err(e) => Failed(e) case Ok(o) => Single(o)
  }

  /** A check function over the number of blank lines above the docstring. */
  function OnBlanksBefore(f: nat -> Option<Violation>): (cf: CheckFunction)
    ensures forall n: Node, doc, config, env :: n.doc.Some? ==>
              cf(n, doc, config, env) == Single(f(BlanksAbove(env.file, n.doc.value.fromLineno - 1)))
  {
    (n: Node, doc: Option<Docstring>, config: Config, env: Env) =>
      match n.doc
      case None => Failed(NoneAttribute("fromlineno"))
      case Some(dn) => Single(f(BlanksAbove(env.file, dn.fromLineno - 1)))
  }

  /** A check function over the source lines after the docstring. */
  function OnLinesAfter(f: seq<string> -> Option<Violation>): (cf: CheckFunction)
    ensures forall n: Node, doc, config, env :: n.doc.Some? ==>
              cf(n, doc, config, env) == Single(f(LinesAfter(env.file, n.doc.value.endLineno, n.endLineno)))
  {
    (n: Node, doc: Option<Docstring>, config: Config, env: Env) =>
      match n.doc
      case None => Failed(NoneAttribute("end_lineno"))
      case Some(dn) => Single(f(LinesAfter(env.file, dn.endLineno, n.endLineno)))
  }

  /** astroid's `NodeNG`: every node. */
  const AnyNode: set<Kind> := {ModuleKind, ClassKind, FunctionKind, OtherKind}
  const FunctionDef: set<Kind> := {FunctionKind}
  const ClassDef: set<Kind> := {ClassKind}

  const SingleBlankLineAfterSummary: Check :=
    CheckDecorator(AnyNode)(OnContent(BlankAfterSummary),
      "D205: Put one blank line between summary line and description.")
  const NoBlankLinesAfterFunctionDocstring: Check :=
    CheckDecorator(FunctionDef)(OnLinesAfter(NoBlankAfterFunction),
      "D202: No blank lines allowed after function/method docstring.")
  const SingleBlankLineAfterClassDocstring: Check :=
    CheckDecorator(ClassDef)(OnLinesAfter(SingleBlankAfterClass),
      "D204: 1 blank line required after class docstring.")
  const NoBlankLinesBeforeFunctionDocstring: Check :=
    CheckDecorator(FunctionDef)(OnBlanksBefore(NoBlankBeforeFunction),
      "D201 No blank lines allowed before function/method docstring.")
  const SingleBlankLineBeforeClassDocstring: Check :=
    CheckDecorator(ClassDef)(OnBlanksBefore(SingleBlankBeforeClass),
      "D203: Class docstrings should have 1 blank line before them.")
  const NoBlankLinesBeforeClassDocstring: Check :=
    CheckDecorator(ClassDef)(OnBlanksBefore(NoBlankBeforeClass),
      "D211: No blank lines allowed before class docstring.")
  const CapitalizedCheck: Check :=
    CheckDecorator(FunctionDef)(OnContentOrFail(Capitalized),
      "D403: First word of the first line should be properly capitalized.")
  /** The test and property exclusions come before the docstring is read. */
  const ImperativeMoodCheck: Check :=
    CheckDecorator(FunctionDef)(
      (n: Node, doc: Option<Docstring>, config: Config, env: Env) =>
        if IsTest(n.name) || IsProperty(n, config) then Single(None)
        else match doc
          case None => Failed(NoneAttribute("content"))
          case Some(d) => Single(ImperativeMood(n, d.content, env, config)),
      "D401: First line should be in imperative mood: 'Do', not 'Does'.")
  const NotSignatureCheck: Check :=
    CheckDecorator(FunctionDef)(
      (n: Node, doc: Option<Docstring>, config: Config, env: Env) =>
        match doc
        case None => Failed(NoneAttribute("content"))
        case Some(d) => Single(NotSignature(n.name, d.content)),
      "D402: First line should not be function's or method's \"signature\".")
  /** D418 reads only the decorators, and also runs on an empty docstring. */
  const OverloadCheck: Check :=
    CheckDecorator(FunctionDef, onlyIfDocstringNotEmpty := false)(
      (n: Node, doc: Option<Docstring>, config: Config, env: Env) => Single(Overload(n)),
      "D418: Function decorated with @overload shouldn't contain a docstring.")
  /** `check_starts_with_this` and `check_docstring_sections` are defined but
      the package does not import them, so the checker never runs them. */
  const StartsWithThisCheck: Check :=
    CheckDecorator(AnyNode)(OnContent(StartsWithThis),
      "D404: First word of the docstring should not be `This`.")
  /** A generator: reading the content of None fails on the first step. */
  const DocstringSectionsCheck: Check :=
    CheckDecorator(NodesToCheck)(
      (n: Node, doc: Option<Docstring>, config: Config, env: Env) =>
        match doc
        case None => Many([], Some(NoneAttribute("content")))
        case Some(d) => Sections(n, d),
      "Check for docstring sections.")
  /** `old_checks/empty_docstring.py`: terminal, and runs on an empty content. */
  const EmptyDocstringCheck: Check :=
    CheckDecorator(AnyNode, terminal := true, onlyIfDocstringNotEmpty := false)(OnContent(EmptyDocstring),
      "D419: Docstring is empty.")
  /** `_check_ends_with` returns None for a falsy docstring. */
  function EndsWithCheck(chars: set<char>, code: string): CheckFunction {
    (n: Node, doc: Option<Docstring>, config: Config, env: Env) =>
      match doc
      case None => Single(None)
      case Some(d) => match CheckEndsWith(d.content, chars, code) case Err(e) => Failed(e) case Ok(o) => Single(o)
  }
  const EndsWithPeriodCheck: Check :=
    CheckDecorator(AnyNode)(EndsWithCheck(PeriodOnly, "D400"), "D400: First line should end with a period.")
  const EndsWithPunctuationCheck: Check :=
    CheckDecorator(AnyNode)(EndsWithCheck(Punctuation, "D415"),
      "D415: Should end with period, question mark, or exclamation point.")
  /** A generator that returns at once for a falsy docstring. */
  const IndentationCheck: Check :=
    CheckDecorator(NodesToCheck)(
      (n: Node, doc: Option<Docstring>, config: Config, env: Env) =>
        match doc
        case None => Many([], None)
        case Some(d) => IndentationGenerator(d),
      "D206, D207, D208: The entire docstring should be indented same as code.")
  const NewlineAfterLastParagraphCheck: Check :=
    CheckDecorator(AnyNode)(OnContent(NewlineAfterLastParagraph),
      "D209: Put multi-line docstring closing quotes on separate line.")
  const OneLinerCheck: Check :=
    CheckDecorator(AnyNode)(OnContent(OneLiner),
      "D200: One-liner docstrings have to fit on one line with quotes.")
  const TripleDoubleQuotesCheck: Check :=
    CheckDecorator(NodesToCheck)(
      (n: Node, doc: Option<Docstring>, config: Config, env: Env) =>
        match doc
        case None => Failed(NoneAttribute("content"))
        case Some(d) => match TripleDoubleQuotes(d.content, d.raw) case Err(e) => Failed(e) case Ok(o) => Single(o),
      "D300: Use \"\"\"triple double quotes\"\"\".")
  const BackslashesCheck: Check :=
    CheckDecorator(NodesToCheck)(
      (n: Node, doc: Option<Docstring>, config: Config, env: Env) =>
        match doc
        case None => Failed(NoneAttribute("content"))
        case Some(d) => Single(Backslashes(d.content, d.raw)),
      "D301: Use r\"\"\" if any backslashes in a docstring.")
  const MultiLineSummaryStartCheck: Check :=
    CheckDecorator(AnyNode)(OnContent(MultiLineSummaryStart),
      "D212, D213: Multi-line docstring must start on specific line.")
  const SurroundingWhitespacesCheck: Check :=
    CheckDecorator(AnyNode)(OnContent(SurroundingWhitespaces),
      "D210: No whitespaces allowed surrounding docstring text.")

  /** The attributes of the `checks` package in `dir()` (name) order: the `Check`
      class and the `check` decorator, then the check functions. */
  const FunctionAttributes: seq<PackageAttribute> := [
    OtherAttribute,                                       // Check
    OtherAttribute,                                       // check
    CheckAttribute(BackslashesCheck),                     // check_backslashes
    CheckAttribute(CapitalizedCheck),                     // check_capitalized
    CheckAttribute(EmptyDocstringCheck),                  // check_empty_docstring
    CheckAttribute(EndsWithPeriodCheck),                  // check_ends_with_period
    CheckAttribute(EndsWithPunctuationCheck),             // check_ends_with_punctuation
    CheckAttribute(ImperativeMoodCheck),                  // check_imperative_mood
    CheckAttribute(IndentationCheck),                     // check_indentation
    CheckAttribute(MultiLineSummaryStartCheck),           // check_multi_line_summary_start
    CheckAttribute(NewlineAfterLastParagraphCheck),       // check_newline_after_last_paragraph
    CheckAttribute(NoBlankLinesAfterFunctionDocstring),   // check_no_blank_lines_after_function_docstring
    CheckAttribute(NoBlankLinesBeforeClassDocstring),     // check_no_blank_lines_before_class_docstring
    CheckAttribute(NoBlankLinesBeforeFunctionDocstring),  // check_no_blank_lines_before_function_docstring
    CheckAttribute(NotSignatureCheck),                    // check_not_signature
    CheckAttribute(OneLinerCheck),                        // check_one_liner
    CheckAttribute(OverloadCheck),                        // check_overload
    CheckAttribute(SingleBlankLineAfterClassDocstring),   // check_single_blank_line_after_class_docstring
    CheckAttribute(SingleBlankLineAfterSummary),          // check_single_blank_line_after_summary
    CheckAttribute(SingleBlankLineBeforeClassDocstring),  // check_single_blank_line_before_class_docstring
    CheckAttribute(SurroundingWhitespacesCheck),          // check_surrounding_whitespaces
    CheckAttribute(TripleDoubleQuotesCheck)               // check_triple_double_quotes
  ]

  /** Of the package's checks only the empty-docstring check is terminal. */
  lemma OnlyEmptyDocstringIsTerminal(c: Check)
    requires CheckAttribute(c) in FunctionAttributes
    ensures c.terminal <==> c == EmptyDocstringCheck
  {
  }

  /** `_get_checks` puts the empty-docstring check first, so on an empty
      docstring D419 is the only error of the node. */
  lemma EmptyDocstringCheckFirst()
    ensures |OrderChecks(FunctionAttributes)| > 0
    ensures OrderChecks(FunctionAttributes)[0] == EmptyDocstringCheck
  {
    forall d | CheckAttribute(d) in FunctionAttributes && d.terminal
      ensures d == EmptyDocstringCheck
    {
      OnlyEmptyDocstringIsTerminal(d);
    }
    OnlyEmptyDocstringIsTerminal(EmptyDocstringCheck);
    SoleTerminalFirst(FunctionAttributes, EmptyDocstringCheck);
  }

  // ----------------------------------------------------------- findings

  /** As written, the class-based D419 reports nothing, whatever the node. */
  lemma EmptyDocstringClassAsWrittenSilent(n: Node, config: Config, env: Env)
    ensures ClassCheck(D419ClassAsWritten, n, config, env) == Passed
  {
  }

  /** A function whose docstring holds only spaces: the function-based D419
      reports it, the class-based one as written does not. */
  lemma BlankDocstringMissedAsWritten(n: Node, config: Config, env: Env)
    requires n.kind == FunctionKind && n.doc == Some(DocNode("   ", 1, 1))
    ensures ClassCheck(D419ClassAsWritten, n, config, env) == Passed
    ensures EmptyDocstring(Content(n.doc.value)) == Some(Violation("D419", []))
  {
    assert Content(n.doc.value) == "   ";
  }

  /** As intended, D419 reports a checked node exactly when it has a docstring
      without a non-whitespace character. */
  lemma EmptyDocstringClassReports(n: Node, config: Config, env: Env)
    ensures ClassCheck(D419Class, n, config, env).Raised? <==>
              IsChecked(n) && n.doc.Some? && AllSpace(Content(n.doc.value))
    ensures ClassCheck(D419Class, n, config, env).Raised? ==>
              ClassCheck(D419Class, n, config, env).violation == Violation("D419", [])
    ensures !ClassCheck(D419Class, n, config, env).Crashed?
  {
  }

  /** As written, the class-based D210 reports nothing, whatever the node. */
  lemma SurroundingSpacesClassAsWrittenSilent(n: Node, config: Config, env: Env)
    ensures !ClassCheck(D210ClassAsWritten, n, config, env).Raised?
  {
    var doc := GetDocstring(n, env.file);
    if doc.Some? {
      StrippedLinesNeverSurrounded(doc.value);
    }
  }

  /** A docstring `" text"`: the function-based D210 reports it, the class-based
      one as written does not. */
  lemma LeadingSpaceMissedAsWritten(n: Node, config: Config, env: Env)
    requires n.kind == FunctionKind && n.doc == Some(DocNode(" text", 1, 1))
    ensures !ClassCheck(D210ClassAsWritten, n, config, env).Raised?
    ensures SurroundingWhitespaces(Content(n.doc.value)) == Some(Violation("D210", []))
  {
    SurroundingSpacesClassAsWrittenSilent(n, config, env);
    assert Content(n.doc.value) == " text";
  }

  /** As intended, D210 reports a checked node with a non-empty docstring exactly
      when its content starts with a space, or is a single line ending with one. */
  lemma SurroundingSpacesClassReports(n: Node, config: Config, env: Env)
    requires IsChecked(n) && n.doc.Some? && Content(n.doc.value) != ""
    ensures var content := Content(n.doc.value);
            ClassCheck(D210Class, n, config, env).Raised? <==>
              content[0] == ' ' || ('\n' !in content && content[|content| - 1] == ' ')
    ensures ClassCheck(D210Class, n, config, env).Raised? ==>
              ClassCheck(D210Class, n, config, env).violation == Violation("D210", [])
  {
  }

  // --------------------------------------------------- catalogue membership

  lemma EmptyDocstringMembers(c: ErrorClass)
    requires SubclassOf(c) in ClassModules[0].members
    ensures c == D419ClassAsWritten
  {
  }

  lemma EndingMembers(c: ErrorClass)
    requires SubclassOf(c) in ClassModules[1].members
    ensures c == D400Class || c == D415Class
  {
  }

  lemma IndentationMembers(c: ErrorClass)
    requires SubclassOf(c) in ClassModules[2].members
    ensures c == D206Class || c == D207Class || c == D208Class
  {
  }

  lemma MissingMembers(c: ErrorClass)
    requires SubclassOf(c) in ClassModules[3].members
    ensures c.name in MissingCodes && c == MissingClass(c.name, c.description, c.explanation)
  {
  }

  lemma SummaryStartMembers(c: ErrorClass)
    requires SubclassOf(c) in ClassModules[4].members
    ensures c == D212Class || c == D213Class
  {
  }

  lemma SurroundingSpacesMembers(c: ErrorClass)
    requires SubclassOf(c) in ClassModules[5].members
    ensures c == D210ClassAsWritten
  {
  }

  lemma ContentRulesRaiseOwnCode()
    ensures RaisesOwnCode(D419Class) && RaisesOwnCode(D400Class) && RaisesOwnCode(D415Class)
    ensures RaisesOwnCode(D212Class) && RaisesOwnCode(D213Class) && RaisesOwnCode(D210Class)
    ensures RaisesOwnCode(D419ClassAsWritten) && RaisesOwnCode(D210ClassAsWritten)
  {
  }

  lemma IndentationRulesRaiseOwnCode()
    ensures RaisesOwnCode(D206Class) && RaisesOwnCode(D207Class) && RaisesOwnCode(D208Class)
  {
  }

  lemma MissingRaisesOwnCode(code: string, description: string, explanation: string)
    requires code in MissingCodes
    ensures RaisesOwnCode(MissingClass(code, description, explanation))
  {
  }

  /** The rules of the module at position `i` raise only their own code. */
  lemma ModuleRaisesOwnCode(c: ErrorClass, i: nat)
    requires i < |ClassModules| && SubclassOf(c) in ClassModules[i].members
    ensures RaisesOwnCode(c)
  {
    if i == 0 {
      EmptyDocstringMembers(c);
      ContentRulesRaiseOwnCode();
    } else if i == 1 {
      EndingMembers(c);
      ContentRulesRaiseOwnCode();
    } else if i == 2 {
      IndentationMembers(c);
      IndentationRulesRaiseOwnCode();
    } else {
      LaterModuleRaisesOwnCode(c, i);
    }
  }

  lemma LaterModuleRaisesOwnCode(c: ErrorClass, i: nat)
    requires 3 <= i < |ClassModules| && SubclassOf(c) in ClassModules[i].members
    ensures RaisesOwnCode(c)
  {
    if i == 3 {
      MissingMembers(c);
      MissingRaisesOwnCode(c.name, c.description, c.explanation);
    } else if i == 4 {
      SummaryStartMembers(c);
      ContentRulesRaiseOwnCode();
    } else {
      SurroundingSpacesMembers(c);
      ContentRulesRaiseOwnCode();
    }
  }

  /** Every discovered rule raises only errors of its own code. */
  lemma ClassRulesRaiseOwnCode(c: ErrorClass)
    requires c in Discovered(ClassModules)
    ensures RaisesOwnCode(c)
  {
    var i :| 0 <= i < |ClassModules| && SubclassOf(c) in ClassModules[i].members;
    ModuleRaisesOwnCode(c, i);
  }

  /** The intended catalogue differs only in D419 and D210, whose intended
      classes raise their own codes too. */
  lemma IntendedClassRulesRaiseOwnCode(c: ErrorClass)
    requires c in Discovered(IntendedClassModules)
    ensures RaisesOwnCode(c)
  {
    var i :| 0 <= i < |IntendedClassModules| && SubclassOf(c) in IntendedClassModules[i].members;
    if i == 0 {
      IntendedEmptyDocstringMembers(c);
      ContentRulesRaiseOwnCode();
    } else if i == 5 {
      IntendedSurroundingSpacesMembers(c);
      ContentRulesRaiseOwnCode();
    } else {
      IntendedSharesModule(i);
      ModuleRaisesOwnCode(c, i);
    }
  }

  /** Apart from D419 and D210 the two catalogues hold the same modules. */
  lemma IntendedSharesModule(i: nat)
    requires 1 <= i <= 4
    ensures IntendedClassModules[i] == ClassModules[i]
  {
    if i == 1 {
      assert IntendedClassModules[1] == EndingModule == ClassModules[1];
    } else if i == 2 {
      assert IntendedClassModules[2] == IndentationModule == ClassModules[2];
    } else if i == 3 {
      assert IntendedClassModules[3] == MissingDocstringModule == ClassModules[3];
    } else {
      assert IntendedClassModules[4] == SummaryStartModule == ClassModules[4];
    }
  }

  lemma IntendedEmptyDocstringMembers(c: ErrorClass)
    requires SubclassOf(c) in IntendedClassModules[0].members
    ensures c == D419Class
  {
  }

  lemma IntendedSurroundingSpacesMembers(c: ErrorClass)
    requires SubclassOf(c) in IntendedClassModules[5].members
    ensures c == D210Class
  {
  }
}
