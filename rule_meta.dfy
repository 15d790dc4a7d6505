/** The rule records of the two engines: the `DocstringError` subclasses of
    `_docstring_error.py` with their applicability flags, their gating and their
    messages, and the `Check` records that the `check` decorator of
    `checks/_check.py` makes out of a check function. */
module RuleMeta {
  import opened Basics
  import opened PyStr
  import opened Tree
  import opened DocstringView

  // ------------------------------------------------------- DocstringError

  /** What a class's `check_implementation` does with a node, its docstring
      (None when it has no doc node), the configuration and the file. */
  type ClassImplementation = (Node, Option<Docstring>, Config, Env) -> Raised

  /** A subclass of `DocstringError`: its name (the error code), description,
      explanation, the node kinds it applies to, whether it is checked when the
      docstring is missing or empty, whether it is terminal, and its
      `check_implementation`. */
  datatype ErrorClass = ErrorClass(
    name: string,
    description: string,
    explanation: string,
    applicableNodes: set<Kind>,
    ifMissing: bool,
    ifEmpty: bool,
    terminal: bool,
    implementation: ClassImplementation)

  /** `NODES_TO_CHECK` */
  const NodesToCheck: set<Kind> := {ModuleKind, ClassKind, FunctionKind}

  /** A subclass that sets only its name, description and implementation keeps
      the base class's flags: every checked node kind, skipped when the
      docstring is missing or empty, and not terminal. */
  function DocstringErrorClass(name: string, description: string, implementation: ClassImplementation): (c: ErrorClass)
    ensures c.applicableNodes == NodesToCheck && OtherKind !in c.applicableNodes
    ensures !c.ifMissing && !c.ifEmpty && !c.terminal
    ensures c.name == name && c.description == description && c.explanation == ""
  {
    ErrorClass(name, description, "", NodesToCheck, false, false, false, implementation)
  }

  /** `error_code()`: the class name. */
  function ErrorCode(c: ErrorClass): string {
    c.name
  }

  /** The gates of `DocstringError.check`: the node is of an applicable kind,
      a missing docstring is allowed only for classes that ask for it, and an
      exactly empty content only for classes that ask for it. */
  predicate Applies(c: ErrorClass, n: Node, doc: Option<Docstring>) {
    n.kind in c.applicableNodes
    && (doc.None? ==> c.ifMissing)
    && (doc.Some? && doc.value.content == "" ==> c.ifEmpty)
  }

  /** `DocstringError.check`: the implementation runs on the node's docstring
      only when every gate is passed; its return value is discarded, so only
      what it raises comes out. */
  function ClassCheck(c: ErrorClass, n: Node, config: Config, env: Env): (r: Raised)
    ensures n.kind !in c.applicableNodes ==> r == Passed
    ensures n.doc.None? && !c.ifMissing ==> r == Passed
    ensures n.doc.Some? && Content(n.doc.value) == "" && !c.ifEmpty ==> r == Passed
    ensures r != Passed ==> r == c.implementation(n, GetDocstring(n, env.file), config, env)
  {
    var doc := GetDocstring(n, env.file);
    if Applies(c, n, doc) then c.implementation(n, doc, config, env) else Passed
  }

  /** What a class raises carries its own code: the error is always `cls(node)`. */
  ghost predicate RaisesOwnCode(c: ErrorClass) {
    forall n, doc, config, env :: c.implementation(n, doc, config, env).Raised? ==>
      c.implementation(n, doc, config, env).violation.code == c.name
  }

  /** Content made of whitespace only is not empty: it passes the emptiness gate
      and the implementation runs. */
  lemma WhitespaceContentIsChecked(c: ErrorClass, n: Node, config: Config, env: Env)
    requires n.kind in c.applicableNodes && n.doc.Some?
    requires Content(n.doc.value) != ""
    ensures ClassCheck(c, n, config, env) == c.implementation(n, GetDocstring(n, env.file), config, env)
  {
  }

  // ------------------------------------------------------------- messages

  /** The decimal digits of a natural number. */
  function NatDigits(n: nat): (r: string)
    ensures |r| > 0 && forall i :: 0 <= i < |r| ==> IsDigit(r[i])
    decreases n
  {
    if n < 10 then [('0' as int + n) as char] else NatDigits(n / 10) + [('0' as int + n % 10) as char]
  }

  /** The number a string of decimal digits denotes. */
  function DigitsValue(s: string): nat
    requires forall i :: 0 <= i < |s| ==> IsDigit(s[i])
  {
    if |s| == 0 then 0
    else assert IsDigit(s[|s| - 1]); 10 * DigitsValue(s[..|s| - 1]) + (s[|s| - 1] as int - '0' as int)
  }

  /** Reading the digits back gives the number. */
  lemma {:induction false} NatDigitsValue(n: nat)
    ensures DigitsValue(NatDigits(n)) == n
    decreases n
  {
    if n >= 10 {
      NatDigitsValue(n / 10);
      var s := NatDigits(n);
      assert s[..|s| - 1] == NatDigits(n / 10);
    }
  }

  /** `str(i)` for an integer. */
  function Decimal(i: int): (r: string)
    ensures |r| > 0
  {
    if i < 0 then "-" + NatDigits(-i) else NatDigits(i)
  }

  /** Two hexadecimal digits of a value below 256, lower case as in Python's `repr`. */
  function Hex2(v: nat): (r: string)
    requires v < 256
    ensures |r| == 2
  {
    var digits := "0123456789abcdef";
    [digits[v / 16], digits[v % 16]]
  }

  /** How `repr` writes one character inside quotes `q`. */
  function ReprChar(c: char, q: char): (r: string)
    ensures |r| > 0
  {
    if c == '\\' then "\\\\"
    else if c == q then ['\\', q]
    else if c == '\n' then "\\n"
    else if c == '\r' then "\\r"
    else if c == '\t' then "\\t"
    else if c < ' ' || ('\U{7f}' <= c <= '\U{a0}') then "\\x" + Hex2(c as int)
    else [c]
  }

  function ReprBody(s: string, q: char): string {
    if |s| == 0 then "" else ReprChar(s[0], q) + ReprBody(s[1..], q)
  }

  /** `repr(s)`: double quotes when the string holds a single quote and no
      double quote, single quotes otherwise. */
  function ReprString(s: string): (r: string)
    ensures |r| >= 2 && r[0] == r[|r| - 1] && (r[0] == '\'' || r[0] == '"')
  {
    var q := if '\'' in s && '"' !in s then '"' else '\'';
    [q] + ReprBody(s, q) + [q]
  }

  /** A string without quotes, backslashes or control characters is written
      between single quotes as it is. */
  lemma {:induction false} ReprPlain(s: string)
    requires forall i :: 0 <= i < |s| ==> s[i] != '\'' && s[i] != '"' && s[i] != '\\' && ' ' <= s[i] < '\U{7f}'
    ensures ReprString(s) == "'" + s + "'"
  {
    PlainBody(s);
  }

  lemma {:induction false} PlainBody(s: string)
    requires forall i :: 0 <= i < |s| ==> s[i] != '\'' && s[i] != '"' && s[i] != '\\' && ' ' <= s[i] < '\U{7f}'
    ensures ReprBody(s, '\'') == s
  {
    if |s| > 0 {
      PlainBody(s[1..]);
    }
  }

  /** `str(p)` and `repr(p)` of a formatting parameter. */
  function Render(p: Param, repr: bool): string {
    match p
    case Int(i) => Decimal(i)
    case Str(s) => if repr then ReprString(s) else s
  }

  /** `template.format(*params)` from position `i` with `next` arguments used:
      `{}` takes the next argument with `str`, `{!r}` with `repr`, `{!s}` with
      `str`, and `{{` and `}}` stand for one brace. */
  function FormatFrom(t: string, params: seq<Param>, i: nat, next: nat): (r: Result<string>)
    requires i <= |t|
    decreases |t| - i
  {
    if i == |t| then Ok("")
    else if t[i] == '{' && i + 1 < |t| && t[i + 1] == '{' then
      Prefix("{", FormatFrom(t, params, i + 2, next))
    else if t[i] == '}' && i + 1 < |t| && t[i + 1] == '}' then
      Prefix("}", FormatFrom(t, params, i + 2, next))
    else if t[i] == '{' then
      var field: Option<(nat, bool)> := if i + 1 < |t| && t[i + 1] == '}' then Some((2, false))
                   else if i + 3 < |t| && t[i + 1] == '!' && t[i + 3] == '}' && t[i + 2] == 'r' then Some((4, true))
                   else if i + 3 < |t| && t[i + 1] == '!' && t[i + 3] == '}' && t[i + 2] == 's' then Some((4, false))
                   else None;
      match field
      case None => Err("ValueError: unsupported replacement field")
      case Some((width, repr)) =>
        if next >= |params| then Err("IndexError: Replacement index " + Decimal(next) + " out of range for positional args tuple")
        else Prefix(Render(params[next], repr), FormatFrom(t, params, i + width, next + 1))
    else if t[i] == '}' then Err("ValueError: Single '}' encountered in format string")
    else Prefix([t[i]], FormatFrom(t, params, i + 1, next))
  }

  function Prefix(s: string, r: Result<string>): Result<string> {
    match r
    case Ok(v) => Ok(s + v)
    case Err(e) => Err(e)
  }

  /** `str.format` over positional arguments. */
  function Format(template: string, params: seq<Param>): Result<string> {
    FormatFrom(template, params, 0, 0)
  }

  /** A template without braces formats to itself, whatever the arguments. */
  lemma {:induction false} FormatWithoutBraces(t: string, params: seq<Param>, i: nat, next: nat)
    requires i <= |t|
    requires forall k :: i <= k < |t| ==> t[k] != '{' && t[k] != '}'
    ensures FormatFrom(t, params, i, next) == Ok(t[i..])
    decreases |t| - i
  {
    if i < |t| {
      FormatWithoutBraces(t, params, i + 1, next);
      assert t[i..] == [t[i]] + t[i + 1..];
    }
  }

  /** The replacement field `{!r}` or `{}`. */
  function Field(repr: bool): string {
    if repr then "{!r}" else "{}"
  }

  /** A template with one replacement field between brace-free text takes its
      first argument there, written with `repr` or `str`; further arguments are
      ignored. */
  lemma {:induction false} FormatSingleField(head: string, tail: string, repr: bool, p: Param, rest: seq<Param>)
    requires forall k :: 0 <= k < |head| ==> head[k] != '{' && head[k] != '}'
    requires forall k :: 0 <= k < |tail| ==> tail[k] != '{' && tail[k] != '}'
    ensures Format(head + Field(repr) + tail, [p] + rest) == Ok(head + Render(p, repr) + tail)
  {
    var t := head + Field(repr) + tail;
    var params := [p] + rest;
    var h := |head|;
    var w := |Field(repr)|;
    assert t[h] == '{';
    if repr {
      assert t[h + 1] == '!' && t[h + 2] == 'r' && t[h + 3] == '}';
    } else {
      assert t[h + 1] == '}';
    }
    assert FormatFrom(t, params, h, 0) == Prefix(Render(p, repr), FormatFrom(t, params, h + w, 1));
    FormatWithoutBraces(t, params, h + w, 1);
    assert t[h + w..] == tail;
    HeadCopied(t, params, h, 0, 0);
    assert t[0..h] == head;
    assert head + (Render(p, repr) + tail) == head + Render(p, repr) + tail;
  }

  /** Brace-free characters before position `j` are copied as they are. */
  lemma {:induction false} HeadCopied(t: string, params: seq<Param>, j: nat, i: nat, next: nat)
    requires i <= j <= |t|
    requires forall k :: i <= k < j ==> t[k] != '{' && t[k] != '}'
    ensures FormatFrom(t, params, i, next) == Prefix(t[i..j], FormatFrom(t, params, j, next))
    decreases j - i
  {
    if i < j {
      HeadCopied(t, params, j, i + 1, next);
      assert t[i..j] == [t[i]] + t[i + 1..j];
      assert FormatFrom(t, params, i, next) == Prefix([t[i]], FormatFrom(t, params, i + 1, next));
      match FormatFrom(t, params, j, next)
      case Ok(v) =>
        assert [t[i]] + (t[i + 1..j] + v) == t[i..j] + v;
      case Err(e) =>
    } else {
      match FormatFrom(t, params, j, next)
      case Ok(v) =>
        assert t[i..j] + v == v;
      case Err(e) =>
    }
  }

  /** `DocstringError.message`: the code, a colon and the description formatted
      with the parameters, where None parameters count as none. */
  function Message(code: string, description: string, parameters: Option<seq<Param>>): (r: Result<string>)
    ensures r.Ok? ==> StartsWith(r.value, code + ": ")
    ensures r.Ok? <==> Format(description, if parameters.None? then [] else parameters.value).Ok?
  {
    var params := if parameters.None? then [] else parameters.value;
    match Format(description, params)
    case Err(e) => Err(e)
    case Ok(text) => Ok(code + ": " + text)
  }

  /** A description without braces is the message text as it stands, whatever
      the parameters. */
  lemma MessageWithoutBraces(code: string, description: string, parameters: Option<seq<Param>>)
    requires forall k :: 0 <= k < |description| ==> description[k] != '{' && description[k] != '}'
    ensures Message(code, description, parameters) == Ok(code + ": " + description)
  {
    FormatWithoutBraces(description, if parameters.None? then [] else parameters.value, 0, 0);
    assert description[0..] == description;
  }

  /** `node_type`: how the error names the kind of its node. */
  function NodeTypeName(k: Kind): string
    requires k != OtherKind
  {
    match k
    case ModuleKind => "module"
    case FunctionKind => "function"
    case ClassKind => "class"
  }

  /** `DocstringError.__str__`: the file and line of the node, its kind and
      name, an arrow and the message. */
  function ErrorString(fileName: string, n: Node, message: string): (r: string)
    requires IsChecked(n)
    ensures StartsWith(r, fileName + ":" + Decimal(n.lineno) + " in ")
    ensures EndsWith(r, "'" + n.name + "' -> " + message)
  {
    var head := fileName + ":" + Decimal(n.lineno) + " in " + NodeTypeName(n.kind) + " ";
    var tail := "'" + n.name + "' -> " + message;
    assert head + tail == fileName + ":" + Decimal(n.lineno) + " in " + (NodeTypeName(n.kind) + " " + tail);
    head + tail
  }

  // ----------------------------------------------------------------- Check

  /** What a function-based check gives for a node, its docstring, the
      configuration and the file. */
  type CheckFunction = (Node, Option<Docstring>, Config, Env) -> Yielded

  /** `Check`: the node kinds it applies to, its three flags, the wrapped
      function and that function's docstring (the `explanation`). */
  datatype Check = Check(
    nodeType: set<Kind>,
    terminal: bool,
    onlyIfDocstringExists: bool,
    onlyIfDocstringNotEmpty: bool,
    checkFunction: CheckFunction,
    explanation: string)

  /** `check(node_type, terminal=False, only_if_docstring_exists=True,
      only_if_docstring_not_empty=True)`: the decorator stores the node kinds
      and the three flags unchanged next to the function it wraps. */
  function CheckDecorator(nodeType: set<Kind>, terminal: bool := false, onlyIfDocstringExists: bool := true,
                          onlyIfDocstringNotEmpty: bool := true): (decorator: (CheckFunction, string) -> Check)
    ensures forall f, doc :: decorator(f, doc).nodeType == nodeType && decorator(f, doc).terminal == terminal
              && decorator(f, doc).onlyIfDocstringExists == onlyIfDocstringExists
              && decorator(f, doc).onlyIfDocstringNotEmpty == onlyIfDocstringNotEmpty
              && decorator(f, doc).checkFunction == f && decorator(f, doc).explanation == doc
  {
    (f: CheckFunction, doc: string) => Check(nodeType, terminal, onlyIfDocstringExists, onlyIfDocstringNotEmpty, f, doc)
  }

  /** Decorating with only a node type gives a non-terminal check that runs only
      on an existing, non-empty docstring. */
  lemma DecoratorDefaults(nodeType: set<Kind>, f: CheckFunction, doc: string)
    ensures !CheckDecorator(nodeType)(f, doc).terminal
    ensures CheckDecorator(nodeType)(f, doc).onlyIfDocstringExists
    ensures CheckDecorator(nodeType)(f, doc).onlyIfDocstringNotEmpty
  {
  }

  /** `Check.__call__` with positional arguments: the wrapped function's result. */
  function CallCheck(c: Check, n: Node, doc: Option<Docstring>, config: Config, env: Env): (r: Yielded)
    ensures r == c.checkFunction(n, doc, config, env)
  {
    c.checkFunction(n, doc, config, env)
  }
}
