/** The abstract syntax tree the linter walks, its configuration and what it
    reports. A node carries, as plain fields, everything the rules ask astroid
    for: decorator names, positional argument names, whether it is bound, a
    package, public or a nested class, and its doc node. */
module Tree {
  import opened Basics

  /** Module, class and function definitions are checked; `Other` stands for
      every other statement or expression node, whose children are never visited. */
  datatype Kind = ModuleKind | ClassKind | FunctionKind | OtherKind

  /** The string literal that is a node's docstring and the lines it spans
      (1-based, inclusive). */
  datatype DocNode = DocNode(value: string, fromLineno: int, endLineno: int)

  datatype Node = Node(
    kind: Kind,
    name: string,
    lineno: int,
    endLineno: int,
    decorators: seq<string>,
    args: seq<string>,
    isBound: bool,
    isPackage: bool,
    isPublic: bool,
    isNestedClass: bool,
    parentIsFunction: bool,
    doc: Option<DocNode>,
    children: seq<Node>)

  /** `isinstance(node, NODES_TO_CHECK)` */
  predicate IsChecked(n: Node) {
    n.kind != OtherKind
  }

  /** `_get_child_nodes_to_check`: the children that are modules, classes or
      functions, in their order. */
  function ChildNodesToCheck(n: Node): (r: seq<Node>)
    ensures forall c :: c in r ==> c in n.children && IsChecked(c)
    ensures forall c :: c in n.children && IsChecked(c) ==> c in r
    ensures |r| <= |n.children|
  {
    CheckedOnly(n.children)
  }

  function CheckedOnly(xs: seq<Node>): (r: seq<Node>)
    ensures forall c :: c in r ==> c in xs && IsChecked(c)
    ensures forall c :: c in xs && IsChecked(c) ==> c in r
    ensures |r| <= |xs|
  {
    if |xs| == 0 then []
    else (if IsChecked(xs[0]) then [xs[0]] else []) + CheckedOnly(xs[1..])
  }

  /** The number of nodes in a tree, counting every descendant. */
  function Size(n: Node): nat
    decreases n, 0
  {
    1 + SizeAll(n.children)
  }

  function SizeAll(ns: seq<Node>): nat
    decreases ns, 1
  {
    if |ns| == 0 then 0 else Size(ns[0]) + SizeAll(ns[1..])
  }

  datatype Convention = Pep257 | Numpy | Google

  /** The linter configuration as an input record. `ignoreDecorators` stands for
      `ignore_decorators.findall(name)` being non-empty. */
  datatype Config = Config(
    convention: Convention,
    select: Option<set<string>>,
    ignore: Option<set<string>>,
    ignoreDecorators: Option<string -> bool>,
    propertyDecorators: set<string>,
    ignoreInlineNoqa: bool)

  /** A formatting parameter of a violation. */
  datatype Param = Str(s: string) | Int(i: int)

  /** A violation: its error code and the parameters of its description. */
  datatype Violation = Violation(code: string, params: seq<Param>)

  /** What the rules read from outside the tree: the checked file's lines (without
      line ends) and name, the imperative-mood word lists, and the error codes of
      the default convention. */
  datatype Env = Env(
    file: seq<string>,
    fileName: string,
    imperativeVerbs: map<string, seq<string>>,
    imperativeBlacklist: set<string>,
    stem: string -> string,
    conventionCodes: set<string>)

  /** What a class-based rule's `check_implementation` does: return normally,
      raise its own error, or fail with another exception. */
  datatype Raised = Passed | Raised(violation: Violation) | Crashed(reason: string)

  /** What a function-based rule's check function gives: one result that may be
      None, the items of a generator (which may fail after yielding some), or an
      exception raised before any result. */
  datatype Yielded =
    | Single(result: Option<Violation>)
    | Many(items: seq<Violation>, fault: Option<string>)
    | Failed(reason: string)

  /** Python's `linecache.getline` over the file's lines (1-based): the empty
      string outside the file. Line terminators are not part of the model. */
  function GetLine(file: seq<string>, l: int): (r: string)
    ensures 1 <= l <= |file| ==> r == file[l - 1]
    ensures (l < 1 || l > |file|) ==> r == ""
  {
    if 1 <= l <= |file| then file[l - 1] else ""
  }
}
