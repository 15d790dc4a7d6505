/** The missing-docstring rules D100 to D107 of `checks/missing_docstring.py`:
    each reports a public definition of one sort that has no docstring. */
module MissingDocstring {
  import opened Basics
  import opened PyStr
  import opened Utils
  import opened Tree
  import opened DocstringView

  /** Dunder methods that D105 does not ask a docstring for. */
  const VariadicMagicMethods: set<string> := {"__new__", "__init__", "__call__"}

  /** `is_overloaded`: the function carries an `overload` decorator. */
  predicate IsOverloaded(n: Node) {
    "overload" in n.decorators
  }

  /** The codes of the eight rules, in the order the module defines them. */
  const MissingCodes: seq<string> := ["D100", "D101", "D102", "D103", "D104", "D105", "D106", "D107"]

  /** The node kind each rule's `applicable_nodes` names. */
  function MissingKind(code: string): Kind
    requires code in MissingCodes
  {
    if code == "D100" || code == "D104" then ModuleKind
    else if code == "D101" || code == "D106" then ClassKind
    else FunctionKind
  }

  /** The condition under which each rule's `check_implementation` raises. */
  predicate MissingCondition(code: string, n: Node, doc: Option<Docstring>)
    requires code in MissingCodes
  {
    doc.None? && n.isPublic &&
    match code
    case "D100" => !n.isPackage
    case "D101" => !n.isNestedClass
    case "D102" => !IsOverloaded(n) && n.isBound && !IsDunder(n.name)
    case "D103" => !IsOverloaded(n) && !n.parentIsFunction && !n.isBound
    case "D104" => n.isPackage
    case "D105" => !IsOverloaded(n) && n.isBound && IsDunder(n.name) && n.name !in VariadicMagicMethods
    case "D106" => n.isNestedClass
    case _ => !IsOverloaded(n) && n.isBound && n.name == "__init__"
  }

  /** `check_implementation` of the rule `code`. */
  function MissingImplementation(code: string, n: Node, doc: Option<Docstring>): (r: Raised)
    requires code in MissingCodes
    ensures r.Crashed? == false
    ensures r.Raised? ==> r.violation == Violation(code, [])
  {
    if MissingCondition(code, n, doc) then Raised(Violation(code, [])) else Passed
  }

  /** An independent statement of which code a definition without a docstring is
      reported under: a module by whether it is a package, a class by whether it
      is nested, a function by whether it is a method and what its name is. */
  function ExpectedMissingCode(n: Node): Option<string> {
    if !n.isPublic then None
    else match n.kind
      case ModuleKind => Some(if n.isPackage then "D104" else "D100")
      case ClassKind => Some(if n.isNestedClass then "D106" else "D101")
      case FunctionKind =>
        if IsOverloaded(n) then None
        else if !n.isBound then (if n.parentIsFunction then None else Some("D103"))
        else if n.name == "__init__" then Some("D107")
        else if !IsDunder(n.name) then Some("D102")
        else if n.name in VariadicMagicMethods then None
        else Some("D105")
      case OtherKind => None
  }

  /** Among the eight rules, the one that raises for a definition of its kind is
      exactly the expected code, and only when the docstring is missing: at most
      one of them fires for any node. */
  lemma MissingRulesAgree(code: string, n: Node, doc: Option<Docstring>)
    requires code in MissingCodes
    ensures (MissingKind(code) == n.kind && MissingCondition(code, n, doc))
            <==> (doc.None? && ExpectedMissingCode(n) == Some(code))
  {
  }

  /** An `__init__.py` module (a package) without a docstring gets D104 and not D100. */
  lemma PackageGetsD104(n: Node)
    requires n.kind == ModuleKind && n.isPublic && n.isPackage
    ensures MissingImplementation("D104", n, None) == Raised(Violation("D104", []))
    ensures MissingImplementation("D100", n, None) == Passed
  {
  }

  /** A public bound `__init__` gets D107 only: neither D102 nor D105. */
  lemma InitGetsOnlyD107(n: Node)
    requires n.kind == FunctionKind && n.isPublic && n.isBound && n.name == "__init__" && !IsOverloaded(n)
    ensures MissingCondition("D107", n, None)
    ensures !MissingCondition("D102", n, None) && !MissingCondition("D105", n, None)
  {
  }
}
