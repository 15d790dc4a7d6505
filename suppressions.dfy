/** `get_error_codes_to_skip`: which codes a node's comments switch off. */
module Suppressions {
  import opened Basics
  import opened Tree
  import opened Noqa

  /** The codes to skip for a node, `{"all"}` to skip it entirely; a function or
      class whose span holds no definition line makes the source raise. */
  function CodesToSkip(n: Node, file: seq<string>): (r: Result<set<string>>)
    ensures r.Err? ==> (n.kind == FunctionKind || n.kind == ClassKind)
                       && DefinitionLine(file, n.name, n.lineno, n.endLineno).Err?
    ensures n.kind == ModuleKind ==> r == Ok(ModuleSuppressions(file))
    ensures n.kind == OtherKind ==> r == Ok({})
    ensures (n.kind == FunctionKind || n.kind == ClassKind) && r.Ok? ==>
              DefinitionLine(file, n.name, n.lineno, n.endLineno).Ok? &&
              r.value == LineSuppressions(DefinitionLine(file, n.name, n.lineno, n.endLineno).value)
  {
    match n.kind
    case ModuleKind => Ok(ModuleSuppressions(file))
    case OtherKind => Ok({})
    case _ =>
      match DefinitionLine(file, n.name, n.lineno, n.endLineno)
      case Err(e) => Err(e)
      case Ok(line) => Ok(LineSuppressions(line))
  }

  /** `get_error_codes_to_skip` with its loops. */
  method GetErrorCodesToSkip(n: Node, file: seq<string>) returns (r: Result<set<string>>)
    ensures r == CodesToSkip(n, file)
  {
    if n.kind == ModuleKind {
      var codes := GetModuleSuppressions(file);
      return Ok(codes);
    }
    if n.kind == FunctionKind || n.kind == ClassKind {
      var line := DefinitionLine(file, n.name, n.lineno, n.endLineno);
      if line.Err? {
        return Err(line.error);
      }
      var codes := GetLineSuppressions(line.value);
      return Ok(codes);
    }
    return Ok({});
  }

  /** What a node's comments switch off is either everything or a set of codes. */
  lemma CodesToSkipShape(n: Node, file: seq<string>)
    requires CodesToSkip(n, file).Ok?
    ensures var s := CodesToSkip(n, file).value;
            s == {"all"} || forall c :: c in s ==> IsCode(c)
  {
    match n.kind
    case ModuleKind =>
      if NoneIgnoresAll(file, |file|) {
        ModuleCodesAreCodes(file, |file|);
      }
    case OtherKind =>
    case _ =>
      LineSuppressionsShape(DefinitionLine(file, n.name, n.lineno, n.endLineno).value);
  }
}
