/** `error_registry.py`: a registry of error groups and errors, filled by
    appending, and the module-level registry of the four code groups. */
module Registry {
  import opened RuleMeta

  /** A group of similarly themed errors: a name and the code prefix. */
  datatype ErrorGroup = ErrorGroup(name: string, prefix: string)

  class ErrorRegistry {
    var groups: seq<ErrorGroup>
    var errors: seq<ErrorClass>

    /** A new registry has no groups and no errors. */
    constructor ()
      ensures groups == [] && errors == []
    {
      groups := [];
      errors := [];
    }

    /** `add_group` appends the group and leaves the errors alone. */
    method AddGroup(group: ErrorGroup)
      modifies this
      ensures groups == old(groups) + [group]
      ensures errors == old(errors)
    {
      groups := groups + [group];
    }

    /** `add_error` appends the error and leaves the groups alone. */
    method AddError(error: ErrorClass)
      modifies this
      ensures errors == old(errors) + [error]
      ensures groups == old(groups)
    {
      errors := errors + [error];
    }
  }

  /** The groups of the module-level registry, in the order they are added. */
  const RegistryGroups: seq<ErrorGroup> := [
    ErrorGroup("Missing Docstrings", "D1"),
    ErrorGroup("Whitespace Issues", "D2"),
    ErrorGroup("Quotes Issues", "D3"),
    ErrorGroup("Docstring Content Issues", "D4")
  ]

  /** The module-level `error_registry`: a new registry with the four groups
      added one after the other and no errors. */
  method ModuleRegistry() returns (registry: ErrorRegistry)
    ensures fresh(registry)
    ensures registry.groups == RegistryGroups && registry.errors == []
  {
    registry := new ErrorRegistry();
    registry.AddGroup(ErrorGroup("Missing Docstrings", "D1"));
    registry.AddGroup(ErrorGroup("Whitespace Issues", "D2"));
    registry.AddGroup(ErrorGroup("Quotes Issues", "D3"));
    registry.AddGroup(ErrorGroup("Docstring Content Issues", "D4"));
  }

  /** The four prefixes are D1 to D4 in order, and none begins another, so
      no code falls in two groups. */
  lemma RegistryPrefixes()
    ensures |RegistryGroups| == 4
    ensures forall i :: 0 <= i < 4 ==> RegistryGroups[i].prefix == ['D', "1234"[i]]
    ensures forall i, j :: 0 <= i < 4 && 0 <= j < 4 && i != j ==> !(RegistryGroups[i].prefix <= RegistryGroups[j].prefix)
  {
    forall i, j | 0 <= i < 4 && 0 <= j < 4 && i != j
      ensures !(RegistryGroups[i].prefix <= RegistryGroups[j].prefix)
    {
      assert RegistryGroups[i].prefix[1] == "1234"[i] != "1234"[j] == RegistryGroups[j].prefix[1];
    }
  }
}
