/** The class-based engine, `check_source.check_source`: the base code set,
    the module-wide suppressions, the worklist over the definition tree, and
    on each node the discovered `DocstringError` classes whose codes are
    still to be checked. */
module SourceEngine {
  import opened Basics
  import opened Tree
  import opened DocstringView
  import opened RuleMeta
  import opened Discovery
  import opened Noqa
  import opened Suppressions
  import opened Traversal
  import RuleTables

  /** One pass of the `for check in get_checks()` loop, given what the
      classes after this one give: a class whose code is not to be checked is
      passed over; an exception other than a `DocstringError` ends the run; a
      raised error is yielded, and after a terminal class nothing more is run
      on this node. */
  function ClassStep(c: ErrorClass, node: Node, codes: set<string>, config: Config, env: Env, later: Run): (r: Run)
    ensures ErrorCode(c) !in codes ==> r == later
  {
    if ErrorCode(c) !in codes then later
    else
      match ClassCheck(c, node, config, env)
      case Passed => later
      case Crashed(reason) => Run([], Some(reason))
      case Raised(v) =>
        if c.terminal then Run([Reported(node, v)], None)
        else Then(Run([Reported(node, v)], None), later)
  }

  /** The class loop on one node. */
  function ClassRun(checks: seq<ErrorClass>, node: Node, codes: set<string>, config: Config, env: Env): (r: Run)
    ensures |r.items| <= |checks|
    ensures forall k :: 0 <= k < |r.items| ==> r.items[k].Reported? && r.items[k].node == node
    decreases |checks|
  {
    if |checks| == 0 then Nothing
    else ClassStep(checks[0], node, codes, config, env, ClassRun(checks[1..], node, codes, config, env))
  }

  /** When every class raises its own code, everything the loop yields has a
      code that is still to be checked. */
  lemma {:induction false} ClassRunCodes(checks: seq<ErrorClass>, node: Node, codes: set<string>, config: Config, env: Env)
    requires forall c :: c in checks ==> RaisesOwnCode(c)
    ensures CodesWithin(ClassRun(checks, node, codes, config, env), codes)
    decreases |checks|
  {
    if |checks| > 0 {
      var c := checks[0];
      var rest := checks[1..];
      assert forall x :: x in rest ==> x in checks;
      ClassRunCodes(rest, node, codes, config, env);
      var outcome := ClassCheck(c, node, config, env);
      if ErrorCode(c) in codes && outcome.Raised? {
        var doc := GetDocstring(node, env.file);
        assert RaisesOwnCode(c);
        assert c.implementation(node, doc, config, env) == outcome;
        if !c.terminal {
          ReportThenCodes(node, outcome.violation, ClassRun(rest, node, codes, config, env), codes);
        }
      }
    }
  }

  /** Every item of the run is a report whose code is in `codes`. */
  predicate CodesWithin(r: Run, codes: set<string>) {
    forall k :: 0 <= k < |r.items| ==> r.items[k].Reported? && r.items[k].violation.code in codes
  }

  lemma ReportThenCodes(node: Node, v: Violation, tail: Run, codes: set<string>)
    requires v.code in codes && CodesWithin(tail, codes)
    ensures CodesWithin(Then(Run([Reported(node, v)], None), tail), codes)
  {
    var r := Then(Run([Reported(node, v)], None), tail);
    forall k | 0 <= k < |r.items| ensures r.items[k].Reported? && r.items[k].violation.code in codes {
      if k > 0 {
        assert r.items[k] == tail.items[k - 1];
      }
    }
  }

  /** A terminal class that raises ends the loop whatever comes after it. */
  lemma TerminalStepIgnoresLater(c: ErrorClass, node: Node, codes: set<string>, config: Config, env: Env, a: Run, b: Run)
    requires c.terminal && ErrorCode(c) in codes && ClassCheck(c, node, config, env).Raised?
    ensures ClassStep(c, node, codes, config, env, a) == ClassStep(c, node, codes, config, env, b)
  {
  }

  /** Once a terminal class in the list has raised, the classes after it are
      never run: the rest of the list can be anything. */
  lemma {:induction false} TerminalStopsClassRun(pre: seq<ErrorClass>, rest: seq<ErrorClass>, node: Node, codes: set<string>, config: Config, env: Env)
    requires |pre| > 0
    requires pre[|pre| - 1].terminal && ErrorCode(pre[|pre| - 1]) in codes
    requires ClassCheck(pre[|pre| - 1], node, config, env).Raised?
    ensures ClassRun(pre + rest, node, codes, config, env) == ClassRun(pre, node, codes, config, env)
    decreases |pre|
  {
    assert (pre + rest)[0] == pre[0];
    assert (pre + rest)[1..] == pre[1..] + rest;
    if |pre| > 1 {
      TerminalStopsClassRun(pre[1..], rest, node, codes, config, env);
    } else {
      TerminalStepIgnoresLater(pre[0], node, codes, config, env,
                               ClassRun(pre[1..] + rest, node, codes, config, env), ClassRun(pre[1..], node, codes, config, env));
    }
  }

  /** What one node gives: nothing for a node skipped by its decorators or
      whose suppressions hold "all"; a failed suppression lookup or a failed
      class discovery ends the run; otherwise the class loop with the base
      codes minus the module and node suppressions. */
  function NodeRun(node: Node, base: set<string>, moduleSkips: set<string>, config: Config, env: Env,
                   modules: seq<CheckModule>): (r: Run)
    ensures SkipNode(node, config) ==> r == Nothing
    ensures forall k :: 0 <= k < |r.items| ==> r.items[k].Reported? && r.items[k].node == node
  {
    if SkipNode(node, config) then Nothing
    else
      match CodesToSkip(node, env.file)
      case Err(e) => Run([], Some(e))
      case Ok(nodeSkips) =>
        var skips := moduleSkips + nodeSkips;
        if "all" in skips then Nothing
        else
          match GetChecks(modules)
          case Err(e) => Run([], Some(e))
          case Ok(checks) => ClassRun(checks, node, base - skips, config, env)
  }

  /** `NodeRun` as the function the worklist applies to every node. */
  function NodeEvaluation(base: set<string>, moduleSkips: set<string>, config: Config, env: Env,
                          modules: seq<CheckModule>): (f: Node -> Run)
    ensures forall node :: f(node) == NodeRun(node, base, moduleSkips, config, env, modules)
  {
    node => NodeRun(node, base, moduleSkips, config, env, modules)
  }

  /** `check_source`: an IllegalConfiguration, a failed code lookup or a file
      that does not parse ends the run before any node is visited; module-wide
      "all" gives nothing; otherwise every node of the worklist is evaluated. */
  function CheckSource(config: Config, parsed: Result<Node>, env: Env, modules: seq<CheckModule>): (r: Run)
    ensures config.select.Some? && config.ignore.Some? ==> r == Run([], Some(IllegalConfigurationMessage))
    ensures BaseCodes(config, GetErrorCodes(modules, None), env.conventionCodes).Ok? && parsed.Err? ==>
              r == Run([], Some(parsed.error))
  {
    match BaseCodes(config, GetErrorCodes(modules, None), env.conventionCodes)
    case Err(e) => Run([], Some(e))
    case Ok(base) =>
      match parsed
      case Err(e) => Run([], Some(e))
      case Ok(root) =>
        match CodesToSkip(root, env.file)
        case Err(e) => Run([], Some(e))
        case Ok(moduleSkips) =>
          if "all" in moduleSkips then Nothing
          else Walk(NodeEvaluation(base, moduleSkips, config, env, modules), [root])
  }

  /** A module whose suppressions name "all" gives nothing at all. */
  lemma ModuleAllSilences(config: Config, root: Node, env: Env, modules: seq<CheckModule>)
    requires root.kind == ModuleKind && "all" in ModuleSuppressions(env.file)
    ensures CheckSource(config, Ok(root), env, modules) == Nothing
           || CheckSource(config, Ok(root), env, modules) == Run([], Some(IllegalConfigurationMessage))
           || CheckSource(config, Ok(root), env, modules) == Run([], Some(GetErrorCodes(modules, None).error))
  {
    var skips := CodesToSkip(root, env.file);
    assert skips == Ok(ModuleSuppressions(env.file));
  }

  /** Every report of one node honours the configuration and the
      suppressions. */
  lemma NodeRunRespects(node: Node, base: set<string>, moduleSkips: set<string>, config: Config, env: Env,
                        modules: seq<CheckModule>)
    requires IsChecked(node)
    requires forall c :: c in Discovered(modules) ==> RaisesOwnCode(c)
    ensures AllItems(NodeRun(node, base, moduleSkips, config, env, modules), RespectsAll(base, moduleSkips, config, env.file))
  {
    var r := NodeRun(node, base, moduleSkips, config, env, modules);
    if !SkipNode(node, config) && CodesToSkip(node, env.file).Ok? && GetChecks(modules).Ok? {
      var skips := moduleSkips + CodesToSkip(node, env.file).value;
      if "all" !in skips {
        var checks := GetChecks(modules).value;
        forall c | c in checks ensures RaisesOwnCode(c) {
          assert c in multiset(checks);
          assert c in multiset(Discovered(modules));
        }
        ClassRunCodes(checks, node, base - skips, config, env);
      }
    }
  }

  /** The reports of a whole run: each is on a checked node not skipped by its
      decorators, with a code of the base set that neither the module-wide nor
      the node's suppressions name. */
  lemma CheckSourceRespects(config: Config, parsed: Result<Node>, env: Env, modules: seq<CheckModule>)
    requires parsed.Ok? ==> parsed.value.kind == ModuleKind
    requires forall c :: c in Discovered(modules) ==> RaisesOwnCode(c)
    ensures var r := CheckSource(config, parsed, env, modules);
            |r.items| > 0 ==>
              parsed.Ok? && BaseCodes(config, GetErrorCodes(modules, None), env.conventionCodes).Ok?
              && AllItems(r, RespectsAll(BaseCodes(config, GetErrorCodes(modules, None), env.conventionCodes).value,
                                         ModuleSuppressions(env.file), config, env.file))
  {
    var r := CheckSource(config, parsed, env, modules);
    var baseCodes := BaseCodes(config, GetErrorCodes(modules, None), env.conventionCodes);
    if baseCodes.Ok? && parsed.Ok? && "all" !in ModuleSuppressions(env.file) {
      var base, root, moduleSkips := baseCodes.value, parsed.value, ModuleSuppressions(env.file);
      var f := NodeEvaluation(base, moduleSkips, config, env, modules);
      var p := RespectsAll(base, moduleSkips, config, env.file);
      forall n | IsChecked(n) ensures AllItems(f(n), p) {
        NodeRunRespects(n, base, moduleSkips, config, env, modules);
      }
      WalkItems(f, [root], p);
    }
  }

  /** The same for the shipped class catalogue, whose classes all raise their
      own codes. */
  lemma CatalogueRespects(config: Config, parsed: Result<Node>, env: Env)
    requires parsed.Ok? ==> parsed.value.kind == ModuleKind
    ensures var r := CheckSource(config, parsed, env, RuleTables.ClassModules);
            |r.items| > 0 ==>
              AllItems(r, RespectsAll(BaseCodes(config, GetErrorCodes(RuleTables.ClassModules, None), env.conventionCodes).value,
                                      ModuleSuppressions(env.file), config, env.file))
  {
    forall c | c in Discovered(RuleTables.ClassModules) ensures RaisesOwnCode(c) {
      RuleTables.ClassRulesRaiseOwnCode(c);
    }
    CheckSourceRespects(config, parsed, env, RuleTables.ClassModules);
  }

  /** The same for the catalogue with D419 and D210 as intended. */
  lemma IntendedCatalogueRespects(config: Config, parsed: Result<Node>, env: Env)
    requires parsed.Ok? ==> parsed.value.kind == ModuleKind
    ensures var r := CheckSource(config, parsed, env, RuleTables.IntendedClassModules);
            |r.items| > 0 ==>
              AllItems(r, RespectsAll(BaseCodes(config, GetErrorCodes(RuleTables.IntendedClassModules, None), env.conventionCodes).value,
                                      ModuleSuppressions(env.file), config, env.file))
  {
    forall c | c in Discovered(RuleTables.IntendedClassModules) ensures RaisesOwnCode(c) {
      RuleTables.IntendedClassRulesRaiseOwnCode(c);
    }
    CheckSourceRespects(config, parsed, env, RuleTables.IntendedClassModules);
  }

  /** The worklist visits each checked node once, before its subtree. */
  lemma CheckSourceIsDepthFirst(config: Config, root: Node, env: Env, modules: seq<CheckModule>)
    requires BaseCodes(config, GetErrorCodes(modules, None), env.conventionCodes).Ok?
    requires root.kind == ModuleKind && "all" !in ModuleSuppressions(env.file)
    ensures CheckSource(config, Ok(root), env, modules)
            == Visit(NodeEvaluation(BaseCodes(config, GetErrorCodes(modules, None), env.conventionCodes).value,
                                    ModuleSuppressions(env.file), config, env, modules), root)
  {
    var f := NodeEvaluation(BaseCodes(config, GetErrorCodes(modules, None), env.conventionCodes).value,
                            ModuleSuppressions(env.file), config, env, modules);
    WalkIsDepthFirst(f, root);
  }

  // --------------------------------------------------------------- methods

  /** The class loop with its early exits. */
  method RunClassChecks(checks: seq<ErrorClass>, node: Node, codes: set<string>, config: Config, env: Env)
    returns (r: Run)
    ensures r == ClassRun(checks, node, codes, config, env)
  {
    var yielded: seq<Item> := [];
    var i := 0;
    while i < |checks|
      invariant 0 <= i <= |checks|
      invariant Then(Run(yielded, None), ClassRun(checks[i..], node, codes, config, env))
                == ClassRun(checks, node, codes, config, env)
    {
      var c := checks[i];
      assert checks[i..][0] == c && checks[i..][1..] == checks[i + 1..];
      if ErrorCode(c) in codes {
        var outcome := ClassCheck(c, node, config, env);
        if outcome.Crashed? {
          return Run(yielded, Some(outcome.reason));
        } else if outcome.Raised? {
          ThenAssociative(Run(yielded, None), Run([Reported(node, outcome.violation)], None),
                          ClassRun(checks[i + 1..], node, codes, config, env));
          if c.terminal {
            return Run(yielded + [Reported(node, outcome.violation)], None);
          }
          yielded := yielded + [Reported(node, outcome.violation)];
        }
      }
      i := i + 1;
    }
    assert yielded + [] == yielded;
    return Run(yielded, None);
  }

  /** One pass of the worklist loop's body. */
  method EvaluateNode(node: Node, base: set<string>, moduleSkips: set<string>, config: Config, env: Env,
                      modules: seq<CheckModule>) returns (r: Run)
    ensures r == NodeRun(node, base, moduleSkips, config, env, modules)
  {
    if SkipNode(node, config) {
      return Nothing;
    }
    var nodeSkips := GetErrorCodesToSkip(node, env.file);
    if nodeSkips.Err? {
      return Run([], Some(nodeSkips.error));
    }
    var skips := moduleSkips + nodeSkips.value;
    if "all" in skips {
      return Nothing;
    }
    var checks := GetChecks(modules);
    if checks.Err? {
      return Run([], Some(checks.error));
    }
    r := RunClassChecks(checks.value, node, base - skips, config, env);
  }

  /** `check_source` with its worklist: pop the last node, push its checked
      children, evaluate the node. */
  method CheckFile(config: Config, parsed: Result<Node>, env: Env, modules: seq<CheckModule>) returns (r: Run)
    ensures r == CheckSource(config, parsed, env, modules)
  {
    var baseCodes := BaseCodes(config, GetErrorCodes(modules, None), env.conventionCodes);
    if baseCodes.Err? {
      return Run([], Some(baseCodes.error));
    }
    if parsed.Err? {
      return Run([], Some(parsed.error));
    }
    var root := parsed.value;
    var moduleSkipped := GetErrorCodesToSkip(root, env.file);
    if moduleSkipped.Err? {
      return Run([], Some(moduleSkipped.error));
    }
    if "all" in moduleSkipped.value {
      return Nothing;
    }
    ghost var f := NodeEvaluation(baseCodes.value, moduleSkipped.value, config, env, modules);
    var nodes := [root];
    var yielded: seq<Item> := [];
    while |nodes| > 0
      invariant Then(Run(yielded, None), Walk(f, nodes)) == Walk(f, [root])
      decreases SizeAll(nodes)
    {
      PopShrinks(nodes);
      var node := nodes[|nodes| - 1];
      ghost var before := nodes;
      nodes := nodes[..|nodes| - 1] + ChildNodesToCheck(node);
      assert Walk(f, before) == Then(f(node), Walk(f, nodes));
      var step := EvaluateNode(node, baseCodes.value, moduleSkipped.value, config, env, modules);
      ThenAssociative(Run(yielded, None), step, Walk(f, nodes));
      if step.fault.Some? {
        return Run(yielded + step.items, step.fault);
      }
      yielded := yielded + step.items;
    }
    assert yielded + [] == yielded;
    return Run(yielded, None);
  }
}
