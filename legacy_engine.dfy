/** The function-based engine, `checker.check_source`: the base code set, the
    worklist over the definition tree, and on each node the package's `Check`
    objects in `_get_checks` order, each gated by its flags and node kinds,
    its errors filtered by the checked codes unless inline noqa is ignored. */
module LegacyEngine {
  import opened Basics
  import opened PyStr
  import opened Tree
  import opened DocstringView
  import opened RuleMeta
  import opened Discovery
  import opened Noqa
  import opened Suppressions
  import opened Traversal
  import opened WhitespaceRules
  import opened RuleTables

  // -------------------------------------------------------- emitting errors

  /** An error is emitted when inline noqa is ignored or its code is checked. */
  predicate Emits(v: Violation, checked: set<string>, config: Config) {
    config.ignoreInlineNoqa || v.code in checked
  }

  /** The reports of the emitted errors, in their order. */
  function EmittedItems(node: Node, vs: seq<Violation>, checked: set<string>, config: Config): (r: seq<Item>)
    ensures |r| <= |vs|
    ensures forall k :: 0 <= k < |r| ==>
              r[k].Reported? && r[k].node == node && r[k].violation in vs && Emits(r[k].violation, checked, config)
    ensures forall v :: v in vs && Emits(v, checked, config) ==> Reported(node, v) in r
  {
    if |vs| == 0 then []
    else
      var rest := EmittedItems(node, vs[1..], checked, config);
      assert forall v :: v in vs[1..] ==> v in vs;
      assert forall v :: v in vs ==> v == vs[0] || v in vs[1..];
      if Emits(vs[0], checked, config) then [Reported(node, vs[0])] + rest else rest
  }

  lemma {:induction false} EmittedConcat(node: Node, a: seq<Violation>, b: seq<Violation>, checked: set<string>, config: Config)
    ensures EmittedItems(node, a + b, checked, config)
            == EmittedItems(node, a, checked, config) + EmittedItems(node, b, checked, config)
  {
    if |a| == 0 {
      assert a + b == b;
    } else {
      var head := if Emits(a[0], checked, config) then [Reported(node, a[0])] else [];
      var restA, restB := EmittedItems(node, a[1..], checked, config), EmittedItems(node, b, checked, config);
      assert EmittedItems(node, a + b, checked, config) == head + EmittedItems(node, a[1..] + b, checked, config) by {
        assert (a + b)[0] == a[0] && (a + b)[1..] == a[1..] + b;
      }
      assert EmittedItems(node, a[1..] + b, checked, config) == restA + restB by {
        EmittedConcat(node, a[1..], b, checked, config);
      }
      assert EmittedItems(node, a, checked, config) == head + restA;
      AppendAssociates(head, restA, restB);
    }
  }

  lemma AppendAssociates<T>(x: seq<T>, y: seq<T>, z: seq<T>)
    ensures x + (y + z) == (x + y) + z
  {
  }

  /** The first emitted report is that of the first error that is emitted. */
  lemma {:induction false} FirstEmitted(node: Node, vs: seq<Violation>, checked: set<string>, config: Config)
    requires |EmittedItems(node, vs, checked, config)| > 0
    ensures exists i :: 0 <= i < |vs| && Emits(vs[i], checked, config)
              && (forall j :: 0 <= j < i ==> !Emits(vs[j], checked, config))
              && EmittedItems(node, vs, checked, config)[0] == Reported(node, vs[i])
  {
    if !Emits(vs[0], checked, config) {
      FirstEmitted(node, vs[1..], checked, config);
      var i :| 0 <= i < |vs[1..]| && Emits(vs[1..][i], checked, config)
               && (forall j :: 0 <= j < i ==> !Emits(vs[1..][j], checked, config))
               && EmittedItems(node, vs[1..], checked, config)[0] == Reported(node, vs[1..][i]);
      assert forall j :: 0 <= j < i + 1 ==> !Emits(vs[j], checked, config) by {
        forall j | 0 < j < i + 1 ensures !Emits(vs[j], checked, config) {
          assert vs[j] == vs[1..][j - 1];
        }
      }
      assert vs[i + 1] == vs[1..][i];
    } else {
      assert EmittedItems(node, vs, checked, config)[0] == Reported(node, vs[0]);
    }
  }

  /** With `ignore_inline_noqa` every error is emitted, whatever the checked
      codes, so the option bypasses `select` and `ignore` too. */
  lemma {:induction false} NoqaIgnoredEmitsAll(node: Node, vs: seq<Violation>, checked: set<string>, config: Config)
    requires config.ignoreInlineNoqa
    ensures |EmittedItems(node, vs, checked, config)| == |vs|
    ensures forall k :: 0 <= k < |vs| ==> EmittedItems(node, vs, checked, config)[k] == Reported(node, vs[k])
  {
    if |vs| > 0 {
      NoqaIgnoredEmitsAll(node, vs[1..], checked, config);
      var r := EmittedItems(node, vs, checked, config);
      forall k | 0 < k < |vs| ensures r[k] == Reported(node, vs[k]) {
        assert vs[k] == vs[1..][k - 1];
      }
    }
  }

  /** What a check gives: its run and whether the node's evaluation stops. */
  datatype Outcome = Outcome(run: Run, stop: bool)

  /** The `for error in errors` loop: a terminal check stops right after its
      first emitted error, before a generator's failure is reached; errors
      that are not emitted do not stop anything; otherwise all emitted errors,
      then the failure. */
  function Emit(node: Node, vs: seq<Violation>, fault: Option<string>, checked: set<string>, config: Config,
                terminal: bool): (o: Outcome)
    ensures o.stop <==> terminal && exists v :: v in vs && Emits(v, checked, config)
    ensures o.stop ==> exists i :: 0 <= i < |vs| && Emits(vs[i], checked, config)
                         && (forall j :: 0 <= j < i ==> !Emits(vs[j], checked, config))
                         && o.run == Run([Reported(node, vs[i])], None)
    ensures !o.stop ==> o.run.fault == fault
  {
    var items := EmittedItems(node, vs, checked, config);
    if terminal && |items| > 0 then
      FirstEmitted(node, vs, checked, config);
      Outcome(Run([items[0]], None), true)
    else
      assert terminal ==> forall v :: v in vs ==> !Emits(v, checked, config);
      Outcome(Run(items, fault), false)
  }

  /** Calling the check: an exception ends the run; a single result is
      wrapped into a list with None dropped; a generator's items are emitted
      before its failure. */
  function CheckOutcome(c: Check, node: Node, doc: Option<Docstring>, checked: set<string>, config: Config,
                        env: Env): (o: Outcome)
    ensures CallCheck(c, node, doc, config, env).Failed? ==> o == Outcome(Run([], Some(CallCheck(c, node, doc, config, env).reason)), false)
    ensures CallCheck(c, node, doc, config, env) == Single(None) ==> o == Outcome(Nothing, false)
  {
    match CallCheck(c, node, doc, config, env)
    case Failed(reason) => Outcome(Run([], Some(reason)), false)
    case Single(result) => Emit(node, if result.Some? then [result.value] else [], None, checked, config, c.terminal)
    case Many(vs, fault) => Emit(node, vs, fault, checked, config, c.terminal)
  }

  // ------------------------------------------------------- one node's checks

  /** The three skips of a check: the node has no doc node and the check needs
      one; the content is exactly empty and the check needs content; the node
      is not of the check's kinds. */
  predicate Gate(c: Check, node: Node, doc: Option<Docstring>) {
    !(node.doc.None? && c.onlyIfDocstringExists)
    && !(doc.Some? && doc.value.content == "" && c.onlyIfDocstringNotEmpty)
    && node.kind in c.nodeType
  }

  /** Every item is an emitted report on `node`. */
  predicate EmittedOn(r: Run, node: Node, checked: set<string>, config: Config) {
    forall k :: 0 <= k < |r.items| ==>
      r.items[k].Reported? && r.items[k].node == node && Emits(r.items[k].violation, checked, config)
  }

  lemma ThenEmittedOn(a: Run, b: Run, node: Node, checked: set<string>, config: Config)
    requires EmittedOn(a, node, checked, config) && EmittedOn(b, node, checked, config)
    ensures EmittedOn(Then(a, b), node, checked, config)
  {
    var r := Then(a, b);
    if a.fault.None? {
      forall k | |a.items| <= k < |r.items| ensures r.items[k] == b.items[k - |a.items|] {
      }
    }
  }

  lemma OutcomeEmittedOn(c: Check, node: Node, doc: Option<Docstring>, checked: set<string>, config: Config, env: Env)
    ensures EmittedOn(CheckOutcome(c, node, doc, checked, config, env).run, node, checked, config)
  {
  }

  /** The loop over the checks of one node, with the `terminate` flag. */
  function CheckLoop(checks: seq<Check>, node: Node, doc: Option<Docstring>, checked: set<string>, config: Config,
                     env: Env): (r: Run)
    ensures EmittedOn(r, node, checked, config)
    decreases |checks|
  {
    if |checks| == 0 then Nothing
    else
      var c := checks[0];
      if !Gate(c, node, doc) then CheckLoop(checks[1..], node, doc, checked, config, env)
      else
        var o := CheckOutcome(c, node, doc, checked, config, env);
        OutcomeEmittedOn(c, node, doc, checked, config, env);
        if o.stop then o.run
        else
          var rest := CheckLoop(checks[1..], node, doc, checked, config, env);
          ThenEmittedOn(o.run, rest, node, checked, config);
          Then(o.run, rest)
  }

  /** Once a terminal check in the list has emitted an error, the checks after
      it are never run. */
  lemma {:induction false} TerminalStopsCheckLoop(pre: seq<Check>, rest: seq<Check>, node: Node, doc: Option<Docstring>,
                                                  checked: set<string>, config: Config, env: Env)
    requires |pre| > 0 && Gate(pre[|pre| - 1], node, doc)
    requires CheckOutcome(pre[|pre| - 1], node, doc, checked, config, env).stop
    ensures CheckLoop(pre + rest, node, doc, checked, config, env) == CheckLoop(pre, node, doc, checked, config, env)
    decreases |pre|
  {
    assert (pre + rest)[0] == pre[0];
    if |pre| > 1 {
      assert (pre + rest)[1..] == pre[1..] + rest;
      TerminalStopsCheckLoop(pre[1..], rest, node, doc, checked, config, env);
    }
  }

  /** What one node gives: a failed suppression lookup ends the run; nothing
      for a node whose suppressions hold "all" or, tested after that, whose
      decorators are ignored; a failed `_get_checks` ends the run; otherwise
      the check loop with the base codes minus the suppressions. */
  function NodeRun(node: Node, base: set<string>, moduleSkips: set<string>, config: Config, env: Env,
                   checks: Result<seq<Check>>): (r: Run)
    ensures forall k :: 0 <= k < |r.items| ==> r.items[k].Reported? && r.items[k].node == node
  {
    match CodesToSkip(node, env.file)
    case Err(e) => Run([], Some(e))
    case Ok(nodeSkips) =>
      var skips := moduleSkips + nodeSkips;
      if "all" in skips then Nothing
      else if SkipNode(node, config) then Nothing
      else
        match checks
        case Err(e) => Run([], Some(e))
        case Ok(cs) => CheckLoop(cs, node, GetDocstring(node, env.file), base - skips, config, env)
  }

  function NodeEvaluation(base: set<string>, moduleSkips: set<string>, config: Config, env: Env,
                          checks: Result<seq<Check>>): (f: Node -> Run)
    ensures forall node :: f(node) == NodeRun(node, base, moduleSkips, config, env, checks)
  {
    node => NodeRun(node, base, moduleSkips, config, env, checks)
  }

  /** `check_source` given what `_get_checks` gives: an IllegalConfiguration
      ends the run; a file that does not parse yields its syntax error as the
      only item; otherwise every node of the worklist is evaluated. */
  function Checker(config: Config, parsed: Result<Node>, env: Env, registryCodes: set<string>,
                   checks: Result<seq<Check>>): (r: Run)
    ensures config.select.Some? && config.ignore.Some? ==> r == Run([], Some(IllegalConfigurationMessage))
    ensures !(config.select.Some? && config.ignore.Some?) && parsed.Err? ==> r == Run([ParseError(parsed.error)], None)
  {
    match BaseCodes(config, Ok(registryCodes), env.conventionCodes)
    case Err(e) => Run([], Some(e))
    case Ok(base) =>
      match parsed
      case Err(e) => Run([ParseError(e)], None)
      case Ok(root) =>
        match CodesToSkip(root, env.file)
        case Err(e) => Run([], Some(e))
        case Ok(moduleSkips) => Walk(NodeEvaluation(base, moduleSkips, config, env, checks), [root])
  }

  /** `check_source` with the checks in the intended `_get_checks` order:
      terminal checks first, discovery order otherwise. */
  function CheckSource(config: Config, parsed: Result<Node>, env: Env, registryCodes: set<string>,
                       attributes: seq<PackageAttribute>): Run
  {
    Checker(config, parsed, env, registryCodes, Ok(OrderChecks(attributes)))
  }

  // ------------------------------------------------------------- properties

  /** Unless inline noqa is ignored, every report of one node honours the
      configuration and the suppressions. */
  lemma NodeRunRespects(node: Node, base: set<string>, moduleSkips: set<string>, config: Config, env: Env,
                        checks: Result<seq<Check>>)
    requires IsChecked(node) && !config.ignoreInlineNoqa
    ensures AllItems(NodeRun(node, base, moduleSkips, config, env, checks), RespectsAll(base, moduleSkips, config, env.file))
  {
  }

  /** Unless inline noqa is ignored, the reports of a whole run are on checked
      nodes not skipped by their decorators, with codes of the base set that
      neither the module-wide nor the node's suppressions name. */
  lemma CheckerRespects(config: Config, parsed: Result<Node>, env: Env, registryCodes: set<string>,
                        checks: Result<seq<Check>>)
    requires parsed.Ok? ==> parsed.value.kind == ModuleKind
    requires !config.ignoreInlineNoqa
    ensures var r := Checker(config, parsed, env, registryCodes, checks);
            parsed.Ok? && |r.items| > 0 ==>
              BaseCodes(config, Ok(registryCodes), env.conventionCodes).Ok?
              && AllItems(r, RespectsAll(BaseCodes(config, Ok(registryCodes), env.conventionCodes).value,
                                         ModuleSuppressions(env.file), config, env.file))
  {
    var baseCodes := BaseCodes(config, Ok(registryCodes), env.conventionCodes);
    if baseCodes.Ok? && parsed.Ok? {
      var base, root := baseCodes.value, parsed.value;
      var moduleSkips := ModuleSuppressions(env.file);
      assert CodesToSkip(root, env.file) == Ok(moduleSkips);
      var f := NodeEvaluation(base, moduleSkips, config, env, checks);
      var p := RespectsAll(base, moduleSkips, config, env.file);
      forall n | IsChecked(n) ensures AllItems(f(n), p) {
        NodeRunRespects(n, base, moduleSkips, config, env, checks);
      }
      WalkItems(f, [root], p);
    }
  }

  /** The empty-docstring check on a docstring of spaces only: D419, and the
      node's evaluation stops. */
  lemma EmptyDocstringCheckStops(node: Node, doc: Option<Docstring>, checked: set<string>, config: Config, env: Env)
    requires doc.Some? && "D419" in checked
    requires forall i :: 0 <= i < |doc.value.content| ==> IsSpace(doc.value.content[i])
    ensures CheckOutcome(EmptyDocstringCheck, node, doc, checked, config, env)
            == Outcome(Run([Reported(node, Violation("D419", []))], None), true)
  {
    assert CallCheck(EmptyDocstringCheck, node, doc, config, env) == Single(Some(Violation("D419", [])));
    assert [Violation("D419", [])][0] == Violation("D419", []);
  }

  /** A first check that passes its gates and stops is all the node gives. */
  lemma FirstCheckStops(cs: seq<Check>, node: Node, doc: Option<Docstring>, checked: set<string>, config: Config, env: Env)
    requires |cs| > 0 && Gate(cs[0], node, doc) && CheckOutcome(cs[0], node, doc, checked, config, env).stop
    ensures CheckLoop(cs, node, doc, checked, config, env) == CheckOutcome(cs[0], node, doc, checked, config, env).run
  {
  }

  /** On a node with a docstring of spaces only, checks headed by the
      empty-docstring check report D419 and nothing else. */
  lemma BlankDocstringStopsAtD419(node: Node, base: set<string>, moduleSkips: set<string>, config: Config, env: Env,
                                  cs: seq<Check>)
    requires |cs| > 0 && cs[0] == EmptyDocstringCheck
    requires CodesToSkip(node, env.file).Ok?
    requires "all" !in moduleSkips + CodesToSkip(node, env.file).value
    requires "D419" in base - (moduleSkips + CodesToSkip(node, env.file).value)
    requires !SkipNode(node, config)
    requires node.doc.Some? && forall i :: 0 <= i < |Content(node.doc.value)| ==> IsSpace(Content(node.doc.value)[i])
    ensures NodeRun(node, base, moduleSkips, config, env, Ok(cs)) == Run([Reported(node, Violation("D419", []))], None)
  {
    var doc := GetDocstring(node, env.file);
    var checked := base - (moduleSkips + CodesToSkip(node, env.file).value);
    assert doc.Some? && doc.value.content == Content(node.doc.value);
    assert node.kind in AnyNode;
    EmptyDocstringCheckStops(node, doc, checked, config, env);
    FirstCheckStops(cs, node, doc, checked, config, env);
  }

  /** On a node with a docstring of spaces only, the package's checks report
      D419 and nothing else: the terminal empty-docstring check runs first. */
  lemma BlankDocstringGivesOnlyD419(node: Node, base: set<string>, moduleSkips: set<string>, config: Config, env: Env)
    requires CodesToSkip(node, env.file).Ok?
    requires "all" !in moduleSkips + CodesToSkip(node, env.file).value
    requires "D419" in base - (moduleSkips + CodesToSkip(node, env.file).value)
    requires !SkipNode(node, config)
    requires node.doc.Some? && forall i :: 0 <= i < |Content(node.doc.value)| ==> IsSpace(Content(node.doc.value)[i])
    ensures NodeRun(node, base, moduleSkips, config, env, Ok(OrderChecks(FunctionAttributes)))
            == Run([Reported(node, Violation("D419", []))], None)
  {
    EmptyDocstringCheckFirst();
    BlankDocstringStopsAtD419(node, base, moduleSkips, config, env, OrderChecks(FunctionAttributes));
  }

  // ---------------------------------------------------------- as written

  const NoTerminalAttribute: string := "'Check' object has no attribute '_terminal'"

  /** `_get_checks` as written: the sort key reads `_terminal`, an attribute a
      `Check` does not have, so sorting any non-empty list of checks raises
      AttributeError. */
  function GetChecksAsWritten(attributes: seq<PackageAttribute>): (r: Result<seq<Check>>)
    ensures r.Err? <==> exists c :: CheckAttribute(c) in attributes
    ensures r.Ok? ==> r.value == []
  {
    if |PackageChecks(attributes)| == 0 then Ok([])
    else
      assert CheckAttribute(PackageChecks(attributes)[0]) in attributes;
      Err(NoTerminalAttribute)
  }

  function CheckSourceAsWritten(config: Config, parsed: Result<Node>, env: Env, registryCodes: set<string>,
                                attributes: seq<PackageAttribute>): Run
  {
    Checker(config, parsed, env, registryCodes, GetChecksAsWritten(attributes))
  }

  /** As written, the engine fails on the first node that no suppression and
      no decorator skips, before any check runs, whenever the package holds a
      check. */
  lemma AsWrittenFails(config: Config, root: Node, env: Env, registryCodes: set<string>, attributes: seq<PackageAttribute>)
    requires !(config.select.Some? && config.ignore.Some?)
    requires root.kind == ModuleKind && "all" !in ModuleSuppressions(env.file) && !SkipNode(root, config)
    requires exists c :: CheckAttribute(c) in attributes
    ensures CheckSourceAsWritten(config, Ok(root), env, registryCodes, attributes) == Run([], Some(NoTerminalAttribute))
  {
    var checks := GetChecksAsWritten(attributes);
    var moduleSkips := ModuleSuppressions(env.file);
    assert CodesToSkip(root, env.file) == Ok(moduleSkips);
    var base := BaseCodes(config, Ok(registryCodes), env.conventionCodes).value;
    var f := NodeEvaluation(base, moduleSkips, config, env, checks);
    assert f(root) == Run([], Some(NoTerminalAttribute));
  }

  /** So the shipped package, as written, reports nothing on such a file. */
  lemma AsWrittenFailsAtFirstNode(config: Config, root: Node, env: Env, registryCodes: set<string>)
    requires !(config.select.Some? && config.ignore.Some?)
    requires root.kind == ModuleKind && "all" !in ModuleSuppressions(env.file) && !SkipNode(root, config)
    ensures CheckSourceAsWritten(config, Ok(root), env, registryCodes, FunctionAttributes)
            == Run([], Some(NoTerminalAttribute))
  {
    assert CheckAttribute(EmptyDocstringCheck) in FunctionAttributes;
    AsWrittenFails(config, root, env, registryCodes, FunctionAttributes);
  }

  // --------------------------------------------------------------- methods

  lemma EmitStep(node: Node, vs: seq<Violation>, i: nat, checked: set<string>, config: Config)
    requires i < |vs|
    ensures EmittedItems(node, vs[..i + 1], checked, config)
            == EmittedItems(node, vs[..i], checked, config)
               + (if Emits(vs[i], checked, config) then [Reported(node, vs[i])] else [])
  {
    assert vs[..i + 1] == vs[..i] + [vs[i]];
    EmittedConcat(node, vs[..i], [vs[i]], checked, config);
  }

  lemma EmitFirstAt(node: Node, vs: seq<Violation>, i: nat, checked: set<string>, config: Config)
    requires i < |vs| && Emits(vs[i], checked, config)
    requires EmittedItems(node, vs[..i], checked, config) == []
    ensures |EmittedItems(node, vs, checked, config)| > 0
    ensures EmittedItems(node, vs, checked, config)[0] == Reported(node, vs[i])
  {
    EmitStep(node, vs, i, checked, config);
    assert vs == vs[..i + 1] + vs[i + 1..];
    EmittedConcat(node, vs[..i + 1], vs[i + 1..], checked, config);
  }

  /** The `for error in errors` loop with its `break`. */
  method EmitErrors(node: Node, vs: seq<Violation>, fault: Option<string>, checked: set<string>, config: Config,
                    terminal: bool) returns (o: Outcome)
    ensures o == Emit(node, vs, fault, checked, config, terminal)
  {
    var items: seq<Item> := [];
    for i := 0 to |vs|
      invariant items == EmittedItems(node, vs[..i], checked, config)
      invariant terminal ==> items == []
    {
      EmitStep(node, vs, i, checked, config);
      if Emits(vs[i], checked, config) {
        if terminal {
          EmitFirstAt(node, vs, i, checked, config);
          return Outcome(Run([Reported(node, vs[i])], None), true);
        }
        items := items + [Reported(node, vs[i])];
      }
    }
    assert vs[..|vs|] == vs;
    return Outcome(Run(items, fault), false);
  }

  /** The loop over the checks of one node, with the `terminate` flag. */
  method RunChecks(checks: seq<Check>, node: Node, doc: Option<Docstring>, checked: set<string>, config: Config,
                   env: Env) returns (r: Run)
    ensures r == CheckLoop(checks, node, doc, checked, config, env)
  {
    var yielded: seq<Item> := [];
    var i := 0;
    var terminate := false;
    while i < |checks| && !terminate
      invariant 0 <= i <= |checks|
      invariant !terminate ==> Then(Run(yielded, None), CheckLoop(checks[i..], node, doc, checked, config, env))
                               == CheckLoop(checks, node, doc, checked, config, env)
      invariant terminate ==> Run(yielded, None) == CheckLoop(checks, node, doc, checked, config, env)
    {
      var c := checks[i];
      assert checks[i..][0] == c && checks[i..][1..] == checks[i + 1..];
      if Gate(c, node, doc) {
        var result := CallCheck(c, node, doc, config, env);
        var o: Outcome;
        if result.Failed? {
          o := Outcome(Run([], Some(result.reason)), false);
        } else if result.Single? {
          o := EmitErrors(node, if result.result.Some? then [result.result.value] else [], None, checked, config, c.terminal);
        } else {
          o := EmitErrors(node, result.items, result.fault, checked, config, c.terminal);
        }
        assert o == CheckOutcome(c, node, doc, checked, config, env);
        ThenAssociative(Run(yielded, None), o.run, CheckLoop(checks[i + 1..], node, doc, checked, config, env));
        if o.run.fault.Some? {
          return Run(yielded + o.run.items, o.run.fault);
        }
        yielded := yielded + o.run.items;
        terminate := o.stop;
      }
      i := i + 1;
    }
    if !terminate {
      assert yielded + [] == yielded;
    }
    return Run(yielded, None);
  }

  lemma PushStep(nodes: seq<Node>, children: seq<Node>, k: nat, r: seq<Node>)
    requires k < |children| && r == nodes + CheckedOnly(children[..k])
    ensures (if IsChecked(children[k]) then r + [children[k]] else r) == nodes + CheckedOnly(children[..k + 1])
  {
    assert children[..k + 1] == children[..k] + [children[k]];
    CheckedOnlyAppend(children[..k], children[k]);
  }

  /** The children of `node` that are modules, classes or functions, appended
      one by one. */
  method PushCheckedChildren(nodes: seq<Node>, node: Node) returns (r: seq<Node>)
    ensures r == nodes + ChildNodesToCheck(node)
  {
    var children := node.children;
    r := nodes;
    for k := 0 to |children|
      invariant r == nodes + CheckedOnly(children[..k])
    {
      PushStep(nodes, children, k, r);
      if IsChecked(children[k]) {
        r := r + [children[k]];
      }
    }
    assert children[..|children|] == children;
  }

  /** One pass of the worklist loop's body. */
  method EvaluateNode(node: Node, base: set<string>, moduleSkips: set<string>, config: Config, env: Env,
                      checks: Result<seq<Check>>) returns (r: Run)
    ensures r == NodeRun(node, base, moduleSkips, config, env, checks)
  {
    var nodeSkips := GetErrorCodesToSkip(node, env.file);
    if nodeSkips.Err? {
      return Run([], Some(nodeSkips.error));
    }
    var skips := moduleSkips + nodeSkips.value;
    if "all" in skips || SkipNode(node, config) {
      return Nothing;
    }
    if checks.Err? {
      return Run([], Some(checks.error));
    }
    var doc := GetDocstring(node, env.file);
    r := RunChecks(checks.value, node, doc, base - skips, config, env);
  }

  /** `check_source` with its worklist: pop the last node, append its checked
      children, evaluate the node. */
  method CheckFile(config: Config, parsed: Result<Node>, env: Env, registryCodes: set<string>,
                   checks: Result<seq<Check>>) returns (r: Run)
    ensures r == Checker(config, parsed, env, registryCodes, checks)
  {
    var baseCodes := BaseCodes(config, Ok(registryCodes), env.conventionCodes);
    if baseCodes.Err? {
      return Run([], Some(baseCodes.error));
    }
    if parsed.Err? {
      return Run([ParseError(parsed.error)], None);
    }
    var root := parsed.value;
    var moduleSkipped := GetErrorCodesToSkip(root, env.file);
    if moduleSkipped.Err? {
      return Run([], Some(moduleSkipped.error));
    }
    ghost var f := NodeEvaluation(baseCodes.value, moduleSkipped.value, config, env, checks);
    var nodes := [root];
    var yielded: seq<Item> := [];
    while |nodes| > 0
      invariant Then(Run(yielded, None), Walk(f, nodes)) == Walk(f, [root])
      decreases SizeAll(nodes)
    {
      PopShrinks(nodes);
      var node := nodes[|nodes| - 1];
      ghost var before := nodes;
      nodes := PushCheckedChildren(nodes[..|nodes| - 1], node);
      assert Walk(f, before) == Then(f(node), Walk(f, nodes));
      var step := EvaluateNode(node, baseCodes.value, moduleSkipped.value, config, env, checks);
      ThenAssociative(Run(yielded, None), step, Walk(f, nodes));
      if step.fault.Some? {
        return Run(yielded + step.items, step.fault);
      }
      yielded := yielded + step.items;
    }
    assert yielded + [] == yielded;
    return Run(yielded, None);
  }
}
