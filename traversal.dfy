/** What the two engines share: the stream they produce, the code set they
    start from, the decorator skip, and the worklist over the definition tree
    (`nodes.pop()` then push the checked children), with its reading as a
    depth-first traversal. */
module Traversal {
  import opened Basics
  import opened Tree
  import opened Suppressions

  // ------------------------------------------------------------ the stream

  /** One item of the stream: an error found on a node, or (in `checker.py`)
      the syntax error of a file that does not parse. */
  datatype Item = Reported(node: Node, violation: Violation) | ParseError(message: string)

  /** What a run gives: the items yielded, then the exception that ended it,
      if any. */
  datatype Run = Run(items: seq<Item>, fault: Option<string>)

  const Nothing: Run := Run([], None)

  /** Running one part after the other: an exception ends the run. */
  function Then(a: Run, b: Run): (r: Run)
    ensures a.fault.Some? ==> r == a
    ensures a.fault.None? ==> r.items == a.items + b.items && r.fault == b.fault
  {
    if a.fault.Some? then a else Run(a.items + b.items, b.fault)
  }

  lemma ThenAssociative(a: Run, b: Run, c: Run)
    ensures Then(Then(a, b), c) == Then(a, Then(b, c))
  {
    if a.fault.None? && b.fault.None? {
      assert (a.items + b.items) + c.items == a.items + (b.items + c.items);
    }
  }

  lemma ThenNothing(a: Run)
    ensures Then(Nothing, a) == a && Then(a, Nothing) == a
  {
    assert [] + a.items == a.items && a.items + [] == a.items;
  }

  /** Every item of a run has property `p`. */
  ghost predicate AllItems(r: Run, p: Item -> bool) {
    forall k :: 0 <= k < |r.items| ==> p(r.items[k])
  }

  lemma ThenItems(a: Run, b: Run, p: Item -> bool)
    requires AllItems(a, p) && AllItems(b, p)
    ensures AllItems(Then(a, b), p)
  {
    var r := Then(a, b);
    if a.fault.None? {
      forall k | 0 <= k < |r.items| ensures p(r.items[k]) {
        if k < |a.items| { assert r.items[k] == a.items[k]; }
        else { assert r.items[k] == b.items[k - |a.items|]; }
      }
    }
  }

  // ------------------------------------------------------------- code sets

  const IllegalConfigurationMessage: string :=
    "Cannot pass both select and ignore. They are mutually exclusive."

  /** The base code set: `select` and `ignore` together are an
      IllegalConfiguration; else `select`; else all known codes (whose lookup
      may fail) minus `ignore`; else the default convention's codes. */
  function BaseCodes(config: Config, allCodes: Result<set<string>>, conventionCodes: set<string>): (r: Result<set<string>>)
    ensures config.select.Some? && config.ignore.Some? ==> r == Err(IllegalConfigurationMessage)
    ensures config.select.Some? && config.ignore.None? ==> r == Ok(config.select.value)
    ensures config.select.None? && config.ignore.Some? ==>
              (r.Err? <==> allCodes.Err?) && (r.Err? ==> r == allCodes)
              && (r.Ok? ==> r.value == allCodes.value - config.ignore.value)
    ensures config.select.None? && config.ignore.None? ==> r == Ok(conventionCodes)
  {
    if config.select.Some? && config.ignore.Some? then Err(IllegalConfigurationMessage)
    else if config.select.Some? then Ok(config.select.value)
    else if config.ignore.Some? then
      match allCodes
      case Err(e) => Err(e)
      case Ok(all) => Ok(all - config.ignore.value)
    else Ok(conventionCodes)
  }

  /** `_skip_node`: one of the node's decorator names is matched by the
      `ignore_decorators` pattern. */
  predicate SkipNode(n: Node, config: Config) {
    config.ignoreDecorators.Some? && exists i :: 0 <= i < |n.decorators| && config.ignoreDecorators.value(n.decorators[i])
  }

  /** A report that honours the configuration and the suppressions: on a
      checked node that no ignored decorator skips, whose combined module and
      node suppressions hold no "all", with a code in the base set and in
      neither suppression set. */
  predicate Respects(item: Item, base: set<string>, moduleSkips: set<string>, config: Config, file: seq<string>) {
    item.Reported? && IsChecked(item.node) && !SkipNode(item.node, config)
    && CodesToSkip(item.node, file).Ok?
    && "all" !in moduleSkips && "all" !in CodesToSkip(item.node, file).value
    && item.violation.code in base
    && item.violation.code !in moduleSkips
    && item.violation.code !in CodesToSkip(item.node, file).value
  }

  function RespectsAll(base: set<string>, moduleSkips: set<string>, config: Config, file: seq<string>): Item -> bool {
    item => Respects(item, base, moduleSkips, config, file)
  }

  // -------------------------------------------------------------- worklist

  /** Appending the checked children one by one, as `checker.py` does. */
  lemma {:induction false} CheckedOnlyAppend(xs: seq<Node>, x: Node)
    ensures CheckedOnly(xs + [x]) == CheckedOnly(xs) + (if IsChecked(x) then [x] else [])
  {
    if |xs| > 0 {
      assert (xs + [x])[1..] == xs[1..] + [x];
      CheckedOnlyAppend(xs[1..], x);
    } else {
      assert xs + [x] == [x];
    }
  }

  lemma {:induction false} SizeAllAppend(a: seq<Node>, b: seq<Node>)
    ensures SizeAll(a + b) == SizeAll(a) + SizeAll(b)
  {
    if |a| > 0 {
      assert (a + b)[1..] == a[1..] + b;
      SizeAllAppend(a[1..], b);
    } else {
      assert a + b == b;
    }
  }

  lemma {:induction false} SizeAllCheckedOnly(xs: seq<Node>)
    ensures SizeAll(CheckedOnly(xs)) <= SizeAll(xs)
  {
    if |xs| > 0 {
      SizeAllCheckedOnly(xs[1..]);
      var head := if IsChecked(xs[0]) then [xs[0]] else [];
      SizeAllAppend(head, CheckedOnly(xs[1..]));
    }
  }

  /** Popping the last node and pushing its checked children shrinks the
      total size of the worklist. */
  lemma PopShrinks(nodes: seq<Node>)
    requires |nodes| > 0
    ensures SizeAll(nodes[..|nodes| - 1] + ChildNodesToCheck(nodes[|nodes| - 1])) < SizeAll(nodes)
    ensures Size(nodes[|nodes| - 1]) <= SizeAll(nodes)
    ensures SizeAll(nodes[..|nodes| - 1]) < SizeAll(nodes)
  {
    var init, last := nodes[..|nodes| - 1], nodes[|nodes| - 1];
    assert nodes == init + [last];
    SizeAllAppend(init, [last]);
    SizeAllAppend(init, ChildNodesToCheck(last));
    SizeAllCheckedOnly(last.children);
  }

  /** The worklist loop with `f` as the evaluation of one node: pop the last
      node, push its checked children, evaluate the node, continue. */
  function Walk(f: Node -> Run, nodes: seq<Node>): Run
    decreases SizeAll(nodes)
  {
    if |nodes| == 0 then Nothing
    else
      PopShrinks(nodes);
      var node := nodes[|nodes| - 1];
      Then(f(node), Walk(f, nodes[..|nodes| - 1] + ChildNodesToCheck(node)))
  }

  /** An independent reading: a node, then its checked children's subtrees from
      the last child to the first. */
  function Visit(f: Node -> Run, n: Node): Run
    decreases Size(n), 0
  {
    SizeAllCheckedOnly(n.children);
    Then(f(n), VisitLastFirst(f, ChildNodesToCheck(n)))
  }

  function VisitLastFirst(f: Node -> Run, ns: seq<Node>): Run
    decreases SizeAll(ns), 1
  {
    if |ns| == 0 then Nothing
    else
      PopShrinks(ns);
      Then(Visit(f, ns[|ns| - 1]), VisitLastFirst(f, ns[..|ns| - 1]))
  }

  /** One step of the worklist, stated on a split worklist. */
  lemma WalkStep(f: Node -> Run, below: seq<Node>, n: Node)
    ensures Walk(f, below + [n]) == Then(f(n), Walk(f, below + ChildNodesToCheck(n)))
  {
    var all := below + [n];
    assert all[..|all| - 1] == below && all[|all| - 1] == n;
  }

  lemma VisitStep(f: Node -> Run, ys: seq<Node>, n: Node)
    ensures VisitLastFirst(f, ys + [n]) == Then(Then(f(n), VisitLastFirst(f, ChildNodesToCheck(n))), VisitLastFirst(f, ys))
  {
    var all := ys + [n];
    assert all[..|all| - 1] == ys && all[|all| - 1] == n;
  }

  /** Nodes pushed on top of the worklist are visited, subtree by subtree,
      before anything below them. */
  lemma {:induction false} WalkPushed(f: Node -> Run, init: seq<Node>, xs: seq<Node>)
    ensures Walk(f, init + xs) == Then(VisitLastFirst(f, xs), Walk(f, init))
    decreases SizeAll(xs)
  {
    if |xs| == 0 {
      assert init + xs == init;
      ThenNothing(Walk(f, init));
    } else {
      var n, ys := xs[|xs| - 1], xs[..|xs| - 1];
      var ch := ChildNodesToCheck(n);
      assert xs == ys + [n];
      assert init + xs == (init + ys) + [n];
      PopShrinks(xs);
      SizeAllCheckedOnly(n.children);
      var a, b, c, w := f(n), VisitLastFirst(f, ch), VisitLastFirst(f, ys), Walk(f, init);
      WalkStep(f, init + ys, n);
      WalkPushed(f, init + ys, ch);
      WalkPushed(f, init, ys);
      assert Walk(f, init + xs) == Then(a, Then(b, Then(c, w)));
      VisitStep(f, ys, n);
      assert VisitLastFirst(f, xs) == Then(Then(a, b), c);
      ThenAssociative(b, c, w);
      ThenAssociative(a, Then(b, c), w);
      ThenAssociative(a, b, c);
    }
  }

  /** The worklist started from the module is a depth-first traversal of the
      checked nodes: each is evaluated once, before its subtree. */
  lemma WalkIsDepthFirst(f: Node -> Run, root: Node)
    ensures Walk(f, [root]) == Visit(f, root)
  {
    WalkPushed(f, [], [root]);
    assert [] + [root] == [root];
    assert Walk(f, []) == Nothing;
    ThenNothing(Visit(f, root));
    ThenNothing(VisitLastFirst(f, [root]));
    assert [root][..0] == [];
  }

  /** A property of every item of every checked node's evaluation holds of every
      item of the walk over checked nodes. */
  lemma {:induction false} WalkItems(f: Node -> Run, nodes: seq<Node>, p: Item -> bool)
    requires forall n :: IsChecked(n) ==> AllItems(f(n), p)
    requires forall k :: 0 <= k < |nodes| ==> IsChecked(nodes[k])
    ensures AllItems(Walk(f, nodes), p)
    decreases SizeAll(nodes)
  {
    if |nodes| > 0 {
      var node := nodes[|nodes| - 1];
      var rest := nodes[..|nodes| - 1] + ChildNodesToCheck(node);
      PopShrinks(nodes);
      forall k | 0 <= k < |rest| ensures IsChecked(rest[k]) {
        if k >= |nodes| - 1 {
          assert rest[k] in ChildNodesToCheck(node);
        }
      }
      WalkItems(f, rest, p);
      ThenItems(f(node), Walk(f, rest), p);
    }
  }
}
