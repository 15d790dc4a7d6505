/** Catalogue assembly: the convention ignore lists, the discovery of the
    `DocstringError` subclasses in the rule modules (`_get_checks.py`), and the
    ordering of the function-based checks (`checker._get_checks`). */
module Discovery {
  import opened Basics
  import opened PyStr
  import opened Tree
  import opened RuleMeta

  // ----------------------------------------------------------- conventions

  /** `convention_ignores`: the codes each convention switches off. */
  function ConventionIgnores(c: Convention): set<string> {
    match c
    case Pep257 => {"D203", "D212", "D213", "D214", "D215", "D404", "D405", "D406", "D407", "D408",
                    "D409", "D410", "D411", "D413", "D415", "D416", "D417", "D418"}
    case Numpy => {"D107", "D203", "D212", "D213", "D402", "D413", "D415", "D416", "D417"}
    case Google => {"D203", "D204", "D213", "D215", "D400", "D401", "D404", "D406", "D407", "D408",
                    "D409", "D413"}
  }

  /** D203 and D213 are off in every convention; D417 is off in PEP 257 and
      NumPy but checked under Google. */
  lemma SharedIgnores(c: Convention)
    ensures "D203" in ConventionIgnores(c) && "D213" in ConventionIgnores(c)
    ensures "D417" in ConventionIgnores(c) <==> c != Google
  {
  }

  // ------------------------------------------------------------- discovery

  /** A module attribute as `_get_checks_from_module` sees it: a subclass of
      `DocstringError`, `DocstringError` itself (imported by most rule modules),
      another class, or something that is not a class. */
  datatype Member = SubclassOf(errorClass: ErrorClass) | BaseClass | OtherClass | NotAClass

  /** A rule module: its name and its attributes in `dir()` order. */
  datatype CheckModule = CheckModule(name: string, members: seq<Member>)

  /** `_get_checks_from_module`: the subclasses among the attributes, in order. */
  function ChecksFromModule(members: seq<Member>): (r: seq<ErrorClass>)
    ensures |r| <= |members|
    ensures forall c :: c in r <==> SubclassOf(c) in members
  {
    if |members| == 0 then []
    else
      var rest := ChecksFromModule(members[1..]);
      assert forall m :: m in members <==> m == members[0] || m in members[1..];
      match members[0]
      case SubclassOf(c) => [c] + rest
      case _ => rest
  }

  /** The subclasses of the modules taken in order, as `get_checks` collects
      them before counting. */
  function Discovered(modules: seq<CheckModule>): (r: seq<ErrorClass>)
    ensures forall c :: c in r <==> exists i :: 0 <= i < |modules| && SubclassOf(c) in modules[i].members
  {
    if |modules| == 0 then []
    else
      var init := modules[..|modules| - 1];
      var r := Discovered(init) + ChecksFromModule(modules[|modules| - 1].members);
      assert forall i :: 0 <= i < |init| ==> init[i] == modules[i];
      r
  }

  /** The collecting loop of `get_checks`. */
  method DiscoverChecks(modules: seq<CheckModule>) returns (errors: seq<ErrorClass>)
    ensures errors == Discovered(modules)
  {
    errors := [];
    var i := 0;
    while i < |modules|
      invariant 0 <= i <= |modules|
      invariant errors == Discovered(modules[..i])
    {
      assert modules[..i + 1][..i] == modules[..i];
      errors := errors + ChecksFromModule(modules[i].members);
      i := i + 1;
    }
    assert modules[..|modules|] == modules;
  }

  // ------------------------------------------------------------ duplicates

  /** The error codes of a list of rule classes. */
  function Codes(errors: seq<ErrorClass>): (r: seq<string>)
    ensures |r| == |errors|
    ensures forall k :: 0 <= k < |errors| ==> r[k] == errors[k].name
  {
    if |errors| == 0 then [] else [errors[0].name] + Codes(errors[1..])
  }

  predicate Distinct(codes: seq<string>) {
    forall a, b :: 0 <= a < b < |codes| ==> codes[a] != codes[b]
  }

  /** The first position from `i` on whose code occurs again later: the first
      key with a count above one in the `Counter`, which keeps first-seen order. */
  function FirstRepeated(codes: seq<string>, i: nat): (r: Option<nat>)
    requires i <= |codes|
    ensures r.Some? ==> i <= r.value < |codes| && codes[r.value] in codes[r.value + 1..]
    ensures r.Some? ==> forall k :: i <= k < r.value ==> codes[k] !in codes[k + 1..]
    ensures r.None? ==> forall k :: i <= k < |codes| ==> codes[k] !in codes[k + 1..]
    decreases |codes| - i
  {
    if i == |codes| then None
    else if codes[i] in codes[i + 1..] then Some(i)
    else FirstRepeated(codes, i + 1)
  }

  /** No repeated position exactly when the codes are pairwise distinct. */
  lemma {:induction false} FirstRepeatedNone(codes: seq<string>)
    ensures FirstRepeated(codes, 0).None? <==> Distinct(codes)
  {
    if FirstRepeated(codes, 0).None? {
      forall a, b | 0 <= a < b < |codes| ensures codes[a] != codes[b] {
        assert codes[b] == codes[a + 1..][b - a - 1];
      }
    } else {
      var k := FirstRepeated(codes, 0).value;
      var j :| 0 <= j < |codes[k + 1..]| && codes[k + 1..][j] == codes[k];
      assert codes[k + 1 + j] == codes[k];
    }
  }

  /** The reported code is the first one, by first occurrence, that occurs twice. */
  lemma FirstRepeatedIsFirstSeen(codes: seq<string>)
    requires FirstRepeated(codes, 0).Some?
    ensures var k := FirstRepeated(codes, 0).value;
            codes[k] !in codes[..k] && forall j :: 0 <= j < k ==> codes[j] !in codes[j + 1..]
  {
    var k := FirstRepeated(codes, 0).value;
    forall j | 0 <= j < k ensures codes[j] != codes[k] {
      assert codes[k] == codes[j + 1..][k - j - 1];
    }
    assert forall j :: 0 <= j < k ==> codes[..k][j] == codes[j];
  }

  const DuplicatePrefix: string := "Found duplicate definitions for the following error codes: "

  // --------------------------------------------------------------- sorting

  /** The sort key `(not terminal, error_code)`: terminal classes first, then by
      code. */
  predicate KeyBefore(a: ErrorClass, b: ErrorClass) {
    (a.terminal && !b.terminal) || (a.terminal == b.terminal && Less(a.name, b.name))
  }

  lemma KeyBeforeTransitive(a: ErrorClass, b: ErrorClass, c: ErrorClass)
    requires KeyBefore(a, b) && KeyBefore(b, c)
    ensures KeyBefore(a, c)
  {
    if a.terminal == b.terminal && b.terminal == c.terminal {
      LessTransitive(a.name, b.name, c.name);
    }
  }

  lemma KeyBeforeAsymmetric(a: ErrorClass, b: ErrorClass)
    ensures !(KeyBefore(a, b) && KeyBefore(b, a))
  {
    LessAsymmetric(a.name, b.name);
  }

  predicate SortedByKey(xs: seq<ErrorClass>) {
    forall i, j :: 0 <= i < j < |xs| ==> !KeyBefore(xs[j], xs[i])
  }

  /** Inserting after every element that is not placed after `x`. */
  function Insert(x: ErrorClass, xs: seq<ErrorClass>): (r: seq<ErrorClass>)
    ensures |r| == |xs| + 1
    ensures multiset(r) == multiset(xs) + multiset{x}
  {
    if |xs| == 0 then [x]
    else if KeyBefore(x, xs[0]) then [x] + xs
    else
      assert xs == [xs[0]] + xs[1..];
      [xs[0]] + Insert(x, xs[1..])
  }

  lemma {:induction false} InsertSorted(x: ErrorClass, xs: seq<ErrorClass>)
    requires SortedByKey(xs)
    ensures SortedByKey(Insert(x, xs))
  {
    if |xs| > 0 {
      if KeyBefore(x, xs[0]) {
        InsertFront(x, xs);
      } else {
        InsertSorted(x, xs[1..]);
        assert forall k :: 0 <= k < |xs[1..]| ==> xs[1..][k] == xs[k + 1];
        InsertNotBefore(x, xs[1..], xs[0]);
        SortedCons(xs[0], Insert(x, xs[1..]));
        assert Insert(x, xs) == [xs[0]] + Insert(x, xs[1..]);
      }
    }
  }

  lemma NotBeforeChain(a: ErrorClass, b: ErrorClass, c: ErrorClass)
    requires KeyBefore(b, c) && !KeyBefore(a, c)
    ensures !KeyBefore(a, b)
  {
    if KeyBefore(a, b) {
      KeyBeforeTransitive(a, b, c);
    }
  }

  /** `x` placed in front of a sorted list it comes before keeps it sorted. */
  lemma InsertFront(x: ErrorClass, xs: seq<ErrorClass>)
    requires SortedByKey(xs) && |xs| > 0 && KeyBefore(x, xs[0])
    ensures SortedByKey([x] + xs)
  {
    var r := [x] + xs;
    KeyBeforeAsymmetric(x, xs[0]);
    forall j | 1 <= j < |r| ensures !KeyBefore(r[j], x) {
      assert r[j] == xs[j - 1];
      if j > 1 {
        NotBeforeChain(xs[j - 1], x, xs[0]);
      }
    }
    assert forall i, j :: 1 <= i < j < |r| ==> r[i] == xs[i - 1] && r[j] == xs[j - 1];
  }

  /** Nothing in `Insert(x, xs)` comes before `y` when neither `x` nor any
      element of `xs` does. */
  lemma {:induction false} InsertNotBefore(x: ErrorClass, xs: seq<ErrorClass>, y: ErrorClass)
    requires !KeyBefore(x, y)
    requires forall k :: 0 <= k < |xs| ==> !KeyBefore(xs[k], y)
    ensures forall k :: 0 <= k < |Insert(x, xs)| ==> !KeyBefore(Insert(x, xs)[k], y)
  {
    if |xs| > 0 && !KeyBefore(x, xs[0]) {
      InsertNotBefore(x, xs[1..], y);
      assert Insert(x, xs) == [xs[0]] + Insert(x, xs[1..]);
    }
  }

  /** A head that nothing in a sorted tail comes before keeps the list sorted. */
  lemma SortedCons(head: ErrorClass, tail: seq<ErrorClass>)
    requires SortedByKey(tail)
    requires forall k :: 0 <= k < |tail| ==> !KeyBefore(tail[k], head)
    ensures SortedByKey([head] + tail)
  {
    var r := [head] + tail;
    forall i, j | 0 <= i < j < |r| ensures !KeyBefore(r[j], r[i]) {
      assert r[j] == tail[j - 1];
      if i > 0 {
        assert r[i] == tail[i - 1];
      }
    }
  }

  /** `sorted(errors, key=...)`, a stable insertion of each element in turn. */
  function SortChecks(xs: seq<ErrorClass>): (r: seq<ErrorClass>)
    ensures |r| == |xs|
    ensures multiset(r) == multiset(xs)
  {
    if |xs| == 0 then []
    else
      assert xs == xs[..|xs| - 1] + [xs[|xs| - 1]];
      Insert(xs[|xs| - 1], SortChecks(xs[..|xs| - 1]))
  }

  lemma {:induction false} SortChecksSorted(xs: seq<ErrorClass>)
    ensures SortedByKey(SortChecks(xs))
  {
    if |xs| > 0 {
      SortChecksSorted(xs[..|xs| - 1]);
      InsertSorted(xs[|xs| - 1], SortChecks(xs[..|xs| - 1]));
    }
  }

  // ------------------------------------------------------------ get_checks

  /** `get_checks`: a RuntimeError naming the first duplicated code when a code
      is defined twice; otherwise the discovered classes, terminal ones first,
      each group by ascending code. */
  function GetChecks(modules: seq<CheckModule>): (r: Result<seq<ErrorClass>>)
    ensures r.Err? <==> !Distinct(Codes(Discovered(modules)))
    ensures r.Err? ==> exists k :: 0 <= k < |Discovered(modules)| && r.error == DuplicatePrefix + Discovered(modules)[k].name
                                   && Discovered(modules)[k].name in Codes(Discovered(modules))[k + 1..]
    ensures r.Ok? ==> SortedByKey(r.value) && multiset(r.value) == multiset(Discovered(modules))
  {
    var errors := Discovered(modules);
    var codes := Codes(errors);
    FirstRepeatedNone(codes);
    match FirstRepeated(codes, 0)
    case Some(k) => Err(DuplicatePrefix + codes[k])
    case None =>
      SortChecksSorted(errors);
      Ok(SortChecks(errors))
  }

  /** In the result of `get_checks` every terminal class comes before every
      non-terminal one, and classes of the same kind ascend by code. */
  lemma GetChecksOrder(modules: seq<CheckModule>, i: nat, j: nat)
    requires GetChecks(modules).Ok?
    requires i < j < |GetChecks(modules).value|
    ensures var cs := GetChecks(modules).value;
            (cs[j].terminal ==> cs[i].terminal)
            && (cs[i].terminal == cs[j].terminal ==> Less(cs[i].name, cs[j].name))
  {
    var cs := GetChecks(modules).value;
    assert !KeyBefore(cs[j], cs[i]);
    assert cs[i] in multiset(Discovered(modules)) && cs[j] in multiset(Discovered(modules));
    DistinctNames(Discovered(modules), cs, i, j);
    LessTotal(cs[i].name, cs[j].name);
  }

  /** Two positions of a permutation of classes with distinct codes carry
      distinct codes. */
  lemma DistinctNames(errors: seq<ErrorClass>, cs: seq<ErrorClass>, i: nat, j: nat)
    requires Distinct(Codes(errors)) && multiset(cs) == multiset(errors)
    requires i < j < |cs|
    ensures cs[i].name != cs[j].name
  {
    var codes := Codes(errors);
    assert cs[i] in multiset(errors) && cs[j] in multiset(errors);
    var a :| 0 <= a < |errors| && errors[a] == cs[i];
    var b :| 0 <= b < |errors| && errors[b] == cs[j];
    if a == b {
      assert multiset(cs)[cs[i]] >= 2 by {
        var rest := cs[..i] + cs[i + 1..];
        assert cs == cs[..i] + [cs[i]] + cs[i + 1..];
        assert cs[j] in rest by { assert rest[j - 1] == cs[j]; }
        assert multiset(cs) == multiset(rest) + multiset{cs[i]};
      }
      OnceInDistinct(errors, a);
    } else if a < b {
      assert codes[a] != codes[b];
    } else {
      assert codes[b] != codes[a];
    }
  }

  /** A class whose code is unique occurs once. */
  lemma {:induction false} OnceInDistinct(errors: seq<ErrorClass>, a: nat)
    requires Distinct(Codes(errors)) && a < |errors|
    ensures multiset(errors)[errors[a]] == 1
  {
    var codes := Codes(errors);
    var x := errors[a];
    assert errors == errors[..a] + [x] + errors[a + 1..];
    forall k | 0 <= k < |errors| && k != a ensures errors[k] != x {
      if k < a { assert codes[k] != codes[a]; } else { assert codes[a] != codes[k]; }
    }
    assert forall k :: 0 <= k < a ==> errors[..a][k] == errors[k];
    assert forall k :: a + 1 <= k < |errors| ==> errors[a + 1..][k - a - 1] == errors[k];
    assert x !in errors[..a] && x !in errors[a + 1..];
    assert multiset(errors) == multiset(errors[..a]) + multiset{x} + multiset(errors[a + 1..]);
  }

  /** The set of codes of a list of classes. */
  function CodeSet(cs: seq<ErrorClass>): (r: set<string>)
    ensures forall code :: code in r <==> exists k :: 0 <= k < |cs| && cs[k].name == code
  {
    set k | 0 <= k < |cs| :: cs[k].name
  }

  /** `get_error_codes(convention)`: the codes of every discovered class,
      less the convention's ignore list when one is given; the RuntimeError of
      `get_checks` passes through. */
  function GetErrorCodes(modules: seq<CheckModule>, convention: Option<Convention>): (r: Result<set<string>>)
    ensures r.Err? <==> GetChecks(modules).Err?
    ensures r.Ok? ==> forall code :: code in r.value <==>
              (exists k :: 0 <= k < |Discovered(modules)| && Discovered(modules)[k].name == code)
              && (convention.Some? ==> code !in ConventionIgnores(convention.value))
  {
    match GetChecks(modules)
    case Err(e) => Err(e)
    case Ok(checks) =>
      SameCodes(checks, Discovered(modules));
      var codes := CodeSet(Discovered(modules));
      if convention.Some? then Ok(codes - ConventionIgnores(convention.value)) else Ok(codes)
  }

  lemma SameCodes(a: seq<ErrorClass>, b: seq<ErrorClass>)
    requires multiset(a) == multiset(b)
    ensures CodeSet(a) == CodeSet(b)
  {
    forall code | code in CodeSet(a) ensures code in CodeSet(b) {
      var k :| 0 <= k < |a| && a[k].name == code;
      assert a[k] in multiset(b);
      var m :| 0 <= m < |b| && b[m] == a[k];
    }
    forall code | code in CodeSet(b) ensures code in CodeSet(a) {
      var k :| 0 <= k < |b| && b[k].name == code;
      assert b[k] in multiset(a);
      var m :| 0 <= m < |a| && a[m] == b[k];
    }
  }

  /** The codes of a convention are always among the codes without one. */
  lemma ConventionCodesWithinAll(modules: seq<CheckModule>, c: Convention)
    requires GetChecks(modules).Ok?
    ensures GetErrorCodes(modules, Some(c)).value <= GetErrorCodes(modules, None).value
  {
  }

  // ------------------------------------------------- function-based checks

  /** An attribute of the checks package: a `Check` or anything else. */
  datatype PackageAttribute = CheckAttribute(check: Check) | OtherAttribute

  /** The `Check` instances among the package attributes, in `dir()` order. */
  function PackageChecks(attributes: seq<PackageAttribute>): (r: seq<Check>)
    ensures |r| <= |attributes|
    ensures forall c :: c in r <==> CheckAttribute(c) in attributes
  {
    if |attributes| == 0 then []
    else
      var rest := PackageChecks(attributes[1..]);
      assert forall a :: a in attributes <==> a == attributes[0] || a in attributes[1..];
      match attributes[0]
      case CheckAttribute(c) => [c] + rest
      case OtherAttribute => rest
  }

  /** The checks of a list whose `terminal` flag is `terminal`, in order. */
  function Kept(cs: seq<Check>, terminal: bool): (r: seq<Check>)
    ensures |r| <= |cs|
  {
    if |cs| == 0 then []
    else (if cs[0].terminal == terminal then [cs[0]] else []) + Kept(cs[1..], terminal)
  }

  lemma {:induction false} KeptMembers(cs: seq<Check>, terminal: bool)
    ensures forall c :: c in Kept(cs, terminal) <==> c in cs && c.terminal == terminal
  {
    if |cs| > 0 {
      KeptMembers(cs[1..], terminal);
      assert forall c :: c in cs <==> c == cs[0] || c in cs[1..];
    }
  }

  lemma {:induction false} KeptSplits(cs: seq<Check>)
    ensures |Kept(cs, true)| + |Kept(cs, false)| == |cs|
    ensures multiset(Kept(cs, true)) + multiset(Kept(cs, false)) == multiset(cs)
  {
    if |cs| > 0 {
      KeptSplits(cs[1..]);
      assert cs == [cs[0]] + cs[1..];
    }
  }

  lemma {:induction false} KeptOfConcat(a: seq<Check>, b: seq<Check>, terminal: bool)
    ensures Kept(a + b, terminal) == Kept(a, terminal) + Kept(b, terminal)
  {
    if |a| == 0 {
      assert a + b == b;
    } else {
      KeptOfConcat(a[1..], b, terminal);
      assert a == [a[0]] + a[1..];
      assert a + b == [a[0]] + (a[1..] + b);
      KeptCons(a[0], a[1..], terminal);
      KeptCons(a[0], a[1..] + b, terminal);
      var head := if a[0].terminal == terminal then [a[0]] else [];
      assert head + (Kept(a[1..], terminal) + Kept(b, terminal))
          == (head + Kept(a[1..], terminal)) + Kept(b, terminal);
    }
  }

  lemma KeptCons(x: Check, t: seq<Check>, terminal: bool)
    ensures Kept([x] + t, terminal) == (if x.terminal == terminal then [x] else []) + Kept(t, terminal)
  {
    assert ([x] + t)[0] == x && ([x] + t)[1..] == t;
  }

  lemma {:induction false} KeptTwice(cs: seq<Check>, terminal: bool)
    ensures Kept(Kept(cs, terminal), terminal) == Kept(cs, terminal)
    ensures Kept(Kept(cs, terminal), !terminal) == []
  {
    if |cs| > 0 {
      KeptTwice(cs[1..], terminal);
      var head := if cs[0].terminal == terminal then [cs[0]] else [];
      KeptOfConcat(head, Kept(cs[1..], terminal), terminal);
      KeptOfConcat(head, Kept(cs[1..], terminal), !terminal);
    }
  }

  /** `checker._get_checks`: the package's checks, stably sorted by
      `not terminal`. The result is a permutation that puts every terminal check
      before every non-terminal one and keeps the package order within each
      kind. */
  function OrderChecks(attributes: seq<PackageAttribute>): (r: seq<Check>)
    ensures var cs := PackageChecks(attributes);
            |r| == |cs| && multiset(r) == multiset(cs)
            && (forall i, j :: 0 <= i < j < |r| && r[j].terminal ==> r[i].terminal)
            && Kept(r, true) == Kept(cs, true) && Kept(r, false) == Kept(cs, false)
  {
    var cs := PackageChecks(attributes);
    TerminalFirst(cs);
    Kept(cs, true) + Kept(cs, false)
  }

  lemma TerminalFirst(cs: seq<Check>)
    ensures var r := Kept(cs, true) + Kept(cs, false);
            |r| == |cs| && multiset(r) == multiset(cs)
            && (forall i, j :: 0 <= i < j < |r| && r[j].terminal ==> r[i].terminal)
            && Kept(r, true) == Kept(cs, true) && Kept(r, false) == Kept(cs, false)
  {
    var t, n := Kept(cs, true), Kept(cs, false);
    var r := t + n;
    assert |r| == |cs| && multiset(r) == multiset(cs) by {
      KeptSplits(cs);
    }
    assert forall i, j :: 0 <= i < j < |r| && r[j].terminal ==> r[i].terminal by {
      KeptMembers(cs, true);
      KeptMembers(cs, false);
      TerminalsBeforeOthers(t, n);
    }
    assert Kept(r, true) == t by {
      KeptOfConcat(t, n, true);
      KeptTwice(cs, true);
      KeptTwice(cs, false);
      assert t + [] == t;
    }
    assert Kept(r, false) == n by {
      KeptOfConcat(t, n, false);
      KeptTwice(cs, true);
      KeptTwice(cs, false);
      assert [] + n == n;
    }
  }

  lemma TerminalsBeforeOthers(t: seq<Check>, n: seq<Check>)
    requires forall c :: c in t ==> c.terminal
    requires forall c :: c in n ==> !c.terminal
    ensures forall i, j :: 0 <= i < j < |t + n| && (t + n)[j].terminal ==> (t + n)[i].terminal
  {
    var r := t + n;
    forall k | 0 <= k < |t| ensures r[k].terminal {
      assert r[k] == t[k] && t[k] in t;
    }
    forall k | |t| <= k < |r| ensures !r[k].terminal {
      assert r[k] == n[k - |t|] && n[k - |t|] in n;
    }
  }

  /** A package with exactly one terminal check runs that check first. */
  lemma SoleTerminalFirst(attributes: seq<PackageAttribute>, c: Check)
    requires CheckAttribute(c) in attributes && c.terminal
    requires forall d :: CheckAttribute(d) in attributes && d.terminal ==> d == c
    ensures |OrderChecks(attributes)| > 0 && OrderChecks(attributes)[0] == c
  {
    var cs := PackageChecks(attributes);
    var r := OrderChecks(attributes);
    assert c in multiset(cs);
    assert c in r;
    var j :| 0 <= j < |r| && r[j] == c;
    assert r[0].terminal;
    assert r[0] in multiset(cs);
  }
}
