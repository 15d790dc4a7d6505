/** The section rules of `checks/sections.py`: the underline checks, the checks
    common to both styles, the NumPy and Google specifics, and
    `check_docstring_sections`, which checks the Google sections only when no
    NumPy section was found. */
module SectionChecks {
  import opened Basics
  import opened PyStr
  import opened Utils
  import opened Tree
  import opened DocstringView
  import opened SectionContexts
  import opened SectionArgs

  /** A violation whose one parameter is the title-cased section name. */
  function Named(code: string, section: string): Violation {
    Violation(code, [Str(section)])
  }

  /** `''.join(set(s)) == '-'`: `s` is a non-empty run of dashes. */
  predicate IsDashes(s: string) {
    |s| > 0 && forall i :: 0 <= i < |s| ==> s[i] == '-'
  }

  /** `'-' * n` */
  function DashRun(n: nat): (r: string)
    ensures |r| == n && forall i :: 0 <= i < n ==> r[i] == '-'
  {
    if n == 0 then "" else ['-'] + DashRun(n - 1)
  }

  /** The codes the underline checks can give. */
  const UnderlineCodes: set<string> := {"D407", "D408", "D409", "D412", "D414", "D215"}

  predicate CodesWithin(vs: seq<Violation>, codes: set<string>) {
    forall v :: v in vs ==> v.code in codes
  }

  lemma CodesWithinConcat(a: seq<Violation>, b: seq<Violation>, codes: set<string>)
    ensures CodesWithin(a + b, codes) <==> CodesWithin(a, codes) && CodesWithin(b, codes)
  {
  }

  /** Some violation has code `code`. */
  predicate Reports(vs: seq<Violation>, code: string) {
    exists v :: v in vs && v.code == code
  }

  /** The number of violations with code `code`. */
  function CodeCount(vs: seq<Violation>, code: string): (n: nat)
    ensures n <= |vs|
    ensures n == 0 <==> forall k :: 0 <= k < |vs| ==> vs[k].code != code
  {
    if |vs| == 0 then 0 else CodeCount(vs[..|vs| - 1], code) + (if vs[|vs| - 1].code == code then 1 else 0)
  }

  lemma {:induction false} CodeCountAppend(a: seq<Violation>, b: seq<Violation>, code: string)
    ensures CodeCount(a + b, code) == CodeCount(a, code) + CodeCount(b, code)
    decreases |b|
  {
    if |b| == 0 {
      assert a + b == a;
    } else {
      assert (a + b)[..|a + b| - 1] == a + b[..|b| - 1];
      CodeCountAppend(a, b[..|b| - 1], code);
    }
  }

  /** `if condition: yield violation` */
  function Fire(condition: bool, v: Violation): seq<Violation> {
    if condition then [v] else []
  }

  // ------------------------------------------------------------- underline

  /** What follows a dash underline, `j` being the index after it. */
  function AfterUnderline(section: string, body: seq<string>, j: nat): (r: seq<Violation>)
    requires j <= |body|
    ensures CodesWithin(r, {"D412", "D414"})
  {
    if j < |body| then
      if IsBlank(body[j]) then
        (if !IsBlank(Join(body[j..], "")) then [Named("D412", section)] else [Named("D414", section)])
      else []
    else [Named("D414", section)]
  }

  /** The checks of a dash underline, given the outcome of each test: blank
      lines before it, a length other than the section name's, and an
      indentation greater than the docstring's. */
  function DashFires(section: string, length: nat, early: bool, misfit: bool, overIndented: bool): seq<Violation> {
    Fire(early, Named("D408", section))
    + Fire(misfit, Violation("D409", [Int(|section|), Str(section), Int(length)]))
    + Fire(overIndented, Named("D215", section))
  }

  /** The checks of a dash underline `line` that follows `n` blank lines. */
  function DashErrors(section: string, line: string, indent: string, n: nat): seq<Violation> {
    var dashes := Strip(line);
    DashFires(section, |dashes|, n > 0, dashes != DashRun(|section|), Less(indent, LeadingSpace(line)))
  }

  /** `_check_blanks_and_section_underline` once the blank lines that open the
      body have been counted (`n` of them). */
  function UnderlineErrorsAt(section: string, body: seq<string>, indent: string, n: nat): (r: seq<Violation>)
    requires n <= |body|
  {
    if n == |body| then [Named("D407", section), Named("D414", section)]
    else if !IsDashes(Strip(body[n])) then [Named("D407", section)] + (if n > 0 then [Named("D412", section)] else [])
    else DashErrors(section, body[n], indent, n) + AfterUnderline(section, body, n + 1)
  }

  /** A violation whose code `q` never gives is in `p + q` exactly when it is in `p`. */
  lemma InFirstPart(x: Violation, p: seq<Violation>, q: seq<Violation>, codes: set<string>)
    requires CodesWithin(q, codes) && x.code !in codes
    ensures x in p + q <==> x in p
  {
  }

  /** A violation whose code `p` never gives is not in `p`. */
  lemma NotWithin(x: Violation, p: seq<Violation>, codes: set<string>)
    requires CodesWithin(p, codes) && x.code !in codes
    ensures x !in p
  {
  }

  /** Each dash-underline check reports exactly under its condition, also
      when followed by the checks of what comes after the underline, and no
      D407 is among them. */
  lemma DashFiresReports(section: string, length: nat, early: bool, misfit: bool, overIndented: bool, q: seq<Violation>)
    requires CodesWithin(q, {"D412", "D414"})
    ensures var p := DashFires(section, length, early, misfit, overIndented);
            var r := p + q;
            CodesWithin(p, {"D408", "D409", "D215"})
            && (Named("D408", section) in r <==> early)
            && (Violation("D409", [Int(|section|), Str(section), Int(length)]) in r <==> misfit)
            && (Named("D215", section) in r <==> overIndented)
            && Named("D407", section) !in r
  {
    var p := DashFires(section, length, early, misfit, overIndented);
    var after: set<string> := {"D412", "D414"};
    InFirstPart(Named("D408", section), p, q, after);
    InFirstPart(Violation("D409", [Int(|section|), Str(section), Int(length)]), p, q, after);
    InFirstPart(Named("D215", section), p, q, after);
    InFirstPart(Named("D407", section), p, q, after);
  }

  /** The underline checks give only their own codes. */
  lemma UnderlineCodesOnly(section: string, body: seq<string>, indent: string, n: nat)
    requires n <= |body|
    ensures CodesWithin(UnderlineErrorsAt(section, body, indent, n), UnderlineCodes)
  {
    if n < |body| && IsDashes(Strip(body[n])) {
      var line := body[n];
      var dashes := Strip(line);
      var p := DashErrors(section, line, indent, n);
      var q := AfterUnderline(section, body, n + 1);
      DashFiresReports(section, |dashes|, n > 0, dashes != DashRun(|section|), Less(indent, LeadingSpace(line)), q);
      CodesWithinConcat(p, q, UnderlineCodes);
    }
  }

  function UnderlineErrors(section: string, body: seq<string>, indent: string): (r: seq<Violation>)
    ensures CodesWithin(r, UnderlineCodes)
  {
    UnderlineCodesOnly(section, body, indent, LeadingBlanks(body));
    UnderlineErrorsAt(section, body, indent, LeadingBlanks(body))
  }

  /** `_check_blanks_and_section_underline`: counts the blank lines that open the
      body, then checks the first other line as an underline. */
  method UnderlineCheck(section: string, body: seq<string>, indent: string) returns (errors: seq<Violation>)
    ensures errors == UnderlineErrors(section, body, indent)
  {
    var blanks := 0;
    while blanks < |body| && IsBlank(body[blanks])
      invariant blanks <= |body|
      invariant forall k :: 0 <= k < blanks ==> IsBlank(body[k])
    {
      blanks := blanks + 1;
    }
    LeadingBlanksUnique(body, blanks);
    errors := UnderlineErrorsAt(section, body, indent, blanks);
  }

  /** `n` blank lines open the body, followed by a non-blank line or the end. */
  predicate OpensWithBlanks(body: seq<string>, n: nat) {
    n <= |body| && (forall k :: 0 <= k < n ==> IsBlank(body[k])) && (n < |body| ==> !IsBlank(body[n]))
  }

  /** An empty or all-blank body gives exactly D407 then D414. */
  lemma BlankBodyNeedsUnderlineAndContent(section: string, body: seq<string>, indent: string)
    requires forall k :: 0 <= k < |body| ==> IsBlank(body[k])
    ensures UnderlineErrors(section, body, indent) == [Named("D407", section), Named("D414", section)]
  {
    LeadingBlanksUnique(body, |body|);
  }

  /** When the first non-blank line is not a run of dashes: D407, and D412 when
      blank lines come before it. */
  lemma MissingUnderline(section: string, body: seq<string>, indent: string, n: nat)
    requires OpensWithBlanks(body, n) && n < |body|
    requires !IsDashes(Strip(body[n]))
    ensures UnderlineErrors(section, body, indent) ==
              [Named("D407", section)] + (if n > 0 then [Named("D412", section)] else [])
  {
    LeadingBlanksUnique(body, n);
  }

  /** When the first non-blank line is a run of dashes: D408 exactly when blank
      lines come before it, D409 exactly when it is not as long as the section
      name, D215 exactly when its indentation compares greater than the
      docstring's, and never D407. */
  lemma DashUnderline(section: string, body: seq<string>, indent: string, n: nat)
    requires OpensWithBlanks(body, n) && n < |body|
    requires IsDashes(Strip(body[n]))
    ensures var r := UnderlineErrors(section, body, indent);
            var dashes := Strip(body[n]);
            (Named("D408", section) in r <==> n > 0)
            && (Violation("D409", [Int(|section|), Str(section), Int(|dashes|)]) in r <==> |dashes| != |section|)
            && (Named("D215", section) in r <==> Less(indent, LeadingSpace(body[n])))
            && Named("D407", section) !in r
  {
    LeadingBlanksUnique(body, n);
    var line := body[n];
    var dashes := Strip(line);
    DashRunIff(dashes, |section|);
    DashFiresReports(section, |dashes|, n > 0, dashes != DashRun(|section|), Less(indent, LeadingSpace(line)),
                     AfterUnderline(section, body, n + 1));
  }

  /** A run of dashes is `'-' * k` exactly when it has `k` dashes. */
  lemma DashRunIff(dashes: string, k: nat)
    requires IsDashes(dashes)
    ensures dashes == DashRun(k) <==> |dashes| == k
  {
    if |dashes| == k {
      assert forall i :: 0 <= i < k ==> dashes[i] == DashRun(k)[i];
    }
  }

  /** After a dash underline: D414 when the body ends there; nothing when the
      next line has text; after a blank line, D412 when some later line of the
      body has text and D414 when none has. */
  lemma AfterUnderlineCases(section: string, body: seq<string>, j: nat)
    requires j <= |body|
    ensures j == |body| ==> AfterUnderline(section, body, j) == [Named("D414", section)]
    ensures j < |body| && !IsBlank(body[j]) ==> AfterUnderline(section, body, j) == []
    ensures j < |body| && IsBlank(body[j]) ==>
              AfterUnderline(section, body, j) ==
                if exists k :: j < k < |body| && !IsBlank(body[k]) then [Named("D412", section)] else [Named("D414", section)]
  {
    var rest := body[j..];
    JoinAllSpace(rest);
    assert forall k :: j <= k < |body| ==> body[k] == rest[k - j];
  }

  // -------------------------------------------------------- common checks

  /** Four `if condition: yield violation` statements with distinct codes
      yield each violation exactly when its condition holds, and nothing else. */
  lemma FireFour(a: bool, w: Violation, b: bool, x: Violation, c: bool, y: Violation, d: bool, z: Violation)
    requires w.code != x.code && w.code != y.code && w.code != z.code
    requires x.code != y.code && x.code != z.code && y.code != z.code
    ensures var r := Fire(a, w) + Fire(b, x) + Fire(c, y) + Fire(d, z);
            (w in r <==> a) && (x in r <==> b) && (y in r <==> c) && (z in r <==> d)
            && forall v :: v in r ==> v == w || v == x || v == y || v == z
  {
  }

  /** The codes the checks common to both styles can give. */
  const CommonCodes: set<string> := UnderlineCodes + {"D405", "D214", "D410", "D411", "D413"}

  /** The header codes differ from each other and from the underline codes. */
  lemma HeaderCodesApart()
    ensures "D405" != "D214" && "D405" != "D410" && "D405" != "D413" && "D405" != "D411"
    ensures "D214" != "D410" && "D214" != "D413" && "D214" != "D411" && "D410" != "D411" && "D413" != "D411"
    ensures "D405" !in UnderlineCodes && "D214" !in UnderlineCodes && "D410" !in UnderlineCodes
    ensures "D411" !in UnderlineCodes && "D413" !in UnderlineCodes
  {
  }

  /** The checks of `_check_common_section` that precede the underline checks,
      given the outcome of each test. */
  function HeaderFires(section: string, name: string, misnamed: bool, overIndented: bool,
                       unblanked: bool, last: bool, crowded: bool): seq<Violation> {
    Fire(misnamed, Violation("D405", [Str(section), Str(name)]))
    + Fire(overIndented, Named("D214", section))
    + Fire(unblanked, Named(if last then "D413" else "D410", section))
    + Fire(crowded, Named("D411", section))
  }

  /** Each header check reports exactly under its condition, also when
      followed by the underline checks, and gives no other code. */
  lemma HeaderFiresReports(section: string, name: string, misnamed: bool, overIndented: bool,
                           unblanked: bool, last: bool, crowded: bool, q: seq<Violation>)
    requires CodesWithin(q, UnderlineCodes)
    ensures var p := HeaderFires(section, name, misnamed, overIndented, unblanked, last, crowded);
            var r := p + q;
            (Violation("D405", [Str(section), Str(name)]) in r <==> misnamed)
            && (Named("D214", section) in r <==> overIndented)
            && (Named("D413", section) in r <==> unblanked && last)
            && (Named("D410", section) in r <==> unblanked && !last)
            && (Named("D411", section) in r <==> crowded)
            && CodesWithin(p, {"D405", "D214", "D410", "D411", "D413"})
  {
    var p := HeaderFires(section, name, misnamed, overIndented, unblanked, last, crowded);
    HeaderFiresOwn(section, name, misnamed, overIndented, unblanked, last, crowded);
    HeaderCodesApart();
    InFirstPart(Violation("D405", [Str(section), Str(name)]), p, q, UnderlineCodes);
    InFirstPart(Named("D214", section), p, q, UnderlineCodes);
    InFirstPart(Named("D413", section), p, q, UnderlineCodes);
    InFirstPart(Named("D410", section), p, q, UnderlineCodes);
    InFirstPart(Named("D411", section), p, q, UnderlineCodes);
  }

  /** The header checks on their own: each reports exactly under its
      condition, and no other code. */
  lemma HeaderFiresOwn(section: string, name: string, misnamed: bool, overIndented: bool,
                       unblanked: bool, last: bool, crowded: bool)
    ensures var p := HeaderFires(section, name, misnamed, overIndented, unblanked, last, crowded);
            (Violation("D405", [Str(section), Str(name)]) in p <==> misnamed)
            && (Named("D214", section) in p <==> overIndented)
            && (Named("D413", section) in p <==> unblanked && last)
            && (Named("D410", section) in p <==> unblanked && !last)
            && (Named("D411", section) in p <==> crowded)
            && CodesWithin(p, {"D405", "D214", "D410", "D411", "D413"})
  {
    HeaderCodesApart();
    var d405 := Violation("D405", [Str(section), Str(name)]);
    if last {
      FireFour(misnamed, d405, overIndented, Named("D214", section), unblanked, Named("D413", section), crowded, Named("D411", section));
    } else {
      FireFour(misnamed, d405, overIndented, Named("D214", section), unblanked, Named("D410", section), crowded, Named("D411", section));
    }
  }

  /** The body does not end with a blank line. */
  predicate Unblanked(body: seq<string>) {
    |body| == 0 || !IsBlank(body[|body| - 1])
  }

  /** D405 for a name that is only correct once title-cased, D214 for an
      over-indented header, D413 (last section) or D410 (any other) for a body
      that does not end with a blank line, and D411 for a previous line that is
      not blank. */
  function HeaderErrors(c: SectionContext, names: seq<string>, indent: string): seq<Violation> {
    var section := Title(c.sectionName);
    HeaderFires(section, c.sectionName, c.sectionName !in names && section in names, Less(indent, LeadingSpace(c.line)),
                Unblanked(c.followingLines), c.isLastSection, !IsBlank(c.previousLine))
  }

  /** `_check_common_section` */
  function CommonErrors(c: SectionContext, names: seq<string>, indent: string): (r: seq<Violation>)
    ensures CodesWithin(r, CommonCodes)
  {
    var section := Title(c.sectionName);
    HeaderFiresReports(section, c.sectionName, c.sectionName !in names && section in names, Less(indent, LeadingSpace(c.line)),
                       Unblanked(c.followingLines), c.isLastSection, !IsBlank(c.previousLine),
                       UnderlineErrors(section, c.followingLines, indent));
    CodesWithinConcat(HeaderErrors(c, names, indent), UnderlineErrors(section, c.followingLines, indent), CommonCodes);
    HeaderErrors(c, names, indent) + UnderlineErrors(section, c.followingLines, indent)
  }

  /** Each common check reports exactly under its condition: D405 for a name
      that is only correct once title-cased, D214 for an over-indented header,
      D413 (last section) or D410 (any other) for a body that does not end with
      a blank line, and D411 for a previous line that is not blank. */
  lemma CommonReports(c: SectionContext, names: seq<string>, indent: string)
    ensures var r := CommonErrors(c, names, indent);
            var section := Title(c.sectionName);
            (Violation("D405", [Str(section), Str(c.sectionName)]) in r <==> c.sectionName !in names && section in names)
            && (Named("D214", section) in r <==> Less(indent, LeadingSpace(c.line)))
            && (Named("D413", section) in r <==> Unblanked(c.followingLines) && c.isLastSection)
            && (Named("D410", section) in r <==> Unblanked(c.followingLines) && !c.isLastSection)
            && (Named("D411", section) in r <==> !IsBlank(c.previousLine))
  {
    var section := Title(c.sectionName);
    HeaderFiresReports(section, c.sectionName, c.sectionName !in names && section in names, Less(indent, LeadingSpace(c.line)),
                       Unblanked(c.followingLines), c.isLastSection, !IsBlank(c.previousLine),
                       UnderlineErrors(section, c.followingLines, indent));
  }

  // ------------------------------------------------------- NumPy and Google

  const NumpyCodes: set<string> := CommonCodes + {"D406", "D417"}
  const GoogleCodes: set<string> := CommonCodes + {"D416", "D417"}

  /** The header line with every leading character of the (unstripped) section
      name removed: what `_check_numpy_section` and `_check_google_section`
      call the suffix. */
  function HeaderSuffix(c: SectionContext): string {
    LStripChars(Strip(c.line), c.sectionName)
  }

  /** The NumPy-only, Google-only and argument codes are not common codes. */
  lemma StyleCodesApart()
    ensures "D406" !in CommonCodes && "D416" !in CommonCodes && "D417" !in CommonCodes
    ensures "D417" !in {"D406"} && "D417" !in {"D416"} && "D406" != "D417" && "D416" != "D417"
    ensures "D416" !in NumpyCodes
  {
  }

  /** D406 (NumPy) for a header with more than the name, D416 (Google) for a
      header whose name is not followed by a lone colon. */
  function SuffixErrors(c: SectionContext, numpy: bool): (r: seq<Violation>)
    ensures numpy ==> CodesWithin(r, {"D406"}) && (r != [] <==> HeaderSuffix(c) != "")
    ensures !numpy ==> CodesWithin(r, {"D416"}) && (r != [] <==> HeaderSuffix(c) != ":")
  {
    var section := Title(c.sectionName);
    if numpy then Fire(HeaderSuffix(c) != "", Violation("D406", [Str(section), Str(Strip(c.line))]))
    else Fire(HeaderSuffix(c) != ":", Violation("D416", [Str(section + ":"), Str(Strip(c.line))]))
  }

  /** D417 for the arguments a Parameters (NumPy) or an Args or Arguments
      (Google) section leaves undocumented. */
  function ArgsErrors(n: Node, c: SectionContext, numpy: bool): (r: seq<Violation>)
    ensures |r| <= 1 && CodesWithin(r, {"D417"})
  {
    var section := Title(c.sectionName);
    if numpy then
      if section == "Parameters" then MissingArgs(n, NumpyDocumentedArgs(c.followingLines, c.line)) else []
    else
      if section == "Args" || section == "Arguments" then MissingArgs(n, GoogleDocumentedArgs(c.followingLines)) else []
  }

  /** `_check_numpy_section` */
  function NumpySectionErrors(n: Node, c: SectionContext, indent: string): (r: seq<Violation>)
    ensures CodesWithin(r, NumpyCodes)
  {
    var common := CommonErrors(c, NumpySectionNames, indent);
    CodesWithinConcat(common, SuffixErrors(c, true), NumpyCodes);
    CodesWithinConcat(common + SuffixErrors(c, true), ArgsErrors(n, c, true), NumpyCodes);
    common + SuffixErrors(c, true) + ArgsErrors(n, c, true)
  }

  /** `_check_google_section` */
  function GoogleSectionErrors(n: Node, c: SectionContext, indent: string): (r: seq<Violation>)
    ensures CodesWithin(r, GoogleCodes)
  {
    var common := CommonErrors(c, GoogleSectionNames, indent);
    CodesWithinConcat(common, SuffixErrors(c, false), GoogleCodes);
    CodesWithinConcat(common + SuffixErrors(c, false), ArgsErrors(n, c, false), GoogleCodes);
    common + SuffixErrors(c, false) + ArgsErrors(n, c, false)
  }

  function SectionErrors(n: Node, c: SectionContext, indent: string, numpy: bool): (r: seq<Violation>)
    ensures CodesWithin(r, if numpy then NumpyCodes else GoogleCodes)
  {
    if numpy then NumpySectionErrors(n, c, indent) else GoogleSectionErrors(n, c, indent)
  }

  /** In `common + s + m`, where neither `common` nor `m` has `code` and `s`
      has nothing else, a violation with `code` is there exactly when `s` is
      not empty. */
  lemma CodeFromMiddle(common: seq<Violation>, s: seq<Violation>, m: seq<Violation>, codes: set<string>, code: string)
    requires CodesWithin(common, codes) && CodesWithin(s, {code}) && CodesWithin(m, {"D417"})
    requires code !in codes && code != "D417"
    ensures Reports(common + s + m, code) <==> s != []
  {
    if s != [] {
      assert s[0] in common + s + m;
    }
  }

  /** A NumPy section reports D406 exactly when the header has more than the
      name; a Google section reports D416 exactly when what follows the name is
      not a lone colon. */
  lemma SuffixReports(n: Node, c: SectionContext, indent: string)
    ensures Reports(NumpySectionErrors(n, c, indent), "D406") <==> HeaderSuffix(c) != ""
    ensures Reports(GoogleSectionErrors(n, c, indent), "D416") <==> HeaderSuffix(c) != ":"
  {
    StyleCodesApart();
    CodeFromMiddle(CommonErrors(c, NumpySectionNames, indent), SuffixErrors(c, true), ArgsErrors(n, c, true), CommonCodes, "D406");
    CodeFromMiddle(CommonErrors(c, GoogleSectionNames, indent), SuffixErrors(c, false), ArgsErrors(n, c, false), CommonCodes, "D416");
  }

  /** A header line `Name:`, whose name does not hold a colon, leaves the
      suffix `:`. */
  lemma ColonSuffix(c: SectionContext)
    requires |c.sectionName| > 0 && !IsSpace(c.sectionName[0]) && ':' !in c.sectionName
    requires c.line == c.sectionName + ":"
    ensures HeaderSuffix(c) == ":"
  {
    var w := c.sectionName;
    assert c.line[0] == w[0] && c.line[|c.line| - 1] == ':';
    StripUnchanged(c.line);
    LStripCharsOwnChars(w, 0, ":");
    assert w[0..] == w;
  }

  /** A header written `Name:` gets D406 as a NumPy section and no D416 as a
      Google section. */
  lemma ColonHeader(n: Node, c: SectionContext, indent: string)
    requires |c.sectionName| > 0 && !IsSpace(c.sectionName[0]) && ':' !in c.sectionName
    requires c.line == c.sectionName + ":"
    ensures Reports(NumpySectionErrors(n, c, indent), "D406")
    ensures !Reports(GoogleSectionErrors(n, c, indent), "D416")
  {
    ColonSuffix(c);
    SuffixReports(n, c, indent);
  }

  /** Only the last part of `a + b + m` counts when neither `a` nor `b` has a
      violation with `code`. */
  lemma {:induction false} OnlyLastPartCounts(a: seq<Violation>, b: seq<Violation>, m: seq<Violation>,
                                              codesA: set<string>, codesB: set<string>, code: string)
    requires CodesWithin(a, codesA) && CodesWithin(b, codesB) && code !in codesA && code !in codesB
    ensures CodeCount(a + b + m, code) == CodeCount(m, code)
  {
    assert forall k :: 0 <= k < |a| ==> a[k] in a;
    assert forall k :: 0 <= k < |b| ==> b[k] in b;
    CodeCountAppend(a, b, code);
    CodeCountAppend(a + b, m, code);
  }

  /** D417 is reported at most once per section. */
  lemma AtMostOneD417(n: Node, c: SectionContext, indent: string, numpy: bool)
    ensures CodeCount(SectionErrors(n, c, indent, numpy), "D417") <= 1
  {
    var common := CommonErrors(c, if numpy then NumpySectionNames else GoogleSectionNames, indent);
    var suffix := SuffixErrors(c, numpy);
    var missing := ArgsErrors(n, c, numpy);
    assert SectionErrors(n, c, indent, numpy) == common + suffix + missing;
    StyleCodesApart();
    OnlyLastPartCounts(common, suffix, missing, CommonCodes, {if numpy then "D406" else "D416"}, "D417");
  }

  // ---------------------------------------------------------------- driver

  /** The errors of the sections `cs`, in order. */
  function AllSectionErrors(n: Node, cs: seq<SectionContext>, indent: string, numpy: bool): (r: seq<Violation>)
    ensures CodesWithin(r, if numpy then NumpyCodes else GoogleCodes)
    decreases |cs|
  {
    if |cs| == 0 then []
    else
      var before := AllSectionErrors(n, cs[..|cs| - 1], indent, numpy);
      var last := SectionErrors(n, cs[|cs| - 1], indent, numpy);
      CodesWithinConcat(before, last, if numpy then NumpyCodes else GoogleCodes);
      before + last
  }

  /** One more section adds its own errors at the end. */
  lemma AllSectionErrorsStep(n: Node, cs: seq<SectionContext>, m: nat, indent: string, numpy: bool)
    requires m < |cs|
    ensures AllSectionErrors(n, cs[..m + 1], indent, numpy) == AllSectionErrors(n, cs[..m], indent, numpy) + SectionErrors(n, cs[m], indent, numpy)
  {
    assert cs[..m + 1][..m] == cs[..m];
  }

  /** The errors of one style's sections; the docstring's `indent` is read
      before the first section's checks, so a failure there stops the generator
      before it yields anything. */
  function StyleErrors(n: Node, d: Docstring, cs: seq<SectionContext>, numpy: bool): (r: Yielded)
    ensures r.Many? && CodesWithin(r.items, if numpy then NumpyCodes else GoogleCodes)
  {
    if |cs| == 0 then Many([], None)
    else match Indent(d.raw)
      case Err(e) => Many([], Some(e))
      case Ok(indent) => Many(AllSectionErrors(n, cs, indent, numpy), None)
  }

  /** `check_docstring_sections` */
  function Sections(n: Node, d: Docstring): (r: Yielded)
    ensures r.Many?
  {
    var lines := Split(d.content, '\n');
    if |lines| < 2 then Many([], None)
    else
      var numpy := Contexts(lines, NumpySectionNames);
      if |numpy| > 0 then StyleErrors(n, d, numpy, true)
      else StyleErrors(n, d, Contexts(lines, GoogleSectionNames), false)
  }

  /** A content of one line has no sections to check. */
  lemma OneLineHasNoSections(n: Node, d: Docstring)
    requires '\n' !in d.content
    ensures Sections(n, d) == Many([], None)
  {
    SplitCount(d.content, '\n');
  }

  /** Violations whose codes all lie outside `code`'s set report no `code`. */
  lemma NotReported(vs: seq<Violation>, codes: set<string>, code: string)
    requires CodesWithin(vs, codes) && code !in codes
    ensures !Reports(vs, code)
  {
  }

  /** Once a NumPy section is found the Google checks do not run: every report
      comes from the NumPy checks, and none is D416. */
  lemma NumpyExcludesGoogle(n: Node, d: Docstring)
    requires |Split(d.content, '\n')| >= 2
    requires |Contexts(Split(d.content, '\n'), NumpySectionNames)| > 0
    ensures CodesWithin(Sections(n, d).items, NumpyCodes)
    ensures !Reports(Sections(n, d).items, "D416")
  {
    var lines := Split(d.content, '\n');
    assert Sections(n, d) == StyleErrors(n, d, Contexts(lines, NumpySectionNames), true);
    StyleCodesApart();
    NotReported(Sections(n, d).items, NumpyCodes, "D416");
  }

  /** `check_docstring_sections`: the NumPy sections, then, only if there were
      none, the Google sections. */
  method CheckDocstringSections(n: Node, d: Docstring) returns (r: Yielded)
    ensures r == Sections(n, d)
  {
    var lines := Split(d.content, '\n');
    if |lines| < 2 {
      return Many([], None);
    }
    var numpy := true;
    var contexts := Contexts(lines, NumpySectionNames);
    if |contexts| == 0 {
      numpy := false;
      contexts := Contexts(lines, GoogleSectionNames);
    }
    if |contexts| == 0 {
      return Many([], None);
    }
    var indent := Indent(d.raw);
    if indent.Err? {
      return Many([], Some(indent.error));
    }
    var errors := CheckSections(n, contexts, indent.value, numpy);
    r := Many(errors, None);
  }

  /** The loop of `check_docstring_sections` over the sections of one style. */
  method CheckSections(n: Node, contexts: seq<SectionContext>, indent: string, numpy: bool) returns (errors: seq<Violation>)
    ensures errors == AllSectionErrors(n, contexts, indent, numpy)
  {
    errors := [];
    var m := 0;
    while m < |contexts|
      invariant m <= |contexts|
      invariant errors == AllSectionErrors(n, contexts[..m], indent, numpy)
    {
      AllSectionErrorsStep(n, contexts, m, indent, numpy);
      errors := errors + SectionErrors(n, contexts[m], indent, numpy);
      m := m + 1;
    }
    assert contexts[..m] == contexts;
  }
}
