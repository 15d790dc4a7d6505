/** The docstring-content rules D4xx: the summary's ending (`checks/ending.py`),
    imperative mood (`checks/mood.py`), capitalisation (`checks/capitalized.py`),
    "This" as first word (`checks/starts_with_this.py`), a repeated signature
    (`checks/signature.py`) and documented overloads (`checks/overload.py`). */
module ContentRules {
  import opened Basics
  import opened PyStr
  import opened Utils
  import opened Tree
  import opened DocstringView

  // ------------------------------------------------------------ D400, D415

  /** The summary line: the first line of the stripped content. */
  function Summary(content: string): (r: string)
    ensures r == [] <==> AllSpace(content)
    ensures r <= Strip(content)
    ensures '\n' !in r
  {
    var s := Strip(content);
    SplitShape(s, '\n');
    Split(s, '\n')[0]
  }

  /** `summary_line.endswith(chars)` for one-character suffixes. */
  predicate EndsWithOneOf(s: string, chars: set<char>) {
    |s| > 0 && s[|s| - 1] in chars
  }

  /** `_check_ends_with`: the rule `code` reports the summary's last character
      when the summary ends with none of `chars`; a summary that is empty (a
      whitespace-only content) makes that indexing fail. */
  function CheckEndsWith(content: string, chars: set<char>, code: string): (r: Result<Option<Violation>>)
    ensures r.Err? <==> AllSpace(content)
    ensures r.Ok? ==> (r.value.Some? <==> !EndsWithOneOf(Summary(content), chars))
    ensures r.Ok? && r.value.Some? ==>
              r.value.value == Violation(code, [Str([Summary(content)[|Summary(content)| - 1]])])
  {
    var summary := Summary(content);
    if EndsWithOneOf(summary, chars) then Ok(None)
    else if |summary| == 0 then Err("string index out of range")
    else Ok(Some(Violation(code, [Str([summary[|summary| - 1]])])))
  }

  const PeriodOnly: set<char> := {'.'}
  const Punctuation: set<char> := {'.', '!', '?'}

  /** Whenever D415 fires, D400 fires too, with the same parameter. */
  lemma PunctuationImpliesPeriod(content: string)
    requires CheckEndsWith(content, Punctuation, "D415").Ok?
    requires CheckEndsWith(content, Punctuation, "D415").value.Some?
    ensures CheckEndsWith(content, PeriodOnly, "D400").Ok?
    ensures CheckEndsWith(content, PeriodOnly, "D400").value.Some?
    ensures CheckEndsWith(content, PeriodOnly, "D400").value.value.params
            == CheckEndsWith(content, Punctuation, "D415").value.value.params
  {
  }

  /** The class-based D400 or D415 (`check_implementation`). */
  function EndingImplementation(code: string, d: Docstring): (r: Raised)
    requires code == "D400" || code == "D415"
    ensures r.Crashed? <==> AllSpace(d.content)
    ensures r.Raised? <==> !AllSpace(d.content) && !EndsWithOneOf(Summary(d.content), if code == "D400" then PeriodOnly else Punctuation)
    ensures r.Raised? ==> r.violation.code == code
  {
    match CheckEndsWith(d.content, if code == "D400" then PeriodOnly else Punctuation, code)
    case Err(e) => Crashed(e)
    case Ok(None) => Passed
    case Ok(Some(v)) => Raised(v)
  }

  // ------------------------------------------------------------------ D401

  /** `_is_test` */
  predicate IsTest(name: string) {
    StartsWith(name, "test") || name == "runTest"
  }

  /** `_is_property`: some decorator is one of the configured property decorators. */
  predicate IsProperty(n: Node, config: Config) {
    exists k :: 0 <= k < |n.decorators| && n.decorators[k] in config.propertyDecorators
  }

  /** Python's `max(forms, key=common_prefix_length(word, ·))` over `forms[..n]`:
      the index of the first form sharing the longest prefix with `word`. */
  function BestForm(word: string, forms: seq<string>, n: nat): (i: nat)
    requires 0 < n <= |forms|
    ensures i < n
    ensures forall k :: 0 <= k < n ==> CommonPrefix(word, forms[k]) <= CommonPrefix(word, forms[i])
    ensures forall k :: 0 <= k < i ==> CommonPrefix(word, forms[k]) < CommonPrefix(word, forms[i])
  {
    if n == 1 then 0
    else
      var i := BestForm(word, forms, n - 1);
      if CommonPrefix(word, forms[n - 1]) > CommonPrefix(word, forms[i]) then n - 1 else i
  }

  /** The first word of the stripped content, with its non-alphanumeric
      characters removed. */
  function FirstWord(stripped: string): string
    requires !AllSpace(stripped)
  {
    StripNonAlphanumeric(FirstToken(stripped))
  }

  /** The correct forms the verb table lists for a word's stem, empty when none. */
  function CorrectForms(env: Env, word: string): seq<string> {
    var key := env.stem(word);
    if key in env.imperativeVerbs then env.imperativeVerbs[key] else []
  }

  /** `check_imperative_mood` (D401, and D401b, whose code is also D401). */
  function ImperativeMood(n: Node, content: string, env: Env, config: Config): (r: Option<Violation>)
    ensures IsTest(n.name) || IsProperty(n, config) || AllSpace(content) ==> r.None?
    ensures r.Some? ==> r.value.code == "D401"
    ensures !IsTest(n.name) && !IsProperty(n, config) && !AllSpace(content) ==>
              var word := FirstWord(Strip(content));
              var check := Lower(word);
              var forms := CorrectForms(env, check);
              (check in env.imperativeBlacklist ==> r == Some(Violation("D401", [Str(word)])))
              && (check !in env.imperativeBlacklist ==>
                    (r.Some? <==> |forms| > 0 && check !in forms)
                    && (r.Some? ==> exists i :: 0 <= i < |forms|
                                     && (forall k :: 0 <= k < |forms| ==> CommonPrefix(check, forms[k]) <= CommonPrefix(check, forms[i]))
                                     && (forall k :: 0 <= k < i ==> CommonPrefix(check, forms[k]) < CommonPrefix(check, forms[i]))
                                     && r.value.params == [Str(Capitalize(forms[i])), Str(word)]))
  {
    if IsTest(n.name) || IsProperty(n, config) then None
    else
      var stripped := Strip(content);
      if stripped == [] then None
      else
        var word := FirstWord(stripped);
        var check := Lower(word);
        var forms := CorrectForms(env, check);
        if check in env.imperativeBlacklist then Some(Violation("D401", [Str(word)]))
        else if |forms| == 0 || check in forms then None
        else
          var best := BestForm(check, forms, |forms|);
          Some(Violation("D401", [Str(Capitalize(forms[best])), Str(word)]))
  }

  // ------------------------------------------------------------------ D402

  /** `check_not_signature`: the function's name followed by `(` appears in the
      summary once spaces are removed. */
  function NotSignature(name: string, content: string): (r: Option<Violation>)
    ensures r.Some? <==> Contains(RemoveSpaces(Summary(content)), name + "(")
    ensures r.Some? ==> r.value == Violation("D402", [])
  {
    if Contains(RemoveSpaces(Summary(content)), name + "(") then Some(Violation("D402", [])) else None
  }

  // ------------------------------------------------------------------ D403

  predicate IsAsciiLetterOrApostrophe(c: char) { IsAsciiLetter(c) || c == '\'' }

  /** `check_capitalized`: the first word of the content is made of ASCII
      letters and apostrophes, does not start with one, and is neither all upper
      case nor capitalised. A whitespace-only content makes `split()[0]` fail. */
  function Capitalized(content: string): (r: Result<Option<Violation>>)
    ensures r.Err? <==> AllSpace(content)
    ensures r.Ok? && r.value.Some? ==>
              var word := FirstToken(content);
              r.value.value == Violation("D403", [Str(Capitalize(word)), Str(word)])
              && word != Upper(word) && word != Capitalize(word)
              && word[0] != '\''
              && forall i :: 0 <= i < |word| ==> IsAsciiLetterOrApostrophe(word[i])
    ensures r.Ok? && r.value.None? ==>
              var word := FirstToken(content);
              word == Upper(word) || word == Capitalize(word) || word[0] == '\''
              || exists i :: 0 <= i < |word| && !IsAsciiLetterOrApostrophe(word[i])
  {
    if AllSpace(content) then Err("list index out of range")
    else
      var word := FirstToken(content);
      if word == Upper(word) || word == Capitalize(word) then Ok(None)
      else if StartsWith(word, "'") then Ok(None)
      else if exists i :: 0 <= i < |word| && !IsAsciiLetterOrApostrophe(word[i]) then Ok(None)
      else Ok(Some(Violation("D403", [Str(Capitalize(word)), Str(word)])))
  }

  // ------------------------------------------------------------------ D404

  /** `check_starts_with_this`: the first word, stripped of punctuation, is
      "this" in any letter case. */
  function StartsWithThis(content: string): (r: Option<Violation>)
    ensures AllSpace(content) ==> r.None?
    ensures !AllSpace(content) ==> (r.Some? <==> Lower(FirstWord(Strip(content))) == "this")
    ensures r.Some? ==> r.value == Violation("D404", [])
  {
    var stripped := Strip(content);
    if stripped == [] then None
    else if Lower(FirstWord(stripped)) != "this" then None
    else Some(Violation("D404", []))
  }

  /** A content that is one alphanumeric word reports D404 exactly when that
      word is "this" in some letter case. */
  lemma {:induction false} OneWordContent(w: string)
    requires |w| > 0 && forall i :: 0 <= i < |w| ==> IsAlnum(w[i])
    ensures StartsWithThis(w).Some? <==> Lower(w) == "this"
  {
    forall i | 0 <= i < |w| ensures !IsSpace(w[i]) {
      assert IsAlnum(w[i]);
    }
    WordIsItsOwnToken(w);
  }

  /** Trailing punctuation does not change that: a content made of an
      alphanumeric word and then characters that are neither alphanumeric nor
      whitespace reports D404 exactly when the word is "this". */
  lemma {:induction false} WordThenPunctuation(w: string, p: string)
    requires |w| > 0 && forall i :: 0 <= i < |w| ==> IsAlnum(w[i])
    requires forall i :: 0 <= i < |p| ==> !IsAlnum(p[i]) && !IsSpace(p[i])
    ensures StartsWithThis(w + p).Some? <==> Lower(w) == "this"
  {
    var s := w + p;
    forall i | 0 <= i < |s| ensures !IsSpace(s[i]) {
      if i < |w| {
        assert s[i] == w[i] && IsAlnum(w[i]);
      } else {
        assert s[i] == p[i - |w|];
      }
    }
    WordIsItsOwnToken(s);
    StripNonAlphanumericAppend(w, p);
    assert StripNonAlphanumeric(p) == "";
    assert StripNonAlphanumeric(w) == w;
    assert StripNonAlphanumeric(s) == w;
  }

  /** Punctuation after "This" does not hide it. */
  lemma ThisWithPeriodFires()
    ensures StartsWithThis("This.").Some?
  {
    var w := "This";
    assert IsAlnum(w[0]) && IsAlnum(w[1]) && IsAlnum(w[2]) && IsAlnum(w[3]);
    var p := ".";
    assert !IsAlnum(p[0]) && !IsSpace(p[0]);
    LowerThis(w);
    WordThenPunctuation(w, p);
    assert w + p == "This.";
  }

  /** "This", "THIS" and the like lower-case to "this". */
  lemma LowerThis(w: string)
    requires |w| == 4 && w[0] in "Tt" && w[1] in "Hh" && w[2] in "Ii" && w[3] in "Ss"
    ensures Lower(w) == "this"
  {
    var r := Lower(w);
    assert r[0] == 't' && r[1] == 'h' && r[2] == 'i' && r[3] == 's';
  }

  /** The comparison ignores letter case. */
  lemma UpperCaseThisFires()
    ensures StartsWithThis("THIS").Some?
  {
    var w := "THIS";
    assert IsAlnum(w[0]) && IsAlnum(w[1]) && IsAlnum(w[2]) && IsAlnum(w[3]);
    LowerThis(w);
    OneWordContent(w);
  }

  /** A longer word that merely begins with "this" is not reported. */
  lemma ThistleDoesNotFire()
    ensures StartsWithThis("Thistle").None?
  {
    var w := "Thistle";
    assert forall i :: 0 <= i < |w| ==> IsAlnum(w[i]);
    assert |Lower(w)| == 7;
    OneWordContent(w);
  }

  // ------------------------------------------------------------------ D418

  /** `check_overload`: a documented function carrying `@overload`. */
  function Overload(n: Node): (r: Option<Violation>)
    ensures r.Some? <==> "overload" in n.decorators
    ensures r.Some? ==> r.value == Violation("D418", [])
  {
    if "overload" in n.decorators then Some(Violation("D418", [])) else None
  }
}
