/**
 * The registry-name rules of `pyhatchery.components.name_service`: the canonical
 * form of section "Normalized Names" of PEP 503 (`pep503_normalize`) and the
 * three-rule name check (`pep503_name_ok`).
 */
module NameService {
  import opened Common
  import Text

  /** `_MAX_LEN`. */
  const MaxLen: nat := 32

  /** The most underscores `pep503_name_ok` lets through. */
  const MaxUnderscores: nat := 2

  /** The character class `[-_.]` of the substitution pattern. */
  predicate IsSeparator(c: char) { c == '-' || c == '_' || c == '.' }

  /** What `_PEP503_VALID_RE` allows between its first and last character: `[a-z0-9._-]`, case-insensitively. */
  predicate IsNameChar(c: char) { Text.IsAlnum(c) || IsSeparator(c) }

  // ---------------------------------------------------------------------------
  // Normalisation
  // ---------------------------------------------------------------------------

  /**
   * `re.sub(r"[-_.]+", "-", s)`, scanning left to right; `inRun` says that the
   * character before `s` was a separator, so that a separator here continues a
   * run that has already been replaced.
   */
  function CollapseRuns(s: string, inRun: bool): string
    decreases |s|
  {
    if s == [] then []
    else if IsSeparator(s[0]) then
      (if inRun then CollapseRuns(s[1..], true) else "-" + CollapseRuns(s[1..], true))
    else [s[0]] + CollapseRuns(s[1..], false)
  }

  /** `pep503_normalize`: runs of `-`, `_`, `.` become one `-`, then everything is lower-cased. */
  function Normalize(name: string): (slug: string)
    ensures |slug| <= |name|
    ensures NormalForm(slug)
  {
    CollapseRunsFacts(name, false);
    Text.Lower(CollapseRuns(name, false))
  }

  /** A string `Normalize` leaves alone: no `_`, no `.`, no `--`, no ASCII upper-case letter. */
  predicate NormalForm(s: string) {
    && (forall i :: 0 <= i < |s| ==> s[i] != '_' && s[i] != '.' && !Text.IsUpper(s[i]))
    && (forall i :: 0 <= i < |s| - 1 ==> !(s[i] == '-' && s[i + 1] == '-'))
  }

  /** Scanning state after `s` has been consumed, starting in state `inRun`. */
  function RunStateAfter(s: string, inRun: bool): bool {
    if s == [] then inRun else IsSeparator(s[|s| - 1])
  }

  lemma {:induction false} CollapseRunsFacts(s: string, inRun: bool)
    ensures var r := CollapseRuns(s, inRun);
      && |r| <= |s|
      && (forall i :: 0 <= i < |r| ==> r[i] == '-' || (!IsSeparator(r[i]) && r[i] in s))
      && (forall i :: 0 <= i < |r| - 1 ==> !(r[i] == '-' && r[i + 1] == '-'))
      && (inRun && r != [] ==> r[0] != '-')
    decreases |s|
  {
    if s != [] {
      CollapseRunsFacts(s[1..], IsSeparator(s[0]));
      var t := CollapseRuns(s[1..], IsSeparator(s[0]));
      assert forall c :: c in t ==> c == '-' || c in s by {
        forall c | c in t ensures c == '-' || c in s {
          var i :| 0 <= i < |t| && t[i] == c;
          assert t[i] == '-' || t[i] in s[1..];
        }
      }
    }
  }

  /** Collapsing distributes over concatenation, the scanning state carried across. */
  lemma {:induction false} CollapseRunsAppend(a: string, b: string, inRun: bool)
    ensures CollapseRuns(a + b, inRun) == CollapseRuns(a, inRun) + CollapseRuns(b, RunStateAfter(a, inRun))
    decreases |a|
  {
    if a == [] {
      assert a + b == b;
    } else {
      var next := IsSeparator(a[0]);
      assert (a + b)[0] == a[0];
      assert (a + b)[1..] == a[1..] + b;
      CollapseRunsAppend(a[1..], b, next);
      var rest := CollapseRuns(b, RunStateAfter(a, inRun));
      assert RunStateAfter(a[1..], next) == RunStateAfter(a, inRun) by {
        if |a| > 1 { assert a[1..][|a| - 2] == a[|a| - 1]; }
      }
      if next && !inRun {
        assert "-" + (CollapseRuns(a[1..], true) + rest) == ("-" + CollapseRuns(a[1..], true)) + rest;
      } else if !next {
        assert [a[0]] + (CollapseRuns(a[1..], false) + rest) == ([a[0]] + CollapseRuns(a[1..], false)) + rest;
      }
    }
  }

  /** A string of separators only collapses to a single `-` unless the run was already open. */
  lemma {:induction false} CollapseRunsOfSeparators(r: string, inRun: bool)
    requires forall i :: 0 <= i < |r| ==> IsSeparator(r[i])
    ensures CollapseRuns(r, inRun) == if inRun || r == [] then [] else "-"
    decreases |r|
  {
    if r != [] {
      CollapseRunsOfSeparators(r[1..], true);
    }
  }

  /** A string without separators is copied unchanged. */
  lemma {:induction false} CollapseRunsNoSeparators(w: string, inRun: bool)
    requires forall i :: 0 <= i < |w| ==> !IsSeparator(w[i])
    ensures CollapseRuns(w, inRun) == w
    decreases |w|
  {
    if w != [] {
      CollapseRunsNoSeparators(w[1..], false);
    }
  }

  /**
   * A maximal run of separators becomes exactly one `-`: splitting the name at a
   * run `r` that nothing else of a separator touches splits the slug at one `-`.
   */
  lemma NormalizeMaximalRun(a: string, r: string, b: string)
    requires a == [] || !IsSeparator(a[|a| - 1])
    requires r != [] && forall i :: 0 <= i < |r| ==> IsSeparator(r[i])
    requires b == [] || !IsSeparator(b[0])
    ensures Normalize(a + r + b) == Normalize(a) + "-" + Normalize(b)
  {
    var ca, cb := CollapseRuns(a, false), CollapseRuns(b, false);
    CollapseRunsOfSeparators(r, false);
    CollapseRunsAppend(r, b, false);
    assert RunStateAfter(r, false);
    assert CollapseRuns(b, true) == cb;
    assert CollapseRuns(r + b, false) == "-" + cb;
    CollapseRunsAppend(a, r + b, false);
    assert CollapseRuns(r + b, RunStateAfter(a, false)) == "-" + cb;
    assert a + r + b == a + (r + b);
    assert CollapseRuns(a + r + b, false) == ca + ("-" + cb);
    Text.LowerAppend(ca, "-" + cb);
    Text.LowerAppend("-", cb);
    assert Text.Lower("-") == "-";
  }

  /** A stretch without separators is only lower-cased. */
  lemma NormalizeNoSeparators(w: string)
    requires forall i :: 0 <= i < |w| ==> !IsSeparator(w[i])
    ensures Normalize(w) == Text.Lower(w)
  {
    CollapseRunsNoSeparators(w, false);
  }

  /** Collapsing keeps the non-separator characters, in order. */
  function NonSeparators(s: string): (t: string)
    ensures forall i :: 0 <= i < |t| ==> !IsSeparator(t[i])
  {
    if s == [] then [] else (if IsSeparator(s[0]) then [] else [s[0]]) + NonSeparators(s[1..])
  }

  lemma {:induction false} NonSeparatorsCollapse(s: string, inRun: bool)
    ensures NonSeparators(CollapseRuns(s, inRun)) == NonSeparators(s)
    decreases |s|
  {
    if s != [] {
      NonSeparatorsCollapse(s[1..], IsSeparator(s[0]));
      if IsSeparator(s[0]) && !inRun {
        assert ("-" + CollapseRuns(s[1..], true))[1..] == CollapseRuns(s[1..], true);
      } else if !IsSeparator(s[0]) {
        assert ([s[0]] + CollapseRuns(s[1..], false))[1..] == CollapseRuns(s[1..], false);
      }
    }
  }

  lemma {:induction false} NonSeparatorsLower(s: string)
    ensures NonSeparators(Text.Lower(s)) == Text.Lower(NonSeparators(s))
    decreases |s|
  {
    if s != [] {
      NonSeparatorsLower(s[1..]);
      assert Text.Lower(s)[1..] == Text.Lower(s[1..]);
      Text.LowerAppend(if IsSeparator(s[0]) then [] else [s[0]], NonSeparators(s[1..]));
    }
  }

  /** Normalising keeps every non-separator character, lower-cased and in order. */
  lemma NormalizeKeepsNonSeparators(name: string)
    ensures NonSeparators(Normalize(name)) == Text.Lower(NonSeparators(name))
  {
    NonSeparatorsLower(CollapseRuns(name, false));
    NonSeparatorsCollapse(name, false);
  }

  lemma {:induction false} CollapseRunsOfNormalForm(s: string, inRun: bool)
    requires NormalForm(s)
    requires inRun && s != [] ==> s[0] != '-'
    ensures CollapseRuns(s, inRun) == s
    decreases |s|
  {
    if s != [] {
      assert NormalForm(s[1..]);
      CollapseRunsOfNormalForm(s[1..], s[0] == '-');
    }
  }

  /** The strings `Normalize` returns are exactly the strings it leaves alone. */
  lemma NormalizeFixpoints(s: string)
    ensures Normalize(s) == s <==> NormalForm(s)
  {
    if NormalForm(s) {
      CollapseRunsOfNormalForm(s, false);
      assert Text.Lower(s) == s;
    }
  }

  /** Normalising twice is normalising once. */
  lemma NormalizeIdempotent(name: string)
    ensures Normalize(Normalize(name)) == Normalize(name)
  {
    NormalizeFixpoints(Normalize(name));
  }

  // ---------------------------------------------------------------------------
  // The name check
  // ---------------------------------------------------------------------------

  /**
   * The whole string matches `[a-z0-9](?:[a-z0-9._-]*[a-z0-9])?` case-insensitively
   * over ASCII: alphanumeric at both ends, name characters in between.
   */
  predicate WholeShape(s: string) {
    && |s| >= 1
    && Text.IsAlnum(s[0])
    && Text.IsAlnum(s[|s| - 1])
    && forall i :: 0 < i < |s| - 1 ==> IsNameChar(s[i])
  }

  /**
   * What `_PEP503_VALID_RE.match(s)` accepts: the pattern ends in `$`, which
   * Python also matches just before a final newline.
   */
  predicate MatchesValidPattern(s: string) {
    || WholeShape(s)
    || (|s| >= 2 && s[|s| - 1] == '\n' && WholeShape(s[..|s| - 1]))
  }

  function ShapeMessage(projectName: string): string {
    "Error: Project name '" + projectName + "' violates PEP 503 conventions."
  }

  function TooLongMessage(projectName: string): string {
    "Error: Project name '" + projectName + "' is too long (max " + Text.DecimalText(MaxLen) + " chars)."
  }

  const UnderscoreMessage := "Error: Project name cannot contain too many underscores."

  /** `pep503_name_ok`, as written: shape, then length, then underscores; the first failure wins. */
  function NameOk(projectName: string): (r: ValidationResult)
    ensures r.isValid <==>
      MatchesValidPattern(projectName) && |projectName| <= MaxLen && Text.Count(projectName, '_') <= MaxUnderscores
    ensures r.isValid <==> r.diagnostic.None?
  {
    if !MatchesValidPattern(projectName) then Invalid(ShapeMessage(projectName))
    else if |projectName| > MaxLen then Invalid(TooLongMessage(projectName))
    else if Text.Count(projectName, '_') > MaxUnderscores then Invalid(UnderscoreMessage)
    else Valid
  }

  /** Rules are tried in order and the first one that fails decides the message. */
  lemma NameOkFirstFailureWins(projectName: string)
    ensures !MatchesValidPattern(projectName) ==> NameOk(projectName).diagnostic == Some(ShapeMessage(projectName))
    ensures MatchesValidPattern(projectName) && |projectName| > MaxLen ==>
      NameOk(projectName).diagnostic == Some(TooLongMessage(projectName))
    ensures MatchesValidPattern(projectName) && |projectName| <= MaxLen && Text.Count(projectName, '_') > MaxUnderscores ==>
      NameOk(projectName).diagnostic == Some(UnderscoreMessage)
  {
  }

  /** `pep503_name_ok` as evidently intended: the pattern must cover the whole string. */
  function NameOkWhole(projectName: string): (r: ValidationResult)
    ensures r.isValid <==>
      WholeShape(projectName) && |projectName| <= MaxLen && Text.Count(projectName, '_') <= MaxUnderscores
  {
    if !WholeShape(projectName) then Invalid(ShapeMessage(projectName))
    else if |projectName| > MaxLen then Invalid(TooLongMessage(projectName))
    else if Text.Count(projectName, '_') > MaxUnderscores then Invalid(UnderscoreMessage)
    else Valid
  }

  /** The two differ exactly on names that end in one newline after a well-shaped name. */
  lemma NameOkTrailingNewline()
    ensures NameOk("a\n") == Valid
    ensures !NameOkWhole("a\n").isValid
  {
    assert WholeShape("a");
    assert "a\n"[..1] == "a";
  }

  /** The corrected check never accepts more than the code as written, and never a newline. */
  lemma NameOkWholeIsStricter(projectName: string)
    ensures NameOkWhole(projectName).isValid ==> NameOk(projectName).isValid
    ensures NameOkWhole(projectName).isValid ==> '\n' !in projectName
  {
    if NameOkWhole(projectName).isValid {
      forall i | 0 <= i < |projectName| ensures projectName[i] != '\n' {
        assert i == 0 || i == |projectName| - 1 || IsNameChar(projectName[i]);
      }
    }
  }

  /** Boundary cases of the shape rule. */
  lemma ShapeExamples()
    ensures !NameOk("").isValid && !NameOk("-abc").isValid && !NameOk("abc-").isValid
    ensures NameOk("a").isValid
    ensures NameOk("My.Name").isValid
    ensures NameOk("_abc").diagnostic == Some(ShapeMessage("_abc"))
    ensures NameOk("1abc").isValid
  {
    assert WholeShape("My.Name");
    assert WholeShape("1abc");
  }

  /** The cap that the length message prints is `32`. */
  lemma MaxLenText()
    ensures Text.DecimalText(MaxLen) == "32"
  {
  }

  /** The length cap is inclusive: 32 characters pass, 33 fail with the length message. */
  lemma LengthBoundary(s: string)
    requires |s| == MaxLen
    requires forall i :: 0 <= i < |s| ==> s[i] == 'a'
    ensures NameOk(s).isValid
    ensures NameOk(s + "a").diagnostic == Some(TooLongMessage(s + "a"))
  {
    assert WholeShape(s);
    assert WholeShape(s + "a");
  }

  /** The underscore cap is inclusive: two pass, three fail with the underscore message. */
  lemma UnderscoreBoundary(two: string, three: string)
    requires two == "a_b_c" && three == "a_b_c_d"
    ensures NameOk(two).isValid
    ensures NameOk(three).diagnostic == Some(UnderscoreMessage)
  {
    assert WholeShape(two) && WholeShape(three);
    var x, y, z, w, u := "a", "b", "c", "d", "_";
    assert Text.Count(x, '_') == 0 && Text.Count(y, '_') == 0 && Text.Count(z, '_') == 0;
    assert Text.Count(w, '_') == 0 && Text.Count(u, '_') == 1;
    assert two == x + u + y + u + z;
    assert three == two + u + w;
    Text.CountAppend(x, u, '_');
    Text.CountAppend(x + u, y, '_');
    Text.CountAppend(x + u + y, u, '_');
    Text.CountAppend(x + u + y + u, z, '_');
    Text.CountAppend(two, u, '_');
    Text.CountAppend(two + u, w, '_');
  }

  /** A name ending in a non-separator keeps that character last. */
  lemma {:induction false} CollapseRunsLast(s: string, inRun: bool)
    requires s != [] && !IsSeparator(s[|s| - 1])
    ensures var r := CollapseRuns(s, inRun); r != [] && r[|r| - 1] == s[|s| - 1]
    decreases |s|
  {
    if |s| > 1 {
      CollapseRunsLast(s[1..], IsSeparator(s[0]));
    }
  }

  /** Normalising a well-shaped name keeps it well-shaped, within the caps and free of underscores. */
  lemma NormalizeKeepsNameOk(name: string)
    requires NameOkWhole(name).isValid
    ensures NameOkWhole(Normalize(name)).isValid
    ensures Text.Count(Normalize(name), '_') == 0
  {
    var c := CollapseRuns(name, false);
    CollapseRunsFacts(name, false);
    CollapseRunsLast(name, false);
    var slug := Normalize(name);
    assert Text.IsAlnum(slug[0]) && Text.IsAlnum(slug[|slug| - 1]);
    forall i | 0 < i < |slug| - 1 ensures IsNameChar(slug[i]) {
      if c[i] != '-' {
        var m :| 0 <= m < |name| && name[m] == c[i];
        assert IsNameChar(name[m]);
      }
    }
  }

  /** Examples of the canonical form (given as parameters so that the solver does not unfold the scan on literals). */
  lemma NormalizeExamples(camel: string, snake: string)
    requires camel == "TestProject" && snake == "My_Project"
    ensures Normalize(camel) == "testproject"
    ensures Normalize(snake) == "my-project"
  {
    assert Normalize(camel) == "testproject" by {
      NormalizeNoSeparators(camel);
      assert Text.Lower(camel) == "testproject";
    }
    var a, b := snake[..2], snake[3..];
    assert a == "My" && b == "Project";
    assert snake == a + "_" + b;
    assert Normalize(a) == "my" by {
      NormalizeNoSeparators(a);
      assert Text.Lower(a) == "my";
    }
    assert Normalize(b) == "project" by {
      NormalizeNoSeparators(b);
      assert Text.Lower(b) == "project";
    }
    NormalizeMaximalRun(a, "_", b);
  }
}
