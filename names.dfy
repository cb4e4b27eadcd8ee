/** The older character-set check of `pyhatchery.names`. */
module Names {
  import opened Common
  import Text
  import NameService

  /** `c.isalnum() or c in ["-", "_"]`. */
  predicate IsAllowed(c: char) { Text.IsAlnum(c) || c == '-' || c == '_' }

  /** `all(<allowed> for c in s)`. */
  function AllAllowed(s: string): (ok: bool)
    ensures ok <==> forall i :: 0 <= i < |s| ==> IsAllowed(s[i])
  {
    s == [] || (IsAllowed(s[0]) && AllAllowed(s[1..]))
  }

  function InvalidCharactersMessage(projectName: string): string {
    "Error: Project name '" + projectName + "' contains invalid characters."
  }

  /** `validate_project_name`. */
  function ValidateProjectName(projectName: string): (r: ValidationResult)
    ensures r.isValid <==> forall i :: 0 <= i < |projectName| ==> IsAllowed(projectName[i])
    ensures r.isValid ==> r == Valid
    ensures !r.isValid ==> r == Invalid(InvalidCharactersMessage(projectName))
  {
    if !AllAllowed(projectName) then Invalid(InvalidCharactersMessage(projectName)) else Valid
  }

  /** `all` over no characters holds, so the empty name passes. */
  lemma EmptyNameAccepted()
    ensures ValidateProjectName("") == Valid
  {
  }

  /** One disallowed character anywhere rejects the whole name. */
  lemma OneBadCharacterRejects(prefix: string, c: char, suffix: string)
    requires !IsAllowed(c)
    ensures ValidateProjectName(prefix + [c] + suffix) == Invalid(InvalidCharactersMessage(prefix + [c] + suffix))
  {
    assert (prefix + [c] + suffix)[|prefix|] == c;
  }

  /** `.` and space are rejected here even though normalisation treats `.` as a separator. */
  lemma DotAndSpaceRejected()
    ensures !ValidateProjectName("my.project").isValid
    ensures !ValidateProjectName("my project").isValid
  {
    var dotted, spaced := "my.project", "my project";
    assert !IsAllowed(dotted[2]) && !IsAllowed(spaced[2]);
  }

  lemma HyphenUnderscoreDigitAccepted()
    ensures ValidateProjectName("my-project_2").isValid
  {
  }

  /** A name this check accepts still passes it after normalisation. */
  lemma NormalizeKeepsAllowed(projectName: string)
    requires ValidateProjectName(projectName).isValid
    ensures ValidateProjectName(NameService.Normalize(projectName)).isValid
  {
    var c := NameService.CollapseRuns(projectName, false);
    NameService.CollapseRunsFacts(projectName, false);
    var slug := NameService.Normalize(projectName);
    forall i | 0 <= i < |slug| ensures IsAllowed(slug[i]) {
      if c[i] != '-' {
        var m :| 0 <= m < |projectName| && projectName[m] == c[i];
        assert IsAllowed(projectName[m]);
      }
    }
  }
}
