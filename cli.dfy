/**
 * The name pipeline and detail merge of `pyhatchery.cli`. Printing is not
 * modelled; the collaborators whose code lies outside these modules (the
 * character gate, the package-name deriver and checker, the registry lookup,
 * the interactive wizard, the scaffolder) are passed in as functions.
 */
module Cli {
  import opened Common
  import Text
  import NameService
  import Config

  // ---------------------------------------------------------------------------
  // Collaborators
  // ---------------------------------------------------------------------------

  /** `check_pypi_availability(slug)`: `(is_taken, error_message)`. */
  datatype Availability = Availability(isTaken: Option<bool>, errorMessage: Option<string>)

  /** `has_invalid_characters(name)`: `(has_invalid, error)`. */
  datatype CharacterCheck = CharacterCheck(hasInvalid: bool, error: Option<string>)

  /** What `create_base_structure` does: return the project root, or raise. */
  datatype ScaffoldOutcome =
    | Created(projectRoot: string)
    | DirectoryExists(message: string)   // FileExistsError
    | OsFailure(message: string)         // any other OSError

  datatype Collaborators = Collaborators(
    hasInvalidCharacters: string -> CharacterCheck,
    derivePythonPackageSlug: string -> string,
    isValidPythonPackageName: string -> ValidationResult,
    checkPypiAvailability: string -> Availability)

  // ---------------------------------------------------------------------------
  // _perform_project_name_checks
  // ---------------------------------------------------------------------------

  /** Python's truthiness of an `str | None`. */
  predicate Truthy(s: Option<string>) { s.Some? && s.value != "" }

  /** Python's f-string rendering of an `str | None`. */
  function Render(s: Option<string>): string { s.GetOr("None") }

  function LookupFailedWarning(pypiSlug: string, error: string): string {
    "PyPI availability check for '" + pypiSlug + "' failed: " + error
  }

  function TakenWarning(pypiSlug: string): string {
    "The name '" + pypiSlug + "' might already be taken on PyPI. "
    + "You may want to choose a different name if you plan to publish "
    + "this package publicly."
  }

  function IdentifierWarning(pythonSlug: string, originalInputName: string, diagnostic: Option<string>): string {
    "Derived Python package name '" + pythonSlug + "' "
    + "(from input '" + originalInputName + "') is not PEP 8 compliant: "
    + Render(diagnostic)
  }

  /** The warning, if any, that one registry lookup contributes. */
  function AvailabilityWarnings(pypiSlug: string, lookup: Availability): seq<string> {
    if Truthy(lookup.errorMessage) then [LookupFailedWarning(pypiSlug, lookup.errorMessage.value)]
    else if lookup.isTaken == Some(true) then [TakenWarning(pypiSlug)]
    else []
  }

  /** The warning, if any, that the package-name check contributes. */
  function IdentifierWarnings(originalInputName: string, pythonSlug: string, check: ValidationResult): seq<string> {
    if check.isValid then [] else [IdentifierWarning(pythonSlug, originalInputName, check.diagnostic)]
  }

  /** The warning list of `_perform_project_name_checks`, for the given outcomes of its two calls. */
  function NameWarnings(originalInputName: string, pypiSlug: string, pythonSlug: string,
                        lookup: Availability, check: ValidationResult): seq<string>
  {
    AvailabilityWarnings(pypiSlug, lookup) + IdentifierWarnings(originalInputName, pythonSlug, check)
  }

  /** `_perform_project_name_checks`: the list grows by successive appends. */
  method PerformProjectNameChecks(originalInputName: string, pypiSlug: string, pythonSlug: string, c: Collaborators)
    returns (warnings: seq<string>)
    ensures warnings == NameWarnings(originalInputName, pypiSlug, pythonSlug,
                                     c.checkPypiAvailability(pypiSlug), c.isValidPythonPackageName(pythonSlug))
    ensures |warnings| <= 2
  {
    warnings := [];
    var lookup := c.checkPypiAvailability(pypiSlug);
    if Truthy(lookup.errorMessage) {
      warnings := warnings + [LookupFailedWarning(pypiSlug, lookup.errorMessage.value)];
    } else if lookup.isTaken == Some(true) {
      warnings := warnings + [TakenWarning(pypiSlug)];
    }
    var check := c.isValidPythonPackageName(pythonSlug);
    if !check.isValid {
      warnings := warnings + [IdentifierWarning(pythonSlug, originalInputName, check.diagnostic)];
    }
  }

  /** A failed lookup gives exactly its own warning, whatever the taken flag says. */
  lemma LookupFailureIgnoresTaken(pypiSlug: string, taken: Option<bool>, error: string)
    requires error != ""
    ensures AvailabilityWarnings(pypiSlug, Availability(taken, Some(error))) == [LookupFailedWarning(pypiSlug, error)]
  {
  }

  /** Without an error, only a confirmed "taken" warns; "not taken" and "unknown" add nothing. */
  lemma LookupWithoutError(pypiSlug: string, taken: Option<bool>, error: Option<string>)
    requires !Truthy(error)
    ensures AvailabilityWarnings(pypiSlug, Availability(taken, error)) ==
      if taken == Some(true) then [TakenWarning(pypiSlug)] else []
  {
  }

  /**
   * At most one availability warning, then at most one identifier warning, in
   * that order; the list is empty exactly when the lookup neither failed nor
   * found the name taken and the identifier passed.
   */
  lemma NameWarningsShape(original: string, pypiSlug: string, pythonSlug: string,
                          lookup: Availability, check: ValidationResult)
    ensures var w := NameWarnings(original, pypiSlug, pythonSlug, lookup, check);
      && |w| <= 2
      && (w == [] <==> !Truthy(lookup.errorMessage) && lookup.isTaken != Some(true) && check.isValid)
      && (!check.isValid ==> w[|w| - 1] == IdentifierWarning(pythonSlug, original, check.diagnostic))
      && (|w| == 2 ==> w[0] in AvailabilityWarnings(pypiSlug, lookup))
  {
  }

  // ---------------------------------------------------------------------------
  // _process_project_name
  // ---------------------------------------------------------------------------

  /** `ProjectNameDetails`. */
  datatype ProjectNameDetails = ProjectNameDetails(
    originalArg: string, pypiSlug: string, pythonSlug: string, nameWarnings: seq<string>)

  /** Why `_process_project_name` stops the command with exit code 1. */
  datatype NameError = EmptyName | InvalidCharacters(error: Option<string>)

  /** The message printed in red for a `NameError`. */
  function NameErrorMessage(e: NameError): string {
    match e
    case EmptyName => "Error: Project name cannot be empty."
    case InvalidCharacters(error) => "Error: " + Render(error)
  }

  /**
   * `_process_project_name`: the empty-name and character gates, then the slug,
   * the package name and the warning list. The `pep503_name_ok` verdict and the
   * "normalized to" notice are only printed, so they are not part of the result.
   */
  function ProcessProjectName(projectNameArg: string, c: Collaborators): (r: Result<ProjectNameDetails, NameError>)
    ensures projectNameArg == "" ==> r == Failure(EmptyName)
    ensures r.Failure? <==> projectNameArg == "" || c.hasInvalidCharacters(projectNameArg).hasInvalid
    ensures projectNameArg != "" && c.hasInvalidCharacters(projectNameArg).hasInvalid ==>
      r == Failure(InvalidCharacters(c.hasInvalidCharacters(projectNameArg).error))
    ensures r.Success? ==>
      var slug := NameService.Normalize(projectNameArg);
      && r.value.originalArg == projectNameArg
      && r.value.pypiSlug == slug
      && r.value.pythonSlug == c.derivePythonPackageSlug(slug)
      && r.value.nameWarnings == NameWarnings(projectNameArg, slug, r.value.pythonSlug,
                                              c.checkPypiAvailability(slug),
                                              c.isValidPythonPackageName(r.value.pythonSlug))
  {
    if projectNameArg == "" then Failure(EmptyName)
    else
      var gate := c.hasInvalidCharacters(projectNameArg);
      if gate.hasInvalid then Failure(InvalidCharacters(gate.error))
      else
        var pypiSlug := NameService.Normalize(projectNameArg);
        var pythonSlug := c.derivePythonPackageSlug(pypiSlug);
        Success(ProjectNameDetails(projectNameArg, pypiSlug, pythonSlug,
          NameWarnings(projectNameArg, pypiSlug, pythonSlug,
                       c.checkPypiAvailability(pypiSlug), c.isValidPythonPackageName(pythonSlug))))
  }

  /**
   * What `ProcessProjectName` yields is what the rest of the command relies on:
   * a slug in canonical form that normalising again does not change, and at
   * most two warnings.
   */
  lemma ProcessedNameIsCanonical(projectNameArg: string, c: Collaborators)
    requires ProcessProjectName(projectNameArg, c).Success?
    ensures var d := ProcessProjectName(projectNameArg, c).value;
      && NameService.NormalForm(d.pypiSlug)
      && NameService.Normalize(d.pypiSlug) == d.pypiSlug
      && |d.pypiSlug| <= |projectNameArg|
      && |d.nameWarnings| <= 2
  {
    var d := ProcessProjectName(projectNameArg, c).value;
    NameService.NormalizeIdempotent(projectNameArg);
    NameWarningsShape(projectNameArg, d.pypiSlug, d.pythonSlug,
                      c.checkPypiAvailability(d.pypiSlug), c.isValidPythonPackageName(d.pythonSlug));
  }

  /** `TestProject` with a free name and a passing package name: slug `testproject`, no warnings. */
  lemma TestProjectScenario(name: string, c: Collaborators)
    requires name == "TestProject"
    requires !c.hasInvalidCharacters(name).hasInvalid
    requires !Truthy(c.checkPypiAvailability("testproject").errorMessage)
    requires c.checkPypiAvailability("testproject").isTaken != Some(true)
    requires c.isValidPythonPackageName(c.derivePythonPackageSlug("testproject")).isValid
    ensures ProcessProjectName(name, c) ==
      Success(ProjectNameDetails(name, "testproject", c.derivePythonPackageSlug("testproject"), []))
  {
    NameService.NormalizeExamples(name, "My_Project");
    var slug := NameService.Normalize(name);
    assert slug == "testproject";
    assert NameWarnings(name, slug, c.derivePythonPackageSlug(slug),
                        c.checkPypiAvailability(slug), c.isValidPythonPackageName(c.derivePythonPackageSlug(slug))) == [];
  }

  /** `My_Project`, found taken, with a failing package name: the taken warning comes first. */
  lemma MyProjectScenario(name: string, c: Collaborators)
    requires name == "My_Project"
    requires !c.hasInvalidCharacters(name).hasInvalid
    requires c.checkPypiAvailability("my-project") == Availability(Some(true), None)
    requires !c.isValidPythonPackageName(c.derivePythonPackageSlug("my-project")).isValid
    ensures var r := ProcessProjectName(name, c);
      && r.Success?
      && r.value.pypiSlug == "my-project"
      && r.value.nameWarnings == [
           TakenWarning("my-project"),
           IdentifierWarning(c.derivePythonPackageSlug("my-project"), name,
                             c.isValidPythonPackageName(c.derivePythonPackageSlug("my-project")).diagnostic)]
  {
    NameService.NormalizeExamples("TestProject", name);
  }

  // ---------------------------------------------------------------------------
  // _get_project_details_non_interactive
  // ---------------------------------------------------------------------------

  /** `NonInteractiveProjectDetailsArgs`. */
  datatype NonInteractiveArgs = NonInteractiveArgs(
    author: Option<string>, email: Option<string>, githubUsername: Option<string>,
    description: Option<string>, licenseChoice: Option<string>, pythonVersion: Option<string>,
    nameWarnings: seq<string>, projectName: string)

  /** One entry of `field_definitions`: `field: (cli_val, env_key, default_val)`. */
  datatype FieldDefinition = FieldDefinition(field: string, cliValue: Option<string>, envKey: string, default: Option<string>)

  /** `DEFAULT_LICENSE` and `DEFAULT_PYTHON_VERSION` of the interactive wizard. */
  const DefaultLicense := "MIT"
  const DefaultPythonVersion := "3.11"

  /** The fields without which non-interactive mode gives up, in reporting order. */
  const RequiredFields: seq<string> := ["author_name", "author_email"]

  /** The six keys of the merged details. */
  const DetailFields: set<string> :=
    {"author_name", "author_email", "github_username", "project_description", "license", "python_version_preference"}

  function FieldDefinitions(args: NonInteractiveArgs): seq<FieldDefinition> {
    [ FieldDefinition("author_name", args.author, "AUTHOR_NAME", None),
      FieldDefinition("author_email", args.email, "AUTHOR_EMAIL", None),
      FieldDefinition("github_username", args.githubUsername, "GITHUB_USERNAME", None),
      FieldDefinition("project_description", args.description, "PROJECT_DESCRIPTION", None),
      FieldDefinition("license", args.licenseChoice, "LICENSE", Some(DefaultLicense)),
      FieldDefinition("python_version_preference", args.pythonVersion, "PYTHON_VERSION", Some(DefaultPythonVersion)) ]
  }

  /** The value one field takes: flag, then environment, then default, then `""`. */
  function ResolveField(d: FieldDefinition, env: map<string, string>): string {
    if d.cliValue.Some? then d.cliValue.value
    else if d.envKey in env then env[d.envKey]
    else d.default.GetOr("")
  }

  /** The dictionary after the first `for` loop has handled `defs`, one assignment per entry. */
  function AssignFields(defs: seq<FieldDefinition>, env: map<string, string>): map<string, string>
    decreases |defs|
  {
    if defs == [] then map[]
    else AssignFields(defs[..|defs| - 1], env)[defs[|defs| - 1].field := ResolveField(defs[|defs| - 1], env)]
  }

  /** The fields, in the order given, that are absent or empty (`not details.get(field)`). */
  function MissingFields(details: map<string, string>, fields: seq<string>): seq<string>
    decreases |fields|
  {
    if fields == [] then []
    else
      var last := fields[|fields| - 1];
      MissingFields(details, fields[..|fields| - 1]) + (if last !in details || details[last] == "" then [last] else [])
  }

  /** The merged details of the non-interactive mode. */
  function MergedDetails(args: NonInteractiveArgs, env: map<string, string>): map<string, string> {
    AssignFields(FieldDefinitions(args), env)
  }

  /** What `_get_project_details_non_interactive` returns. */
  function NonInteractiveDetails(args: NonInteractiveArgs, env: map<string, string>): Option<map<string, string>> {
    var merged := MergedDetails(args, env);
    if MissingFields(merged, RequiredFields) == [] then Some(merged) else None
  }

  /** Assigning distinct fields in turn leaves exactly those keys, each with its own resolved value. */
  lemma {:induction false} AssignFieldsValues(defs: seq<FieldDefinition>, env: map<string, string>)
    requires forall i, j :: 0 <= i < j < |defs| ==> defs[i].field != defs[j].field
    ensures forall k :: k in AssignFields(defs, env) ==> exists i :: 0 <= i < |defs| && defs[i].field == k
    ensures forall i :: 0 <= i < |defs| ==>
      defs[i].field in AssignFields(defs, env) && AssignFields(defs, env)[defs[i].field] == ResolveField(defs[i], env)
    decreases |defs|
  {
    if defs != [] {
      var init := defs[..|defs| - 1];
      AssignFieldsValues(init, env);
      forall k | k in AssignFields(defs, env) ensures exists i :: 0 <= i < |defs| && defs[i].field == k {
        if k != defs[|defs| - 1].field {
          var i :| 0 <= i < |init| && init[i].field == k;
          assert defs[i].field == k;
        }
      }
    }
  }

  /** The six field names are distinct. */
  lemma FieldNamesDistinct(args: NonInteractiveArgs)
    ensures var defs := FieldDefinitions(args);
      forall i, j :: 0 <= i < j < |defs| ==> defs[i].field != defs[j].field
  {
  }

  /** The merged details have exactly the six keys. */
  lemma MergedDetailsKeys(args: NonInteractiveArgs, env: map<string, string>)
    ensures MergedDetails(args, env).Keys == DetailFields
  {
    var defs := FieldDefinitions(args);
    FieldNamesDistinct(args);
    AssignFieldsValues(defs, env);
    var merged := MergedDetails(args, env);
    forall k | k in merged ensures k in DetailFields {
      var i :| 0 <= i < |defs| && defs[i].field == k;
    }
    assert defs[0].field in merged && defs[1].field in merged && defs[2].field in merged;
    assert defs[3].field in merged && defs[4].field in merged && defs[5].field in merged;
  }

  /**
   * Each field takes the flag value when one is given (even `""`), else the
   * environment's, else its default, else `""`.
   */
  lemma MergedDetailsPrecedence(args: NonInteractiveArgs, env: map<string, string>)
    ensures forall d :: d in FieldDefinitions(args) ==>
      && d.field in MergedDetails(args, env)
      && MergedDetails(args, env)[d.field] ==
           match d.cliValue
           case Some(v) => v
           case None => if d.envKey in env then env[d.envKey] else d.default.GetOr("")
  {
    var defs := FieldDefinitions(args);
    FieldNamesDistinct(args);
    AssignFieldsValues(defs, env);
    forall d | d in defs ensures d.field in MergedDetails(args, env) && MergedDetails(args, env)[d.field] == ResolveField(d, env) {
      var i :| 0 <= i < |defs| && defs[i] == d;
    }
  }

  /** Both missing identity fields are reported together, `author_name` first. */
  lemma MissingRequiredFields(details: map<string, string>)
    ensures MissingFields(details, RequiredFields) ==
      (if "author_name" !in details || details["author_name"] == "" then ["author_name"] else [])
      + (if "author_email" !in details || details["author_email"] == "" then ["author_email"] else [])
  {
    assert RequiredFields[..1] == ["author_name"];
    assert RequiredFields[..1][..0] == [];
  }

  /** `_get_project_details_non_interactive`: fill `details`, then collect `missing_fields`. */
  method GetProjectDetailsNonInteractive(args: NonInteractiveArgs, env: map<string, string>)
    returns (details: Option<map<string, string>>, missingFields: seq<string>)
    ensures missingFields == MissingFields(MergedDetails(args, env), RequiredFields)
    ensures details == NonInteractiveDetails(args, env)
    ensures details.Some? <==> missingFields == []
  {
    var defs := FieldDefinitions(args);
    var merged: map<string, string> := map[];
    for i := 0 to |defs|
      invariant merged == AssignFields(defs[..i], env)
    {
      assert defs[..i + 1][..i] == defs[..i];
      merged := merged[defs[i].field := ResolveField(defs[i], env)];
    }
    assert defs[..|defs|] == defs;
    missingFields := [];
    for i := 0 to |RequiredFields|
      invariant missingFields == MissingFields(merged, RequiredFields[..i])
    {
      var field := RequiredFields[i];
      assert RequiredFields[..i + 1][..i] == RequiredFields[..i];
      if field !in merged || merged[field] == "" {
        missingFields := missingFields + [field];
      }
    }
    assert RequiredFields[..|RequiredFields|] == RequiredFields;
    details := if missingFields == [] then Some(merged) else None;
  }

  // ---------------------------------------------------------------------------
  // The `cli` group callback and the `new` command
  // ---------------------------------------------------------------------------

  /** `debug or env_debug`, where an unreadable `PYHATCHERY_DEBUG` counts as off. */
  function DebugEnabled(debugFlag: bool, environ: map<string, string>): (on: bool)
    ensures on <==>
      (debugFlag || ("PYHATCHERY_DEBUG" in environ && Text.Lower(environ["PYHATCHERY_DEBUG"]) in Config.TruthyStrings))
  {
    var raw := if "PYHATCHERY_DEBUG" in environ then environ["PYHATCHERY_DEBUG"] else "false";
    assert Text.Lower("false") == "false";
    var envDebug := match Config.StrToBool(Some(raw)) case Success(b) => b case Failure(_) => false;
    debugFlag || envDebug
  }

  /** `NewCommandOptions`. */
  datatype NewCommandOptions = NewCommandOptions(
    noInteractive: bool, author: Option<string>, email: Option<string>, githubUsername: Option<string>,
    description: Option<string>, licenseChoice: Option<string>, pythonVersion: Option<string>)

  /** The four keys `new` writes into the details after collecting them. */
  const StampedKeys: set<string> := {"project_name_original", "project_name_normalized", "pypi_slug", "python_package_slug"}

  function NonInteractiveArgsOf(options: NewCommandOptions, names: ProjectNameDetails): NonInteractiveArgs {
    NonInteractiveArgs(options.author, options.email, options.githubUsername, options.description,
                       options.licenseChoice, options.pythonVersion, names.nameWarnings, names.pypiSlug)
  }

  /** The details `new` collects, from the flags and environment or from the wizard. */
  function CollectedDetails(options: NewCommandOptions, env: map<string, string>, names: ProjectNameDetails,
                            collectProjectDetails: (string, seq<string>) -> Option<map<string, string>>)
    : Option<map<string, string>>
  {
    if options.noInteractive then NonInteractiveDetails(NonInteractiveArgsOf(options, names), env)
    else collectProjectDetails(names.pypiSlug, names.nameWarnings)
  }

  /**
   * `new`: returns the exit code and, when details were collected, the
   * dictionary after the four name keys were written into it.
   */
  method New(projectNameArg: string, options: NewCommandOptions, env: map<string, string>, c: Collaborators,
             collectProjectDetails: (string, seq<string>) -> Option<map<string, string>>,
             createBaseStructure: (string, string) -> ScaffoldOutcome)
    returns (exitCode: int, projectDetails: Option<map<string, string>>)
    ensures exitCode == 0 || exitCode == 1
    ensures ProcessProjectName(projectNameArg, c).Failure? ==> exitCode == 1 && projectDetails == None
    ensures ProcessProjectName(projectNameArg, c).Success? ==>
      var names := ProcessProjectName(projectNameArg, c).value;
      var collected := CollectedDetails(options, env, names, collectProjectDetails);
      && (collected.None? ==> exitCode == 1 && projectDetails == None)
      && (collected.Some? ==>
            && projectDetails.Some?
            && projectDetails.value.Keys == collected.value.Keys + StampedKeys
            && projectDetails.value["project_name_original"] == projectNameArg
            && projectDetails.value["project_name_normalized"] == NameService.Normalize(projectNameArg)
            && projectDetails.value["pypi_slug"] == NameService.Normalize(projectNameArg)
            && projectDetails.value["python_package_slug"] == names.pythonSlug
            && (forall k :: k in collected.value && k !in StampedKeys ==> projectDetails.value[k] == collected.value[k])
            && (exitCode == 0 <==> createBaseStructure(projectNameArg, names.pythonSlug).Created?))
  {
    var processed := ProcessProjectName(projectNameArg, c);
    if processed.Failure? {
      return 1, None;
    }
    var names := processed.value;
    var collected: Option<map<string, string>>;
    if options.noInteractive {
      var missing;
      collected, missing := GetProjectDetailsNonInteractive(NonInteractiveArgsOf(options, names), env);
    } else {
      collected := collectProjectDetails(names.pypiSlug, names.nameWarnings);
    }
    if collected.None? {
      return 1, None;
    }
    var details := collected.value;
    details := details["project_name_original" := names.originalArg];
    details := details["project_name_normalized" := names.pypiSlug];
    details := details["pypi_slug" := names.pypiSlug];
    details := details["python_package_slug" := names.pythonSlug];
    projectDetails := Some(details);
    var outcome := createBaseStructure(details["project_name_original"], details["python_package_slug"]);
    exitCode := if outcome.Created? then 0 else 1;
  }

  /** An empty name fails the name gate with `EmptyName`, before anything is derived. */
  lemma EmptyNameFails(c: Collaborators)
    ensures ProcessProjectName("", c) == Failure(EmptyName)
    ensures NameErrorMessage(EmptyName) == "Error: Project name cannot be empty."
  {
  }
}
