# pyhatchery name pipeline, in Dafny

This project models how `pyhatchery new <PROJECT_NAME>` turns the raw project
name into the names it scaffolds with, and proves properties of that model.

- **Gate.** An empty name or a name flagged by the character check stops the
  command with exit code 1, before any slug is derived.
- **Normalise.** The raw name becomes a registry slug by the canonical-name rule
  of section "Normalized Names" of PEP 503: every maximal run of `-`, `_`, `.`
  becomes one `-`, then the result is lower-cased (`NameService.Normalize`).
- **Check shape.** `pep503_name_ok` applies three rules in order: the
  `^[a-z0-9](?:[a-z0-9._-]*[a-z0-9])?$` shape (case-insensitive, ASCII), a
  32-character cap, and at most two underscores (`NameService.NameOk`).
- **Derive and warn.** A package name is derived from the slug. The registry
  lookup result and the package-name check are then folded into an ordered
  warning list of at most two entries (`Cli.PerformProjectNameChecks`,
  `Cli.ProcessProjectName`).
- **Details.** Non-interactive mode merges each of six fields as flag, then
  environment, then default, then `""`. It reports all missing identity fields
  together (`Cli.GetProjectDetailsNonInteractive`). `new` then writes four name
  keys into the details and returns exit code 0 or 1 (`Cli.New`).
- **Older helpers.** The character-set validator `validate_project_name`
  (`Names`) and the boolean-string parser `str_to_bool` (`Config`) are modelled
  too.

Modules: `Common` holds Option, Result and the `(bool, str | None)` validation
pair. `Text` holds ASCII character classes, `lower()`, `count()` and `str(n)`.
`NameService` models `components/name_service.py`, `Names` models `names.py`,
`Config` models `utils/config.py`, and `Cli` models `cli.py`.

Collaborators whose code is not part of this model become function-typed
parameters (`Cli.Collaborators`, plus the wizard and the scaffolder passed to
`Cli.New`). They are `has_invalid_characters`, `derive_python_package_slug`,
`is_valid_python_package_name`, `check_pypi_availability`,
`collect_project_details` and `create_base_structure`. The environment read by
`load_from_env` is a `map<string, string>` parameter.

Where the code differs from what its tests or docstrings suggest, the model
follows the code:

- `_process_project_name` calls `pep503_name_ok` on the original argument and
  only prints a failure; the result never becomes a warning and never stops the
  command (src/pyhatchery/cli.py:255-261). The "normalized to"
  notice is also only printed (src/pyhatchery/cli.py:263-268).
- The package-name warning names the original argument as "input"
  (src/pyhatchery/cli.py:71-72, 275-276). One test expects the slug there
  instead (tests/unit/test_cli.py:334-344).
- Besides the shape pattern, `pep503_name_ok` has only a 32-character cap and a
  two-underscore cap. Of the rules in its docstring
  (src/pyhatchery/components/name_service.py:34-42), lower-case only, no
  hyphens or dots, and no leading digit are not implemented, and two
  underscores still pass. A leading underscore is rejected, by the pattern's
  first character.

## Model

| member | source | states |
|---|---|---|
| Text.Lower | src/pyhatchery/components/name_service.py:22 | `.lower()` keeps the length and lower-cases each ASCII letter in place |
| Text.Count | src/pyhatchery/components/name_service.py:53 | `count` is zero exactly when the character does not occur, and never exceeds the length |
| NameService.Normalize | src/pyhatchery/components/name_service.py:12-22 | the slug is never longer than the name; it has no `_`, no `.`, no ASCII capital and no two adjacent `-` |
| NameService.CollapseRunsFacts | src/pyhatchery/components/name_service.py:22 | the substitution yields only `-` and non-separator characters of the input, never `--`, and is no longer than the input |
| NameService.CollapseRunsAppend | src/pyhatchery/components/name_service.py:22 | the substitution distributes over concatenation, with the run state carried across the cut |
| NameService.NormalizeMaximalRun | src/pyhatchery/components/name_service.py:22 | a maximal run of separators between two stretches becomes exactly one `-` between their normal forms |
| NameService.NormalizeNoSeparators | src/pyhatchery/components/name_service.py:22 | a stretch without separators is only lower-cased |
| NameService.NormalizeKeepsNonSeparators | src/pyhatchery/components/name_service.py:22 | the non-separator characters survive in order, lower-cased |
| NameService.NormalizeFixpoints | src/pyhatchery/components/name_service.py:22 | normalising leaves a string unchanged exactly when it has no `_`, `.`, capital or `--` |
| NameService.NormalizeIdempotent | src/pyhatchery/components/name_service.py:22 | normalising twice equals normalising once |
| NameService.NormalizeExamples | src/pyhatchery/components/name_service.py:22 | `TestProject` becomes `testproject` and `My_Project` becomes `my-project` |
| NameService.NameOk | src/pyhatchery/components/name_service.py:25-55 | valid exactly when the pattern matches, the length is at most 32 and there are at most 2 underscores; a message comes exactly with a failure |
| NameService.NameOkFirstFailureWins | src/pyhatchery/components/name_service.py:43-54 | a shape failure reports the shape message even when the name is also too long; length is reported before underscores |
| NameService.ShapeExamples | src/pyhatchery/components/name_service.py:5-8 | `""`, `-abc`, `abc-` and `_abc` are rejected with the shape message; `a`, `My.Name` and `1abc` are accepted |
| NameService.MaxLenText | src/pyhatchery/components/name_service.py:48-51 | the cap printed in the length message reads `32` |
| NameService.LengthBoundary | src/pyhatchery/components/name_service.py:9 | 32 characters pass and 33 fail with the "too long (max 32 chars)" message |
| NameService.UnderscoreBoundary | src/pyhatchery/components/name_service.py:53-54 | `a_b_c` (two underscores) passes; `a_b_c_d` (three) fails with the underscore message |
| NameService.NameOkTrailingNewline | src/pyhatchery/components/name_service.py:5-8 | as written, `a` followed by a newline is accepted, which the whole-string check rejects |
| NameService.NameOkWhole | src/pyhatchery/components/name_service.py:43-55 | the corrected check: valid exactly when the whole string has the shape and both caps hold |
| NameService.NameOkWholeIsStricter | src/pyhatchery/components/name_service.py:43-55 | the corrected check accepts a subset of what the code accepts, and never a newline |
| NameService.CollapseRunsLast | src/pyhatchery/components/name_service.py:22 | a name ending in a non-separator keeps that character last |
| NameService.NormalizeKeepsNameOk | src/pyhatchery/components/name_service.py:22 | the slug of a name that passes the whole-string check also passes it and holds no underscore |
| Names.AllAllowed | src/pyhatchery/names.py:32 | the `all(...)` scan holds exactly when every character is alphanumeric, `-` or `_` |
| Names.ValidateProjectName | src/pyhatchery/names.py:4-37 | `(True, None)` exactly when every character is allowed; otherwise the message naming the project and "contains invalid characters" |
| Names.EmptyNameAccepted | src/pyhatchery/names.py:32 | the empty name is accepted |
| Names.OneBadCharacterRejects | src/pyhatchery/names.py:32-36 | one disallowed character anywhere rejects the name with the message embedding it |
| Names.DotAndSpaceRejected | src/pyhatchery/names.py:32 | `.` and space are rejected |
| Names.HyphenUnderscoreDigitAccepted | src/pyhatchery/names.py:32 | hyphens, underscores and digits are accepted |
| Names.NormalizeKeepsAllowed | src/pyhatchery/names.py:32 | a name this check accepts is still accepted after normalisation |
| Config.StrToBool | src/pyhatchery/utils/config.py:9-29 | `None` gives `False`; a value gives `True` or `False` exactly when its lower-case form is truthy or falsy; anything else raises, with the lower-cased value in the message |
| Config.TruthyFalsyDisjoint | src/pyhatchery/utils/config.py:5-6 | no string is both truthy and falsy |
| Config.StrToBoolIgnoresCase | src/pyhatchery/utils/config.py:21-23 | a value and its lower-case form give the same result |
| Config.StrToBoolExamples | src/pyhatchery/utils/config.py:19-29 | `TRUE`, `Yes`, `1` give true; `No`, `0` give false; `""`, padded `true` and `notabool` raise |
| Cli.PerformProjectNameChecks | src/pyhatchery/cli.py:45-87 | the appended warnings equal the availability warning (if any) followed by the package-name warning (if any), at most two |
| Cli.LookupFailureIgnoresTaken | src/pyhatchery/cli.py:54-57 | a non-empty lookup error gives exactly the "availability check ... failed" warning, whatever the taken flag |
| Cli.LookupWithoutError | src/pyhatchery/cli.py:58-64 | without an error only a confirmed "taken" warns; not taken and unknown add nothing |
| Cli.NameWarningsShape | src/pyhatchery/cli.py:52-75 | at most two warnings; empty exactly when nothing failed; a failed package name is always last |
| Cli.ProcessProjectName | src/pyhatchery/cli.py:238-285 | fails exactly on an empty or flagged name, a flagged name carrying the character check's own error; otherwise the argument, its normal form, the derived package name and the checks' warnings |
| Cli.ProcessedNameIsCanonical | src/pyhatchery/cli.py:253-285 | the resulting slug is in normal form, a fixpoint of normalisation, no longer than the argument, with at most two warnings |
| Cli.TestProjectScenario | src/pyhatchery/cli.py:253-285 | `TestProject` with a free name and a passing package name gives slug `testproject` and no warnings |
| Cli.MyProjectScenario | src/pyhatchery/cli.py:52-75 | a taken slug and a failing package name give the taken warning, then the package-name warning, whose "from input" field is the original argument |
| Cli.EmptyNameFails | src/pyhatchery/cli.py:242-245 | the empty name fails with `EmptyName`, whose printed message is "Error: Project name cannot be empty." |
| Cli.AssignFieldsValues | src/pyhatchery/cli.py:128-136 | assigning distinct fields in turn gives exactly those keys, each with its own resolved value |
| Cli.FieldNamesDistinct | src/pyhatchery/cli.py:115-126 | the six field names are distinct |
| Cli.MergedDetailsKeys | src/pyhatchery/cli.py:113-136 | the merged details have exactly the six keys |
| Cli.MergedDetailsPrecedence | src/pyhatchery/cli.py:128-136 | each field takes the flag value if given (even `""`), else the environment's, else its default, else `""` |
| Cli.MissingRequiredFields | src/pyhatchery/cli.py:138-141 | the missing list is `author_name` then `author_email`, each listed exactly when absent or empty |
| Cli.GetProjectDetailsNonInteractive | src/pyhatchery/cli.py:90-158 | the loops produce the merged details and the missing list; details are returned exactly when nothing is missing |
| Cli.DebugEnabled | src/pyhatchery/cli.py:200-212 | debug is on exactly when the flag is set or `PYHATCHERY_DEBUG` reads as truthy; an unreadable value counts as off |
| Cli.New | src/pyhatchery/cli.py:316-396 | exit code 1 on a name failure or missing details; otherwise the details gain the four name keys, keep every other key, and the code is 0 exactly when the scaffolder succeeds |

## Left out

- Printing (`click.secho`), colours, the Click group and option wiring, the version and help flags, and `ctx.exit`. Only returned values and exit codes are modelled.
- The bodies of `has_invalid_characters`, `derive_python_package_slug` and `is_valid_python_package_name` are not part of this model. They are function parameters, so nothing is proved about their rules.
- The network lookup `check_pypi_availability` is not part of this model. Its `(is_taken, error)` result comes from a function parameter.
- The interactive wizard `collect_project_details` is terminal prompting and not part of this model. It is a parameter returning optional details.
- `create_base_structure` and the filesystem are not part of this model. Its outcome is a parameter, and the output directory `Path.cwd()` is not modelled.
- `load_from_env` and `.env` reading are not part of this model. The environment is a map parameter.
- The debug dump printed by `new` (src/pyhatchery/cli.py:365-373) is output only.
- Exceptions other than `FileExistsError` and `OSError` escaping the scaffolder are not modelled.
- The test-only alias `_alias_internal_get_project_details_non_interactive_for_testing` is not modelled. It only forwards its arguments.
- Text.Lower: only ASCII `A`..`Z` are lower-cased, while Python's `str.lower` also folds non-ASCII letters.
- Names.ValidateProjectName: alphanumeric means ASCII letters and digits, while Python's `str.isalnum` also accepts non-ASCII letters and digits.
- Config.StrToBool: the lower-casing is ASCII only, as for Text.Lower.

## Findings

| source | as written | input that shows it | evidently intended | confidence | as-written member | corrected member |
|---|---|---|---|---|---|---|
| src/pyhatchery/components/name_service.py:5-8 | the pattern ends in `$` and is applied with `match`; Python's `$` also matches just before a final newline, so a well-shaped name followed by `\n` passes and its newline counts toward the 32-character cap | `"a\n"` gives `(True, None)` | the whole name must have the shape (`fullmatch`, or `\Z`), so no newline is ever accepted | medium, not executed | NameService.NameOkTrailingNewline | NameService.NameOkWholeIsStricter |

The result of `pep503_name_ok` is only printed by the command, so no other part
of the model depends on which variant is used. `NameService.NameOk` models the
code as written. `NameService.NameOkWhole` is the corrected check, and the slug
lemma `NameService.NormalizeKeepsNameOk` is stated for it.
