/** `pyhatchery.utils.config`: reading a boolean out of an environment string. */
module Config {
  import opened Common
  import Text

  /** `TRUTHY_STRINGS`. */
  const TruthyStrings: seq<string> := ["true", "1", "yes"]

  /** `FALSY_STRINGS`. */
  const FalsyStrings: seq<string> := ["false", "0", "no"]

  /** Python's `repr` of a list of strings that hold no quote or backslash. */
  function ListRepr(items: seq<string>): string {
    "[" + JoinQuoted(items) + "]"
  }

  function JoinQuoted(items: seq<string>): string {
    if items == [] then ""
    else if |items| == 1 then "'" + items[0] + "'"
    else "'" + items[0] + "', " + JoinQuoted(items[1..])
  }

  /** The `ValueError` message, built from the lower-cased value. */
  function InvalidBooleanMessage(lowered: string): string {
    "Invalid boolean string: " + lowered + " - must be one of " + ListRepr(TruthyStrings + FalsyStrings)
  }

  /** `str_to_bool`; `Failure` stands for the `ValueError` it raises. */
  function StrToBool(value: Option<string>): (r: Result<bool, string>)
    ensures value.None? ==> r == Success(false)
    ensures value.Some? ==> (r == Success(true) <==> Text.Lower(value.value) in TruthyStrings)
    ensures value.Some? ==> (r == Success(false) <==> Text.Lower(value.value) in FalsyStrings)
    ensures value.Some? ==> (r.Failure? <==> Text.Lower(value.value) !in TruthyStrings + FalsyStrings)
    ensures r.Failure? ==> r.error == InvalidBooleanMessage(Text.Lower(value.value))
  {
    match value
    case None => Success(false)
    case Some(v) =>
      var lowered := Text.Lower(v);
      if lowered in TruthyStrings then Success(true)
      else if lowered in FalsyStrings then Success(false)
      else Failure(InvalidBooleanMessage(lowered))
  }

  /** No string is both truthy and falsy, so every accepted value has one meaning. */
  lemma TruthyFalsyDisjoint(s: string)
    ensures !(s in TruthyStrings && s in FalsyStrings)
  {
  }

  /** Only the case of the letters is ignored: a value and its lower-case form read alike. */
  lemma StrToBoolIgnoresCase(v: string)
    ensures StrToBool(Some(v)) == StrToBool(Some(Text.Lower(v)))
  {
    Text.LowerIdempotent(v);
  }

  lemma StrToBoolExamples()
    ensures StrToBool(Some("TRUE")) == Success(true)
    ensures StrToBool(Some("Yes")) == Success(true)
    ensures StrToBool(Some("1")) == Success(true)
    ensures StrToBool(Some("No")) == Success(false)
    ensures StrToBool(Some("0")) == Success(false)
    ensures StrToBool(Some("")).Failure?
    ensures StrToBool(Some(" true")).Failure?
    ensures StrToBool(Some("notabool")).Failure?
  {
    assert Text.Lower("TRUE") == "true";
    assert Text.Lower("Yes") == "yes";
    assert Text.Lower("1") == "1";
    assert Text.Lower("No") == "no";
    assert Text.Lower("0") == "0";
    assert Text.Lower("") == "";
    assert Text.Lower(" true") == " true";
    assert Text.Lower("notabool") == "notabool";
  }
}
