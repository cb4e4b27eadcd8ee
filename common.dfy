/** Value types shared by every part of the name pipeline. */
module Common {

  /** Python's `X | None`. */
  datatype Option<+T> = None | Some(value: T) {
    function GetOr(default: T): T {
      match this
      case Some(v) => v
      case None => default
    }
  }

  /** A value, or the error that Python would raise instead of returning one. */
  datatype Result<+R, +E> = Success(value: R) | Failure(error: E)

  /** The `(bool, str | None)` pair every validator of the project returns. */
  datatype ValidationResult = ValidationResult(isValid: bool, diagnostic: Option<string>)

  /** The pair `(True, None)`. */
  const Valid := ValidationResult(true, None)

  /** The pair `(False, message)`. */
  function Invalid(message: string): (r: ValidationResult)
    ensures !r.isValid && r.diagnostic == Some(message)
  {
    ValidationResult(false, Some(message))
  }
}
