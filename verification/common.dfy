/** Shared helper types: optional values, results, and the PHP notion of a
    "truthy" string that the controllers use for their presence checks. */
module Common {

  /** A value that may be absent (PHP `null`). */
  datatype Option<+T> = None | Some(value: T)

  /** The outcome of an operation that can fail with an error value. */
  datatype Result<+T, +E> = Success(value: T) | Failure(error: E)

  /** PHP truthiness of a nullable string: `null`, `""` and `"0"` are falsy. */
  predicate Truthy(s: Option<string>)
  {
    s.Some? && s.value != "" && s.value != "0"
  }
}
