/** Small value types shared by the payment handler model: optional values,
    results with an error, and JavaScript's notion of a "falsy" text field. */
module Common {

  /** A value that may be absent (`undefined` or `null` in the request body). */
  datatype Option<+T> = None | Some(value: T)

  /** The outcome of a check that either yields a value or names an error. */
  datatype Result<+R, +E> = Success(value: R) | Failure(error: E)

  /** A text field is falsy in JavaScript when it is absent or the empty string. */
  predicate FalsyText(v: Option<string>)
  {
    v.None? || v.value == ""
  }
}
