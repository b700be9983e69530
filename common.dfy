/** Small shared vocabulary: optional values, JavaScript truthiness of strings, ASCII digits. */
module Common {

  /** A value that may be absent (`null` / `undefined` on the JavaScript side). */
  datatype Option<+T> = None | Some(value: T)

  /** `if (s)` for a `string | null | undefined`: only a present, non-empty string is truthy. */
  predicate Truthy(s: Option<string>)
  {
    s.Some? && s.value != ""
  }

  /** An ASCII digit: `\d` of a regular expression without the `u` flag, and what `parseInt(c, 10)` reads. */
  predicate IsAsciiDigit(c: char)
  {
    '0' <= c <= '9'
  }
}
