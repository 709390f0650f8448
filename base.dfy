/** Value types shared by every module: optional values, the outcome of a step
    that may raise an exception, and bytes. */
module Base {

  /** A value that may be missing: Python's `None`, JavaScript's `null` or
      `undefined`, SQLite's `NULL`. */
  datatype Option<+T> = None | Some(value: T)

  /** The outcome of a step that may raise: `Raised(m)` carries the text that
      `str(e)` (Python) or `err.message` (JavaScript) would give. */
  datatype Outcome<+T> = Ok(value: T) | Raised(message: string)

  type byte = bv8

  function Min(a: int, b: int): int
  {
    if a <= b then a else b
  }
}
