/** Optional values and fallible results, plus the Python truthiness the
    screens rely on when they test an identifier with `not x`. */
module Wrappers {

  /** `None` plays the part of Python's `None` and of SQL `NULL`. */
  datatype Option<+T> = None | Some(value: T) {

    function GetOr(default: T): T {
      match this
      case Some(v) => v
      case None => default
    }
  }

  /** A computation that either yields a value or fails with a message,
      standing for a raised exception. */
  datatype Result<+T> = Ok(value: T) | Err(message: string) {

    predicate IsFailure() {
      Err?
    }
  }

  /** Python truthiness of an optional identifier: `None` and `0` are falsy. */
  predicate Truthy(id: Option<int>) {
    id.Some? && id.value != 0
  }

  /** Python truthiness of an optional text: `None` and `''` are falsy,
      and so only they, so the text `'0'` is true. */
  predicate TruthyText(t: Option<string>) {
    t.Some? && t.value != ""
  }
}
