/** Option, Result and Outcome: Java's nullable references, values-or-exceptions and
    void-or-exception calls. */
module Wrappers {

  /** A Java reference that may be null (`None`). */
  datatype Option<+T> = None | Some(value: T) {
    /** `x != null ? x : d`. */
    function GetOr(d: T): T {
      match this
      case Some(v) => v
      case None => d
    }
  }

  /** A call that returns a value or throws. */
  datatype Result<+T, +E> = Ok(value: T) | Err(error: E)

  /** A void call that returns normally or throws. */
  datatype Outcome<+E> = Pass | Fail(error: E) {
    /** Run `this`, and `next` only when `this` returned normally. */
    function Then(next: Outcome<E>): Outcome<E> {
      if Fail? then this else next
    }
  }
}
