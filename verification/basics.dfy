/** Small shared vocabulary: optional values, results, and JavaScript truthiness
    of the optional strings that the identity provider and the session hand over. */
module Basics {

  /** A value that may be absent (`null`/`undefined` in the source). */
  datatype Option<+T> = None | Some(value: T) {

    /** The `??` operator: this value when present, otherwise the fallback. */
    function OrElse(fallback: T): T {
      match this
      case Some(v) => v
      case None => fallback
    }

    /** Support for `:-`: an absent value stops the computation. */
    predicate IsFailure() {
      None?
    }

    function PropagateFailure<U>(): Option<U>
      requires None?
    {
      None
    }

    function Extract(): T
      requires Some?
    {
      value
    }
  }

  /** The outcome of an operation that can fail with an error of type E. */
  datatype Result<+T, +E> = Success(value: T) | Failure(error: E)

  /** `!!s` for an optional string: absent and the empty string are both falsy. */
  predicate Truthy(s: Option<string>) {
    s.Some? && s.value != ""
  }

  /** The three roles the account schema knows about. */
  datatype Role = ADMIN | CUSTOMER | RIDER
}
