/** The optional values and the panicking outcomes the translator works with. */
module Wrappers {

  /** Rust's `Option`. */
  datatype Option<+T> = None | Some(value: T) {
    /** `Option::unwrap_or` */
    function GetOr(default: T): T {
      match this
      case Some(v) => v
      case None => default
    }
  }

  /** The result of an operation that either completes or panics (an `unwrap`,
      an `expect` or an `unreachable!` that fires). A panic aborts the whole
      translation, so it carries only its message. */
  datatype Outcome<+T> = Done(value: T) | Panic(message: string)
}
