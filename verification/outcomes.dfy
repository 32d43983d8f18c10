/** Optional values and the outcome of an operation that may throw.

    JavaScript `undefined` (or a value the caller did not supply) is `None`;
    a thrown `Error` is `Err` carrying its `message`. */
module Outcomes {

  datatype Option<+T> = None | Some(value: T)

  /** The result of a step that either returns a value or throws an `Error`. */
  datatype Result<+T> = Ok(value: T) | Err(message: string)

  /** A thrown value: an `Error` instance with its message, or anything else
      (`throw "text"`, a rejected promise with a non-error reason). */
  datatype Thrown = ErrorThrown(message: string) | OtherThrown

  /** The completion of a step whose failures need not be `Error`s. */
  datatype Outcome<+T> = Returned(value: T) | Threw(thrown: Thrown)
}
