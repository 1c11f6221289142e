/** Small value wrappers shared by the three screens. */
module Wrappers {

  /** A value that may be absent (`null`/`undefined`, or `NaN` for parsed numbers). */
  datatype Option<T> = None | Some(value: T)

  /** The outcome of one backend call: the response body, or a thrown error
      (network failure, error status, unreadable body). */
  datatype Reply<T> = Ok(body: T) | Failed
}
