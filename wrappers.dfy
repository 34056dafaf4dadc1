/** Optional values and the outcome of a call into an external gateway. */
module Wrappers {

  /** A value that may be absent (JavaScript `null` / `undefined`). */
  datatype Option<+T> = None | Some(value: T)

  /** What an awaited gateway call produced: its value, or a thrown fault. */
  datatype Outcome<+T> = Ok(value: T) | Fail
}
