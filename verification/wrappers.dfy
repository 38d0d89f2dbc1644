/** Optional values and HTTP replies shared by every controller model. */
module Wrappers {

  /** A value that may be absent: JavaScript's `null` / `undefined`. */
  datatype Option<+T> = None | Some(value: T)

  /** What a request handler answers. `Ok` is a successful answer with its
      HTTP status, message and payload; `Err` is a failed answer with its
      HTTP status and message, whichever envelope carries it. */
  datatype Reply<+T> =
    | Ok(status: int, message: string, value: T)
    | Err(status: int, message: string)
}
