/** Optional values and results used across the model.
    `None` stands for JavaScript's `undefined`; `Err` for an error handed to a
    callback or emitted as an `error` event. */
module Wrappers {

  datatype Option<+T> = None | Some(value: T)

  datatype Result<+T, +E> = Ok(value: T) | Err(error: E)

  /** How a JavaScript call ends: with a value, or by throwing. */
  datatype Js<+T> = Returned(value: T) | Threw(message: string)
}
