/** Optional values and results, used wherever the dashboard's JavaScript yields
    `undefined`, `NaN` or throws. */
module Wrappers {

  datatype Option<+T> = None | Some(value: T)

  /** The outcome of code that may throw a JavaScript `TypeError`. */
  datatype Result<+T> = Ok(value: T) | TypeError
}
