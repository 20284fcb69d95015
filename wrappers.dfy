/** Optional values and the way a Python call ends. */
module Wrappers {

  datatype Option<+T> = None | Some(value: T)

  /** How a call ended: it returned a value, or an exception escaped from it. */
  datatype Outcome<+T> = Returned(value: T) | Threw
}
