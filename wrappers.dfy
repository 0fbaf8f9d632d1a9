/** Small failure-carrying datatypes shared by the model. */
module Wrappers {

  /** A value that may be missing: JavaScript's `undefined` / `NaN` results. */
  datatype Option<+T> = None | Some(value: T)

  /** What an awaited call into the chain or a library produced: its value,
      or the `error.message` of the exception it threw. */
  datatype Reply<+T> = Returned(value: T) | Threw(message: string)
}
