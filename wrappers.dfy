/** Optional values and settled promises, shared by the models. */
module Wrappers {
  /** JavaScript's `undefined` / `null` versus a present value. */
  datatype Option<+T> = None | Some(value: T)

  /** What an `async` function settles to: a value, or a rejection. */
  datatype Outcome<+T> = Done(value: T) | Threw
}
