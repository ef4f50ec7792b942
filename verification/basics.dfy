/** What the other modules share. */
module Basics {

  datatype Option<T> = None | Some(value: T)

  /** Always true.  What is defined behind `Shown` stays out of a proof until the
      proof mentions it as well. */
  predicate Shown(k: int) { true }

  /** Like `Shown`, for the invariants. */
  predicate Opened(k: int) { true }
}
