/** Optional values and step outcomes, in the style of Dafny's Wrappers library. */
module Wrappers {

  /** A value that may be missing: JavaScript's null / undefined / NaN results become None. */
  datatype Option<+T> = None | Some(value: T)

  /** The result of an operation that either completes or rejects with a message. */
  datatype Outcome = Pass | Fail(error: string)
}
