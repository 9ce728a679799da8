/** Optional values and pass/fail outcomes, used for JavaScript lookups that may
    find nothing and for validators that throw. */
module Wrappers {

  datatype Option<+T> = None | Some(value: T)

  /** The result of a check that either passes or fails with a message (a
      thrown `Error` in the source). */
  datatype Outcome = Pass | Fail(error: string)
}
