/** What several models share. */
module Wrappers {
  datatype Option<+T> = None | Some(value: T)

  /** A flag as a count. */
  function One(b: bool): int {
    if b then 1 else 0
  }
}
