/** Optional values: a parsed number that may be missing, a form submission that may be rejected. */
module Wrappers {
  datatype Option<+T> = None | Some(value: T)
}
