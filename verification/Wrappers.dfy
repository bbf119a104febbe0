/** What several modules wrap their results in. */
module Wrappers {
  datatype Option<+T> = None | Some(value: T)
}
