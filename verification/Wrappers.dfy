/** Stock optional value, for the source's null and undefined results. */
module Wrappers {
  datatype Option<+T> = None | Some(value: T)
}
