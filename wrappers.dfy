/** A value that may be missing: a React ref whose `current` is null, a fetch that resolved to nothing. */
module Wrappers {
  datatype Option<+T> = None | Some(value: T)
}
