// Option values: the source's `undefined`, `null` and SQL NULL.
module Wrappers {
  datatype Option<+T> = None | Some(value: T)
}
