/** A value that may be absent: a JavaScript `null`/`undefined`, a missing
    object field, or a storage key with nothing under it. */
module Wrappers {
  datatype Option<+T> = None | Some(value: T)
}
