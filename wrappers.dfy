/** The absent/present wrapper used for every read: `None` is Go's nil `*v1.Event`. */
module Wrappers {
  datatype Option<+T> = None | Some(value: T)
}
