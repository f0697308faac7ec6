/** Optional values, used for "no panel selected" and for absent attributes. */
module Wrappers {
  datatype Option<+T> = None | Some(value: T)
}
