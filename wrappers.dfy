/** Optional values: a user row that may be missing, a contact that may not be attached. */
module Wrappers {
  datatype Option<+T> = None | Some(value: T)
}
