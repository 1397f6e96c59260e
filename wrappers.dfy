/** Optional values, used for a document that may be absent and for a lookup that may miss. */
module Wrappers {

  datatype Option<+T> = None | Some(value: T)
}
