/** Optional values: a document field that may be absent, or a handler result that may be null. */
module Wrappers {

  /** `None` stands for a missing field, `undefined` or `null`. */
  datatype Option<+T> = None | Some(value: T)
}
