/** Optional values: a JavaScript `undefined` or a missing property. */
module Wrappers {

  datatype Option<+T> = None | Some(value: T)
}
