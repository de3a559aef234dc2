/** Optional values: a JavaScript `null`/`undefined` slot or a missing key. */
module Wrappers {

  datatype Option<+T> = None | Some(value: T)
}
