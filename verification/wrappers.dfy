/** Optional values, used where the source returns early without sending anything. */
module Wrappers {

  datatype Option<+T> = None | Some(value: T)
}
