/** Optional values: the `None` that several operations of the back office return. */
module Wrappers {

  datatype Option<+T> = None | Some(value: T)

}
