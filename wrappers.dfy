/** Optional values, as the Rust `Option` the engine returns from lookups and removals. */
module Wrappers {

  datatype Option<+T> = None | Some(value: T)

}
