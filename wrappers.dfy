/** Optional values, used wherever the bot may or may not find something. */
module Wrappers {
  datatype Option<+T> = None | Some(value: T)
}
