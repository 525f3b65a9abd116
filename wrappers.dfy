/** Optional values: `None` stands for the C# `null` the navigator returns or caches. */
module Wrappers {
  datatype Option<+T> = None | Some(value: T)
}
