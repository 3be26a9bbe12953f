/** Optional values, for the nullable references of the C# source. */
module Wrappers {

  /** `None` stands for a C# `null`. */
  datatype Option<+T> = None | Some(value: T)
}
