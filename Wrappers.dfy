/** Optional values: `None` stands for the `null` that the views store before a match is dealt. */
module Wrappers {
  datatype Option<+T> = None | Some(value: T)
}
