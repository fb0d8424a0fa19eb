/** Optional results, and strings as the C code has them. */
module Wrappers {
  /** The characters of a string, as signed or unsigned bytes. */
  type Str = seq<int>

  datatype Option<+T> = None | Some(value: T)
}
