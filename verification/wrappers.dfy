/** Python's `None`-or-value, as used for optional form fields, dictionary lookups
    and the path that conversion may or may not produce. */
module Wrappers {

  datatype Option<+T> = None | Some(value: T)
}
