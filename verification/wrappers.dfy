/** A value that may be absent: a profile row that is missing or failed to
    load, a nutrient the search hit does not list. */
module Wrappers {

  datatype Option<+T> = None | Some(value: T)
}
