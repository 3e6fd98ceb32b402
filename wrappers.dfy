/** The optional value used for "no result": a float that does not parse, a
    missing access-point line, an absent column. */
module Wrappers {
  datatype Option<+T> = None | Some(value: T)
}
