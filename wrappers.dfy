/** The Option datatype used for values that JavaScript may leave absent
    (a missing query parameter) or not-a-number (a failed parseInt). */
module Wrappers {

  datatype Option<+T> = None | Some(value: T)
}
