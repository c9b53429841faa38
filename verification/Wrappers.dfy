/** The optional value used throughout the model where the program has `None`. */
module Wrappers {

  datatype Option<+T> = None | Some(value: T) {

    /** Python's `x if x is not None else fallback`. */
    function Or(fallback: Option<T>): Option<T> {
      if Some? then this else fallback
    }
  }
}
