// A value that may be missing.
module Options {

  datatype Option<+T> = None | Some(value: T) {
    // The first of two lookups that finds something.
    function OrElse(other: Option<T>): Option<T> {
      if Some? then this else other
    }
  }
}
