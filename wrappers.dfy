/** Option type shared by the modules of this model; it supports `:-`, which
    the session uses for "stop when standard input runs out". */
module Wrappers {

  datatype Option<+T> = None | Some(value: T) {

    predicate IsFailure() {
      None?
    }

    function PropagateFailure<U>(): Option<U>
      requires None?
    {
      None
    }

    function Extract(): T
      requires Some?
    {
      value
    }
  }
}
