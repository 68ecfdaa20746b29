/** The one generic datatype the whole project shares. */
module Wrappers {

  /** A value that may be missing: a NULL column, a rejected command, an absent token. */
  datatype Option<+T> = None | Some(value: T) {

    predicate IsFailure() {
      None?
    }

    function PropagateFailure<U>(): Option<U>
      requires None?
    {
      None
    }

    function Extract(): T
      requires Some?
    {
      value
    }
  }
}
