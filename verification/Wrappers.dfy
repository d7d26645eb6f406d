/** An absent or present value; with :- an absent one ends the enclosing computation. */
module Wrappers {
  datatype Option<+T> = None | Some(value: T) {
    predicate IsFailure() {
      None?
    }
    function PropagateFailure<U>(): Option<U>
      requires IsFailure()
    {
      None
    }
    function Extract(): T
      requires !IsFailure()
    {
      value
    }
  }
}
