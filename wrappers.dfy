/** Outcome types shared by the whole model.  The original program signals
    failure by JavaScript means only: a TypeError on a read of `undefined`,
    a loop or a recursion that never ends, or an `undefined` value flowing
    on where a note was expected.  Each of these becomes an explicit `Err`. */
module Wrappers {

  datatype Option<+T> = None | Some(value: T)

  /** Why a computation of the original program does not deliver a value. */
  datatype Fault =
    | TypeError     // a field of `undefined`/`null` is read, or `reduce` of an empty array
    | Diverges      // a loop or a recursion that never ends
    | Undefined     // an array is read outside its bounds and `undefined` flows on

  datatype Result<+T> = Ok(value: T) | Err(fault: Fault) {

    predicate IsFailure() {
      Err?
    }

    function PropagateFailure<U>(): Result<U>
      requires Err?
    {
      Err(fault)
    }

    function Extract(): T
      requires Ok?
    {
      value
    }
  }
}
