/** Small failure-carrying datatypes shared by the whole model. */
module Wrappers {

  /** A value that may be missing; plays the role of a Go nil pointer. */
  datatype Option<+T> = None | Some(value: T)

  /** Either a value or a Go runtime panic (index out of range, divide by
      zero, nil map entry, a `panic(err)` on a parse error). A panic ends the
      process, so no state survives it. */
  datatype Outcome<+T> = Panic(reason: string) | Done(value: T)
  {
    /** The members below let `var x :- e;` stop at the first panic. */
    predicate IsFailure() {
      Panic?
    }

    function PropagateFailure<U>(): Outcome<U>
      requires Panic?
    {
      Panic(reason)
    }

    function Extract(): T
      requires Done?
    {
      value
    }
  }
}
