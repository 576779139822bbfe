/** Java's nullable references and thrown exceptions, as a value. */
module Wrappers {

  /** `None` stands for Java's `null`, or for an operation that throws. */
  datatype Option<+T> = None | Some(value: T) {

    predicate IsFailure() {
      None?
    }

    function PropagateFailure<U>(): Option<U>
      requires None?
    {
      None
    }

    function Extract(): T
      requires Some?
    {
      value
    }
  }
}
