/** The optional value used throughout the model in place of a Java `null`
    reference or of a library call that throws. */
module Options {

  /** `None` is Java's `null` (or a thrown exception), `Some(v)` a present value.
      Usable with `:-`, so a chain of lookups stops at the first failure the way
      the source's `try` block stops at the first `JSONException`. */
  datatype Option<+T> = None | Some(value: T) {

    predicate IsFailure() {
      None?
    }

    function PropagateFailure<U>(): Option<U>
      requires None?
    {
      None
    }

    function Extract(): T
      requires Some?
    {
      value
    }
  }
}
