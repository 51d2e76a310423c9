/** Optional values: the model's stand-in for JavaScript's `null` results
    and `NaN` parse failures. */
module Wrappers {

  /** Either nothing, or one value. Usable with `:-`, where `None` stops the
      computation. */
  datatype Option<+T> = None | Some(value: T) {

    predicate IsFailure() {
      None?
    }

    /** Passes the absence on under another value type. */
    function PropagateFailure<U>(): Option<U>
      requires None?
    {
      None
    }

    /** The value held. */
    function Extract(): T
      requires Some?
    {
      value
    }
  }
}
