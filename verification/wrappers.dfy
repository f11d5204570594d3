// The two result shapes of the pager model. `Option` marks whether the view
// returned any pager data (`None` is its empty dictionary). `Result` carries
// either a value or the Python exception the view raised; it is the only one
// of the two that works with `:-`.
module Wrappers {

  /** `None` is the view's empty dictionary; `Some` holds the pager data. */
  datatype Option<+T> = None | Some(value: T)

  /** Success/Failure; usable with `:-` so that an error short-circuits, as a raised exception does. */
  datatype Result<+R, +E> = Success(value: R) | Failure(error: E) {

    predicate IsFailure() {
      Failure?
    }

    function PropagateFailure<U>(): Result<U, E>
      requires Failure?
    {
      Failure(error)
    }

    function Extract(): R
      requires Success?
    {
      value
    }
  }
}
