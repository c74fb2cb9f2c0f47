/** Results and optional values, the shape in which the source's exceptions and
    missing values are modelled; and positions, by which a filtered list is told. */
module Wrappers {

  datatype Option<+T> = None | Some(value: T)

  datatype Result<+T, +E> = Ok(value: T) | Err(error: E) {
    predicate IsFailure() {
      Err?
    }

    function PropagateFailure<U>(): Result<U, E>
      requires Err?
    {
      Err(error)
    }

    function Extract(): T
      requires Ok?
    {
      value
    }
  }

  // Increasing positions below `n`.
  predicate Positions(at: seq<nat>, n: nat) {
    (forall k :: 0 <= k < |at| ==> at[k] < n) && (forall j, k :: 0 <= j < k < |at| ==> at[j] < at[k])
  }
}
