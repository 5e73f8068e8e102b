/** The result types and the two arithmetic facts the models share. */
module Wrappers {

  /** A value that may be absent: a missing row, a cache miss, a null column. */
  datatype Option<+T> = None | Some(value: T)

  /** A Go function's `(value, error)` pair. */
  datatype Result<+T, +E> = Ok(value: T) | Err(error: E)

  /** How a write statement ends: it may fail before it takes effect, or lose its reply after it has. */
  datatype Fate = Done | NotDone | ReplyLost

  function Max(a: int, b: int): int {
    if a >= b then a else b
  }

  lemma SubsetSize<T>(a: set<T>, b: set<T>)
    requires a <= b
    ensures |a| <= |b|
  {
    assert b == a + (b - a);
  }
}
