/** Small value types shared by every layer of the ledger engine. */
module Common {

  /** Python's `Optional[T]`: a value or `None`. */
  datatype Option<+T> = None | Some(value: T) {
    function Map<U>(f: T -> U): Option<U>
    {
      match this
      case Some(v) => Some(f(v))
      case None => None
    }
  }

  /** The outcome of an operation that raises on failure in the source. */
  datatype Result<+T, +E> = Success(value: T) | Failure(error: E)

  /** A point in time (`datetime`), kept opaque: the engine only stores and copies it. */
  type Timestamp = int

  function Abs(x: int): (r: int)
    ensures r >= 0 && (r == x || r == -x)
  {
    if x < 0 then -x else x
  }
}
