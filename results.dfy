/** Failure-carrying values: the model's stand-in for Go's `(value, error)` returns. */
module Results {

  datatype Option<+T> = None | Some(value: T) {
    function GetOr(default: T): T {
      match this
      case Some(v) => v
      case None => default
    }
  }

  datatype Result<+T, +E> = Success(value: T) | Failure(error: E)

  /** `prefix` followed by the value of `r`, or the failure of `r` unchanged. */
  function Prepend<T, E>(prefix: seq<T>, r: Result<seq<T>, E>): Result<seq<T>, E> {
    match r
    case Success(rest) => Success(prefix + rest)
    case Failure(e) => Failure(e)
  }

  lemma PrependPrepend<T, E>(a: seq<T>, b: seq<T>, r: Result<seq<T>, E>)
    ensures Prepend(a, Prepend(b, r)) == Prepend(a + b, r)
    ensures Prepend([], r) == r
  {
    if r.Success? {
      assert a + (b + r.value) == (a + b) + r.value;
      assert [] + r.value == r.value;
    }
  }
}
