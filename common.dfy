/** Small value types shared by every module of the model. */
module Common {

  /** A value that may be absent (`undefined` or `null` on the JavaScript side). */
  datatype Option<+T> = None | Some(value: T) {
    function GetOr(default: T): (r: T)
      ensures Some? ==> r == value
      ensures None? ==> r == default
    {
      match this
      case Some(v) => v
      case None => default
    }
  }

  /** The outcome of an operation that either succeeds or fails with an error value. */
  datatype Result<+T, +E> = Ok(value: T) | Err(error: E)

  /**
   * One field of a JSON request body. JavaScript tells apart a field that is
   * absent (`undefined`), one sent as `null` and one that carries a value, and
   * the handlers test `== null` (absent or null) and `!== undefined` (present,
   * possibly null) on purpose.
   */
  datatype BodyField<+T> = Undefined | Null | Given(value: T)

  function Min(a: int, b: int): (r: int)
    ensures r <= a && r <= b
    ensures r == a || r == b
  {
    if a <= b then a else b
  }

  /** `Math.abs` on integers. */
  function Abs(x: int): (r: nat)
    ensures r == x || r == -x
  {
    if x < 0 then -x else x
  }
}
