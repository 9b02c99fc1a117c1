/** Small helpers shared by the components: an optional value and the
    float-to-int conversion the source applies with Python's int(). */
module Numeric {
  datatype Option<T> = None | Some(value: T)

  /** Python's int() on a number: truncation toward zero. */
  function Trunc(x: real): (n: int)
    ensures 0.0 <= x ==> n as real <= x < n as real + 1.0
    ensures x < 0.0 ==> n as real - 1.0 < x <= n as real
    ensures (n < 0) == (x <= -1.0)
  {
    if 0.0 <= x then x.Floor else -((-x).Floor)
  }
}
