/** Values shared by every component: optional results, instants and 64-bit arithmetic. */
module Common {

  datatype Option<+T> = None | Some(value: T)

  /** Nanoseconds since Go's zero instant, so that `time.Time{}` is 0. */
  type Time = int

  /** Nanoseconds. */
  type Duration = int

  const ZERO_TIME: Time := 0
  const SECOND: Duration := 1_000_000_000
  const MILLISECOND: Duration := 1_000_000

  /** A version label, the last element of a link's target. */
  type Version = string

  function Min(a: int, b: int): int {
    if a <= b then a else b
  }

  function Max(a: int, b: int): int {
    if a >= b then a else b
  }

  function Last<T>(s: seq<T>): T
    requires s != []
  {
    s[|s| - 1]
  }

  function Front<T>(s: seq<T>): seq<T>
    requires s != []
  {
    s[..|s| - 1]
  }

  const TWO_TO_63: int := 0x8000_0000_0000_0000
  const TWO_TO_64: int := 0x1_0000_0000_0000_0000

  /** The value a signed 64-bit register holds after computing `x`. */
  function Wrap64(x: int): (r: int)
    ensures -TWO_TO_63 <= r < TWO_TO_63
    ensures exists q :: x == r + q * TWO_TO_64
  {
    var r := (x + TWO_TO_63) % TWO_TO_64 - TWO_TO_63;
    assert x == r + ((x + TWO_TO_63) / TWO_TO_64) * TWO_TO_64;
    r
  }

  /** Integer division as Go does it, rounding toward zero. */
  function TruncDiv(a: int, b: int): int
    requires b > 0
  {
    if a >= 0 then a / b else -((-a) / b)
  }

  function Pow2(n: nat): (p: int)
    ensures p >= 1
  {
    if n == 0 then 1 else 2 * Pow2(n - 1)
  }
}
