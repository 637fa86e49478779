/** Values shared by every service of the model: error-carrying results, the
    outcome of one round trip to the database, and Go's 64-bit `int`. */
module Base {

  datatype Option<T> = None | Some(value: T)

  /** A Go `(value, error)` pair: either the value or the error's text. */
  datatype Result<T> = Ok(value: T) | Err(error: string)

  /** What the database driver answers to one statement: it runs, or the
      driver reports an error with the given text. Which one happens is not
      decided by the services, so every store operation takes it as input. */
  datatype RoundTrip = Succeeds | Fails(error: string)

  const MinInt64: int := -0x8000_0000_0000_0000
  const MaxInt64: int := 0x7FFF_FFFF_FFFF_FFFF
  const Modulus64: int := 0x1_0000_0000_0000_0000

  /** Go's `int` on the 64-bit platforms the services are built for. */
  type int64 = x: int | MinInt64 <= x <= MaxInt64

  /** Go's `a - b` on `int`: exact when the difference fits, otherwise
      wrapped around modulo 2^64. */
  function Sub64(a: int64, b: int64): (r: int64)
    ensures MinInt64 <= a - b <= MaxInt64 ==> r == a - b
    ensures (a - b - r) % Modulus64 == 0
  {
    var d := a - b;
    if d > MaxInt64 then d - Modulus64
    else if d < MinInt64 then d + Modulus64
    else d
  }
}
