/** Failure-carrying values and Go's fixed-width integers, shared by every module. */
module Wrappers {

  /** A Go pointer or optional value: absent (nil) or present. */
  datatype Option<+T> = None | Some(value: T)

  /** A Go `(value, error)` pair where the value is meaningless whenever the error is set. */
  datatype Result<+T, +E> = Ok(value: T) | Err(error: E)

  /** The gRPC status codes the services answer with. */
  datatype Code = NotFound | Internal

  const MinInt32: int := -0x8000_0000
  const MaxInt32: int := 0x7fff_ffff
  const MinInt64: int := -0x8000_0000_0000_0000
  const MaxInt64: int := 0x7fff_ffff_ffff_ffff

  /** Go's `int32`. */
  newtype int32 = x: int | -0x8000_0000 <= x < 0x8000_0000

  /** Go's `int64`. */
  newtype int64 = x: int | -0x8000_0000_0000_0000 <= x < 0x8000_0000_0000_0000

  /** The value an `int32` variable holds after being assigned the mathematical result `x` (two's complement). */
  function Wrap32(x: int): (r: int)
    ensures MinInt32 <= r <= MaxInt32
    ensures MinInt32 <= x <= MaxInt32 ==> r == x
    ensures MinInt32 - 0x1_0000_0000 <= x < MinInt32 ==> r == x + 0x1_0000_0000
    ensures (x - r) % 0x1_0000_0000 == 0
  {
    (x - MinInt32) % 0x1_0000_0000 + MinInt32
  }

  /** The value an `int64` variable holds after being assigned the mathematical result `x` (two's complement). */
  function Wrap64(x: int): (r: int)
    ensures MinInt64 <= r <= MaxInt64
    ensures MinInt64 <= x <= MaxInt64 ==> r == x
    ensures (x - r) % 0x1_0000_0000_0000_0000 == 0
  {
    (x - MinInt64) % 0x1_0000_0000_0000_0000 + MinInt64
  }
}
