/** Values shared by every module: options, bytes and 64-bit integer arithmetic. */
module Base {

  datatype Option<+T> = None | Some(value: T)

  /** A Go string or []byte is a sequence of bytes. */
  newtype byte = x: int | 0 <= x < 256
  type Bytes = seq<byte>

  const CR: byte := 13
  const LF: byte := 10
  const CRLF: Bytes := [CR, LF]

  const MIN_INT64: int := -0x8000_0000_0000_0000
  const MAX_INT64: int := 0x7fff_ffff_ffff_ffff

  predicate InInt64(n: int) {
    MIN_INT64 <= n <= MAX_INT64
  }

  /** Two's-complement wrap-around of an int64 computation. */
  function Wrap64(n: int): (r: int)
    ensures InInt64(r)
    ensures InInt64(n) ==> r == n
  {
    (n - MIN_INT64) % 0x1_0000_0000_0000_0000 + MIN_INT64
  }

  const SECOND: int := 1_000_000_000
  const MILLISECOND: int := 1_000_000

  /** Whole seconds in a duration of nanoseconds; Go's conversion truncates toward zero. */
  function WholeSeconds(nanos: int): (s: int)
    ensures nanos >= 0 ==> s >= 0 && s * SECOND <= nanos < (s + 1) * SECOND
    ensures nanos < 0 ==> s <= 0 && (s - 1) * SECOND < nanos <= s * SECOND
  {
    if nanos >= 0 then nanos / SECOND else -(-nanos / SECOND)
  }
}
